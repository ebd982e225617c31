/** Sector ownership as a value, and what every run of membership changes keeps (src/kvsrv/chr/ring.go). */
module RingState {
  import opened Base

  datatype Ring = Ring(
    numReplicas: nat,
    numSectors: nat,
    numServers: int,
    nodeIDs: seq<Str>,
    nodes: map<Str, seq<nat>>,
    sectorMap: map<nat, Str>)

  function SectorsOf(nodes: map<Str, seq<nat>>, id: Str): seq<nat> {
    if id in nodes then nodes[id] else []
  }

  function Count(nodes: map<Str, seq<nat>>, id: Str): nat { |SectorsOf(nodes, id)| }

  /** How many sectors the listed nodes own together. */
  function Total(ids: seq<Str>, nodes: map<Str, seq<nat>>): nat {
    if ids == [] then 0 else Count(nodes, ids[0]) + Total(ids[1..], nodes)
  }

  /** A node's list is exactly the sectors that map to it, each once. */
  ghost predicate Owns(nodes: map<Str, seq<nat>>, sectorMap: map<nat, Str>, id: Str) {
    && Distinct(SectorsOf(nodes, id))
    && forall s: nat :: s in SectorsOf(nodes, id) <==> s in sectorMap && sectorMap[s] == id
  }

  /** `nodes` is the inverse of `sectorMap`, for every name. */
  ghost predicate Inverse(r: Ring) {
    && (forall s: nat :: s in r.sectorMap <==> s < r.numSectors)
    && (forall id: Str :: Owns(r.nodes, r.sectorMap, id))
  }

  /** The empty name is GetRichestNode's mark for "none yet", so it names no server. */
  ghost predicate Valid(r: Ring) {
    && r.numServers == |r.nodeIDs| >= 1
    && Distinct(r.nodeIDs) && [] !in r.nodeIDs
    && Elements(r.nodeIDs) == r.nodes.Keys
    && Inverse(r)
    && (forall id | id in r.nodes :: r.nodes[id] != [])
    && Total(r.nodeIDs, r.nodes) == r.numSectors
  }

  /** Sector counts differ by at most one. */
  predicate Balanced(ids: seq<Str>, nodes: map<Str, seq<nat>>) {
    forall a, b | a in ids && b in ids :: Count(nodes, a) <= Count(nodes, b) + 1
  }

  // ----- MakeConsistentHashRing

  /** Round-robin distribution of the first `n` sectors. */
  function Dealt(ids: seq<Str>, n: nat): (map<Str, seq<nat>>, map<nat, Str>)
    requires n > 0 ==> ids != []
  {
    if n == 0 then (map id | id in ids :: [], map[])
    else
      var d := Dealt(ids, n - 1);
      var id := ids[(n - 1) % |ids|];
      (d.0[id := SectorsOf(d.0, id) + [n - 1]], d.1[n - 1 := id])
  }

  function Make(numReplicas: nat, numSectors: nat, ids: seq<Str>): Ring
    requires numSectors > 0 ==> ids != []
  {
    var d := Dealt(ids, numSectors);
    Ring(numReplicas, numSectors, |ids|, ids, d.0, d.1)
  }

  // ----- GetRichestNode, TakeSectorFrom, AddNode

  function RichestFrom(ids: seq<Str>, nodes: map<Str, seq<nat>>, best: Str, most: nat): Str {
    if ids == [] then best
    else if best == [] || Count(nodes, ids[0]) > most then RichestFrom(ids[1..], nodes, ids[0], Count(nodes, ids[0]))
    else RichestFrom(ids[1..], nodes, best, most)
  }

  function Richest(ids: seq<Str>, nodes: map<Str, seq<nat>>): Str { RichestFrom(ids, nodes, [], 0) }

  /** The first sector of `from` goes to `to`; taking from an empty list would be a crash in the code. */
  function MoveFrom(r: Ring, from: Str, to: Str): Ring {
    var list := SectorsOf(r.nodes, from);
    if list == [] then r
    else
      var nodes := r.nodes[from := list[1..]];
      r.(nodes := nodes[to := SectorsOf(nodes, to) + [list[0]]], sectorMap := r.sectorMap[list[0] := to])
  }

  function MoveOne(r: Ring, to: Str): Ring { MoveFrom(r, Richest(r.nodeIDs, r.nodes), to) }

  function MoveMany(r: Ring, to: Str, n: nat): Ring {
    if n == 0 then r else MoveOne(MoveMany(r, to, n - 1), to)
  }

  function Share(r: Ring): nat
    requires r.numServers >= 0
  {
    r.numSectors / (r.numServers + 1)
  }

  function Added(r: Ring, id: Str): Ring
    requires r.numServers >= 0
  {
    if id in r.nodes then r
    else
      Joined(MoveMany(r, id, Share(r)), id)
  }

  // ----- RemoveNode

  function DeleteFirst(ids: seq<Str>, id: Str): seq<Str> {
    if ids == [] then [] else if ids[0] == id then ids[1..] else [ids[0]] + DeleteFirst(ids[1..], id)
  }

  function Give(r: Ring, sector: nat, id: Str): Ring {
    r.(nodes := r.nodes[id := SectorsOf(r.nodes, id) + [sector]], sectorMap := r.sectorMap[sector := id])
  }

  /** The first `n` of the orphaned sectors dealt out round-robin. */
  function Redistributed(r: Ring, orphans: seq<nat>, n: nat): Ring
    requires n <= |orphans| && (n > 0 ==> |r.nodeIDs| > 0)
  {
    if n == 0 then r
    else Give(Redistributed(r, orphans, n - 1), orphans[n - 1], r.nodeIDs[(n - 1) % |r.nodeIDs|])
  }

  function Dropped(r: Ring, id: Str): Ring {
    r.(nodes := r.nodes - {id}, nodeIDs := DeleteFirst(r.nodeIDs, id), numServers := r.numServers - 1)
  }

  /** RemoveNode indexes the remaining names, so a member may only go when another server stays. */
  function Removed(r: Ring, id: Str): Ring
    requires id in r.nodes && r.nodes[id] != [] ==> |DeleteFirst(r.nodeIDs, id)| > 0
  {
    var orphans := SectorsOf(r.nodes, id);
    Redistributed(Dropped(r, id), orphans, |orphans|)
  }

  // ----- counting

  lemma {:induction false} TotalUpdate(ids: seq<Str>, nodes: map<Str, seq<nat>>, id: Str, list: seq<nat>)
    requires Distinct(ids)
    ensures id in ids ==> Total(ids, nodes[id := list]) == Total(ids, nodes) - Count(nodes, id) + |list|
    ensures id !in ids ==> Total(ids, nodes[id := list]) == Total(ids, nodes)
  {
    if ids != [] {
      assert ids == [ids[0]] + ids[1..];
      TotalUpdate(ids[1..], nodes, id, list);
    }
  }

  lemma {:induction false} TotalAtLeast(ids: seq<Str>, nodes: map<Str, seq<nat>>, lo: nat, x: Str)
    requires forall id | id in ids :: lo <= Count(nodes, id)
    ensures |ids| * lo <= Total(ids, nodes)
    ensures x in ids && Count(nodes, x) > lo ==> |ids| * lo < Total(ids, nodes)
  {
    if ids != [] {
      assert ids == [ids[0]] + ids[1..] && ids[0] in ids;
      TotalAtLeast(ids[1..], nodes, lo, x);
      Multiply(|ids|, lo);
    }
  }

  lemma {:induction false} TotalAtMost(ids: seq<Str>, nodes: map<Str, seq<nat>>, hi: nat, x: Str)
    requires forall id | id in ids :: Count(nodes, id) <= hi
    ensures Total(ids, nodes) <= |ids| * hi
    ensures x in ids && Count(nodes, x) < hi ==> Total(ids, nodes) < |ids| * hi
  {
    if ids != [] {
      assert ids == [ids[0]] + ids[1..] && ids[0] in ids;
      TotalAtMost(ids[1..], nodes, hi, x);
      Multiply(|ids|, hi);
    }
  }

  lemma Multiply(n: int, k: int)
    ensures n * k == k + (n - 1) * k
  {
  }

  /** The scan returns a node with the most sectors. */
  lemma {:induction false} RichestIsMax(ids: seq<Str>, nodes: map<Str, seq<nat>>, best: Str, most: nat)
    requires [] !in ids && (best == [] ==> ids != []) && (best != [] ==> most == Count(nodes, best))
    ensures var x := RichestFrom(ids, nodes, best, most);
      && (x in ids || (x == best && best != []))
      && (forall id | id in ids :: Count(nodes, id) <= Count(nodes, x))
      && (best != [] ==> most <= Count(nodes, x))
  {
    if ids != [] {
      assert ids == [ids[0]] + ids[1..] && ids[0] in ids;
      if best == [] || Count(nodes, ids[0]) > most {
        RichestIsMax(ids[1..], nodes, ids[0], Count(nodes, ids[0]));
      } else {
        RichestIsMax(ids[1..], nodes, best, most);
      }
    }
  }

  // ----- AddNode

  /** Between two moves of AddNode: `moved` sectors have gone to the newcomer. */
  ghost predicate Moving(r: Ring, to: Str, moved: nat) {
    && r.numServers == |r.nodeIDs| >= 1
    && Distinct(r.nodeIDs) && [] !in r.nodeIDs && to !in r.nodeIDs && to != []
    && r.nodes.Keys == Elements(r.nodeIDs) + (if moved == 0 then {} else {to})
    && Inverse(r)
    && (forall id | id in r.nodeIDs :: Count(r.nodes, id) >= 1)
    && Count(r.nodes, to) == moved
    && Total(r.nodeIDs, r.nodes) + moved == r.numSectors
  }

  /** While the newcomer is short of its share, the richest node has a sector to spare. */
  lemma RichestCanSpare(r: Ring, to: Str, moved: nat)
    requires Moving(r, to, moved) && moved < Share(r)
    ensures Count(r.nodes, Richest(r.nodeIDs, r.nodes)) >= 2
  {
    var x := Richest(r.nodeIDs, r.nodes);
    RichestIsMax(r.nodeIDs, r.nodes, [], 0);
    var s, t := r.numServers, Share(r);
    if Count(r.nodes, x) <= 1 {
      TotalAtMost(r.nodeIDs, r.nodes, 1, x);
      ShareLeavesTwo(r.numSectors, s, t, moved);
    }
  }

  lemma ShareLeavesTwo(sectors: nat, servers: nat, share: nat, moved: nat)
    requires share == sectors / (servers + 1) && moved < share
    ensures sectors - moved > servers
  {
    assert share * (servers + 1) <= sectors;
    assert share * (servers + 1) == share * servers + share;
    assert share * servers >= servers;
  }

  lemma OwnsAfterMove(r: Ring, from: Str, to: Str, id: Str)
    requires from != to && Inverse(r) && SectorsOf(r.nodes, from) != []
    ensures SectorsOf(r.nodes, from)[0] in r.sectorMap
    ensures Owns(MoveFrom(r, from, to).nodes, MoveFrom(r, from, to).sectorMap, id)
  {
    var list := SectorsOf(r.nodes, from);
    assert Owns(r.nodes, r.sectorMap, from) && Owns(r.nodes, r.sectorMap, to) && Owns(r.nodes, r.sectorMap, id);
    assert list == [list[0]] + list[1..];
    assert list[0] in list;
  }

  lemma InverseAfterMove(r: Ring, from: Str, to: Str)
    requires from != to && Inverse(r) && SectorsOf(r.nodes, from) != []
    ensures Inverse(MoveFrom(r, from, to))
  {
    hide Owns;
    OwnsAfterMove(r, from, to, from);
    var q := MoveFrom(r, from, to);
    forall id: Str ensures Owns(q.nodes, q.sectorMap, id) { OwnsAfterMove(r, from, to, id); }
  }

  lemma CountsAfterMove(r: Ring, from: Str, to: Str)
    requires from != to && SectorsOf(r.nodes, from) != []
    ensures Count(MoveFrom(r, from, to).nodes, from) == Count(r.nodes, from) - 1
    ensures Count(MoveFrom(r, from, to).nodes, to) == Count(r.nodes, to) + 1
    ensures forall id: Str | id != from && id != to :: Count(MoveFrom(r, from, to).nodes, id) == Count(r.nodes, id)
    ensures MoveFrom(r, from, to).nodes.Keys == r.nodes.Keys + {from, to}
  {
  }

  lemma TotalAfterMove(r: Ring, from: Str, to: Str)
    requires SectorsOf(r.nodes, from) != [] && Distinct(r.nodeIDs) && from in r.nodeIDs && to !in r.nodeIDs
    ensures Total(r.nodeIDs, MoveFrom(r, from, to).nodes) == Total(r.nodeIDs, r.nodes) - 1
  {
    var list := SectorsOf(r.nodes, from);
    var mid := r.nodes[from := list[1..]];
    TotalUpdate(r.nodeIDs, r.nodes, from, list[1..]);
    TotalUpdate(r.nodeIDs, mid, to, SectorsOf(mid, to) + [list[0]]);
  }

  /** The same ring but for who owns what. */
  predicate SameServers(r: Ring, q: Ring) {
    r.nodeIDs == q.nodeIDs && r.numServers == q.numServers && r.numSectors == q.numSectors && r.numReplicas == q.numReplicas
  }

  lemma MoveFromKeeps(r: Ring, from: Str, to: Str, moved: nat)
    requires Moving(r, to, moved) && from in r.nodeIDs && Count(r.nodes, from) >= 2
    requires forall id | id in r.nodeIDs :: Count(r.nodes, id) <= Count(r.nodes, from)
    ensures Moving(MoveFrom(r, from, to), to, moved + 1) && SameServers(r, MoveFrom(r, from, to))
    ensures Balanced(r.nodeIDs, r.nodes) ==> Balanced(r.nodeIDs, MoveFrom(r, from, to).nodes)
  {
    InverseAfterMove(r, from, to);
    CountsAfterMove(r, from, to);
    TotalAfterMove(r, from, to);
    var q := MoveFrom(r, from, to);
    assert SameServers(r, q);
    assert from in Elements(r.nodeIDs);
    hide MoveFrom, Inverse, Total, Distinct, Count;
  }

  lemma MoveKeeps(r: Ring, to: Str, moved: nat)
    requires Moving(r, to, moved) && moved < Share(r)
    ensures Moving(MoveOne(r, to), to, moved + 1) && SameServers(r, MoveOne(r, to))
    ensures Balanced(r.nodeIDs, r.nodes) ==> Balanced(r.nodeIDs, MoveOne(r, to).nodes)
  {
    RichestIsMax(r.nodeIDs, r.nodes, [], 0);
    RichestCanSpare(r, to, moved);
    MoveFromKeeps(r, Richest(r.nodeIDs, r.nodes), to, moved);
  }

  lemma {:induction false} MoveManyKeeps(r: Ring, to: Str, n: nat) returns (m: Ring)
    requires Moving(r, to, 0) && n <= Share(r)
    ensures m == MoveMany(r, to, n) && Moving(m, to, n) && SameServers(r, m)
    ensures Balanced(r.nodeIDs, r.nodes) ==> Balanced(m.nodeIDs, m.nodes)
  {
    hide Moving, Balanced, MoveOne;
    m := r;
    if n > 0 {
      var p := MoveManyKeeps(r, to, n - 1);
      MoveKeeps(p, to, n - 1);
      m := MoveOne(p, to);
    }
  }

  lemma StartMoving(r: Ring, id: Str)
    requires Valid(r) && id != [] && id !in r.nodes
    ensures Moving(r, id, 0)
  {
    assert id !in Elements(r.nodeIDs);
    forall x | x in r.nodeIDs ensures Count(r.nodes, x) >= 1 { assert x in Elements(r.nodeIDs); }
  }

  function Joined(m: Ring, id: Str): Ring {
    m.(nodeIDs := m.nodeIDs + [id], numServers := m.numServers + 1)
  }

  lemma FinishMoving(m: Ring, id: Str, n: nat)
    requires Moving(m, id, n)
    ensures Valid(Joined(m, id)) <==> n > 0
  {
    var q := Joined(m, id);
    assert Elements(q.nodeIDs) == Elements(m.nodeIDs) + {id};
    if n == 0 {
      assert id in Elements(q.nodeIDs) && id !in Elements(m.nodeIDs);
    } else {
      TotalAppend(m.nodeIDs, m.nodes, id);
      hide Owns, Total;
      forall x | x in q.nodes ensures q.nodes[x] != [] { assert x in m.nodeIDs || x == id; }
    }
  }

  /** AddNode keeps a valid ring valid exactly when there is a sector for every server. */
  lemma AddedIsValid(r: Ring, id: Str)
    requires Valid(r) && id != []
    ensures Valid(Added(r, id)) <==> id in r.nodes || r.numSectors >= r.numServers + 1
  {
    if id !in r.nodes {
      StartMoving(r, id);
      ShareBounds(r.numSectors, r.numServers);
      AddedWhenNew(r, id);
    }
  }

  lemma AddedWhenNew(r: Ring, id: Str)
    requires Moving(r, id, 0) && id !in r.nodes && r.numServers >= 1
    ensures Valid(Added(r, id)) <==> Share(r) > 0
  {
    hide Moving, Valid, Balanced, MoveMany;
    var m := MoveManyKeeps(r, id, Share(r));
    FinishMoving(m, id, Share(r));
  }

  lemma ShareBounds(sectors: nat, servers: nat)
    ensures sectors / (servers + 1) >= 1 <==> sectors >= servers + 1
  {
  }

  lemma {:induction false} TotalAppend(ids: seq<Str>, nodes: map<Str, seq<nat>>, id: Str)
    ensures Total(ids + [id], nodes) == Total(ids, nodes) + Count(nodes, id)
  {
    if ids == [] {
      assert ids + [id] == [id];
    } else {
      assert (ids + [id])[1..] == ids[1..] + [id];
      TotalAppend(ids[1..], nodes, id);
    }
  }

  /** AddNode keeps sector counts within one of each other. */
  lemma AddedIsBalanced(r: Ring, id: Str)
    requires Valid(r) && id != [] && Balanced(r.nodeIDs, r.nodes)
    ensures Balanced(Added(r, id).nodeIDs, Added(r, id).nodes)
  {
    if id !in r.nodes {
      StartMoving(r, id);
      hide Moving, MoveMany, Balanced;
      var m := MoveManyKeeps(r, id, Share(r));
      JoinedIsBalanced(m, id);
    }
  }

  lemma JoinedIsBalanced(m: Ring, id: Str)
    requires m.numServers >= 1 && Moving(m, id, Share(m)) && Balanced(m.nodeIDs, m.nodes)
    ensures Balanced(Joined(m, id).nodeIDs, m.nodes)
  {
    var t := Share(m);
    forall x | x in m.nodeIDs ensures t <= Count(m.nodes, x) <= t + 1 {
      CountsNearShare(m, t, x);
    }
    assert Count(m.nodes, id) == t;
    hide Moving, Count, Share;
  }

  lemma ShareArithmetic(sectors: nat, servers: nat, t: nat)
    requires t == sectors / (servers + 1)
    ensures servers * t <= sectors - t <= servers * (t + 1)
  {
    assert t * (servers + 1) <= sectors < (t + 1) * (servers + 1);
    assert t * (servers + 1) == servers * t + t;
    assert (t + 1) * (servers + 1) == servers * (t + 1) + t + 1;
  }

  /** What is left to the old servers is their share or one more. */
  lemma CountsNearShare(m: Ring, t: nat, x: Str)
    requires m.numServers == |m.nodeIDs| >= 1 && Total(m.nodeIDs, m.nodes) + t == m.numSectors
    requires t == m.numSectors / (m.numServers + 1) && Balanced(m.nodeIDs, m.nodes) && x in m.nodeIDs
    ensures t <= Count(m.nodes, x) <= t + 1
  {
    ShareArithmetic(m.numSectors, m.numServers, t);
    var c := Count(m.nodes, x);
    if c < t {
      TotalAtMost(m.nodeIDs, m.nodes, t, x);
    }
    if c > t + 1 {
      TotalAtLeast(m.nodeIDs, m.nodes, t + 1, x);
    }
  }
}
