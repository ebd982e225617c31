/** The initial ring, RemoveNode, and every run of membership changes (src/kvsrv/chr/ring.go:55-78, 172-196). */
module RingRuns {
  import opened Base
  import opened RingState

  // ----- the initial ring

  lemma DivUnique(n: nat, s: nat, q: nat, r: nat)
    requires s > 0 && n == s * q + r && r < s
    ensures n / s == q && n % s == r
  {
    var q', r' := n / s, n % s;
    assert n == s * q' + r';
    assert q' > q ==> s * q' >= s * (q + 1) == s * q + s;
    assert q' < q ==> s * q >= s * (q' + 1) == s * q' + s;
  }

  lemma DivStep(n: nat, s: nat)
    requires s > 0
    ensures if n % s == s - 1 then (n + 1) / s == n / s + 1 && (n + 1) % s == 0
            else (n + 1) / s == n / s && (n + 1) % s == n % s + 1
  {
    var q, r := n / s, n % s;
    assert n == s * q + r;
    if r == s - 1 {
      assert s * (q + 1) == s * q + s;
      DivUnique(n + 1, s, q + 1, 0);
    } else {
      DivUnique(n + 1, s, q, r + 1);
    }
  }

  /** After n sectors have been dealt to s servers, server j has its turn count. */
  function Turns(n: nat, s: nat, j: nat): nat
    requires s > 0
  {
    n / s + (if j < n % s then 1 else 0)
  }

  lemma TurnsStep(n: nat, s: nat, j: nat)
    requires s > 0 && j < s
    ensures Turns(n + 1, s, j) == Turns(n, s, j) + if n % s == j then 1 else 0
  {
    DivStep(n, s);
  }

  lemma {:induction false} DealtCounts(ids: seq<Str>, n: nat, j: nat)
    requires ids != [] && Distinct(ids) && j < |ids|
    ensures Count(Dealt(ids, n).0, ids[j]) == Turns(n, |ids|, j)
  {
    if n > 0 {
      DealtCounts(ids, n - 1, j);
      TurnsStep(n - 1, |ids|, j);
      hide Turns;
      var k := (n - 1) % |ids|;
      assert ids[k] == ids[j] <==> k == j;
    }
  }

  lemma {:induction false} DealtSectors(ids: seq<Str>, n: nat, s: nat)
    requires ids != []
    ensures s in Dealt(ids, n).1 <==> s < n
  {
    if n > 0 { DealtSectors(ids, n - 1, s); }
  }

  lemma {:induction false} DealtKeys(ids: seq<Str>, n: nat)
    requires ids != [] && Distinct(ids)
    ensures Dealt(ids, n).0.Keys == Elements(ids)
    ensures Total(ids, Dealt(ids, n).0) == n
  {
    if n == 0 {
      TotalEmpty(ids, Dealt(ids, 0).0);
    } else {
      DealtKeys(ids, n - 1);
      var d, id := Dealt(ids, n - 1), ids[(n - 1) % |ids|];
      assert id in Elements(ids);
      TotalUpdate(ids, d.0, id, SectorsOf(d.0, id) + [n - 1]);
    }
  }

  lemma {:induction false} DealtOwns(ids: seq<Str>, n: nat, x: Str)
    requires ids != []
    ensures Owns(Dealt(ids, n).0, Dealt(ids, n).1, x)
  {
    if n > 0 {
      DealtOwns(ids, n - 1, x);
      DealtSectors(ids, n - 1, n - 1);
      hide Owns;
      var d, id := Dealt(ids, n - 1), ids[(n - 1) % |ids|];
      GiveOwns(d.0, d.1, n - 1, id, x);
    }
  }

  lemma GiveOwns(nodes: map<Str, seq<nat>>, sectorMap: map<nat, Str>, s: nat, id: Str, x: Str)
    requires Owns(nodes, sectorMap, x) && s !in sectorMap
    ensures Owns(nodes[id := SectorsOf(nodes, id) + [s]], sectorMap[s := id], x)
  {
    assert s !in SectorsOf(nodes, x);
  }

  lemma {:induction false} TotalEmpty(ids: seq<Str>, nodes: map<Str, seq<nat>>)
    requires forall id | id in ids :: Count(nodes, id) == 0
    ensures Total(ids, nodes) == 0
  {
    if ids != [] { TotalEmpty(ids[1..], nodes); }
  }

  lemma DealtFairly(ids: seq<Str>, n: nat, id: Str)
    requires ids != [] && Distinct(ids) && id in ids
    ensures n / |ids| <= Count(Dealt(ids, n).0, id) <= n / |ids| + 1
  {
    var j :| 0 <= j < |ids| && ids[j] == id;
    DealtCounts(ids, n, j);
  }

  /** The server after the last one dealt to has nothing. */
  lemma DealtTooFew(numReplicas: nat, numSectors: nat, ids: seq<Str>)
    requires Distinct(ids) && numSectors < |ids|
    ensures !Valid(Make(numReplicas, numSectors, ids))
  {
    DealtCounts(ids, numSectors, numSectors);
    DivUnique(numSectors, |ids|, 0, numSectors);
    DealtKeys(ids, numSectors);
    assert ids[numSectors] in Elements(ids);
  }

  /** A ring is made balanced, and valid exactly when there is a sector for every server. */
  lemma MadeIsValid(numReplicas: nat, numSectors: nat, ids: seq<Str>)
    requires ids != [] && Distinct(ids) && [] !in ids
    ensures Valid(Make(numReplicas, numSectors, ids)) <==> numSectors >= |ids|
    ensures Balanced(ids, Make(numReplicas, numSectors, ids).nodes)
  {
    var r := Make(numReplicas, numSectors, ids);
    forall id | id in ids ensures numSectors / |ids| <= Count(r.nodes, id) <= numSectors / |ids| + 1 {
      DealtFairly(ids, numSectors, id);
    }
    if numSectors < |ids| {
      DealtTooFew(numReplicas, numSectors, ids);
    } else {
      DealtKeys(ids, numSectors);
      forall s: nat ensures s in r.sectorMap <==> s < numSectors { DealtSectors(ids, numSectors, s); }
      forall x: Str ensures Owns(r.nodes, r.sectorMap, x) { DealtOwns(ids, numSectors, x); }
      assert numSectors / |ids| >= 1 by { ShareBounds(numSectors, |ids| - 1); }
      forall id | id in r.nodes ensures r.nodes[id] != [] {
        assert id in Elements(ids);
        assert Count(r.nodes, id) >= 1;
      }
    }
  }

  // ----- RemoveNode

  lemma {:induction false} DeleteFirstKeeps(ids: seq<Str>, id: Str)
    requires Distinct(ids) && id in ids
    ensures |DeleteFirst(ids, id)| == |ids| - 1 && Distinct(DeleteFirst(ids, id))
    ensures forall x :: x in DeleteFirst(ids, id) <==> x in ids && x != id
  {
    assert ids == [ids[0]] + ids[1..];
    if ids[0] != id {
      DeleteFirstKeeps(ids[1..], id);
      var d := DeleteFirst(ids[1..], id);
      forall x | x in d ensures x != ids[0] {
        assert x in ids[1..];
        var k :| 0 <= k < |ids[1..]| && ids[1..][k] == x;
        assert ids[k + 1] == x;
      }
      DistinctCons(ids[0], d);
    }
  }

  lemma {:induction false} DeleteFirstTotal(ids: seq<Str>, id: Str, nodes: map<Str, seq<nat>>)
    requires Distinct(ids) && id in ids
    ensures Total(DeleteFirst(ids, id), nodes - {id}) == Total(ids, nodes) - Count(nodes, id)
  {
    assert ids == [ids[0]] + ids[1..];
    if ids[0] == id {
      TotalWithout(ids[1..], id, nodes);
    } else {
      DeleteFirstTotal(ids[1..], id, nodes);
      assert DeleteFirst(ids, id)[1..] == DeleteFirst(ids[1..], id);
    }
  }

  lemma {:induction false} TotalWithout(ids: seq<Str>, id: Str, nodes: map<Str, seq<nat>>)
    requires id !in ids
    ensures Total(ids, nodes - {id}) == Total(ids, nodes)
  {
    if ids != [] { TotalWithout(ids[1..], id, nodes); }
  }

  /** Between two steps of RemoveNode's loop: `pending` still maps to the server that left. */
  ghost predicate Orphaned(r: Ring, gone: Str, pending: seq<nat>) {
    && r.numServers == |r.nodeIDs| >= 1
    && Distinct(r.nodeIDs) && [] !in r.nodeIDs && gone !in r.nodes
    && Elements(r.nodeIDs) == r.nodes.Keys
    && (forall id | id in r.nodes :: r.nodes[id] != [])
    && (forall s: nat :: s in r.sectorMap <==> s < r.numSectors)
    && (forall id: Str | id != gone :: Owns(r.nodes, r.sectorMap, id))
    && Distinct(pending)
    && (forall s: nat :: s in pending <==> s in r.sectorMap && r.sectorMap[s] == gone)
    && Total(r.nodeIDs, r.nodes) + |pending| == r.numSectors
  }

  lemma GiveKeeps(r: Ring, gone: Str, pending: seq<nat>, id: Str)
    requires Orphaned(r, gone, pending) && pending != [] && id in r.nodeIDs
    ensures Orphaned(Give(r, pending[0], id), gone, pending[1..])
  {
    var q := Give(r, pending[0], id);
    assert id in Elements(r.nodeIDs);
    assert pending == [pending[0]] + pending[1..];
    assert pending[0] in pending;
    TotalUpdate(r.nodeIDs, r.nodes, id, SectorsOf(r.nodes, id) + [pending[0]]);
    hide Owns, Total;
    forall x: Str | x != gone ensures Owns(q.nodes, q.sectorMap, x) {
      RegiveOwns(r.nodes, r.sectorMap, pending[0], id, x);
    }
  }

  lemma RegiveOwns(nodes: map<Str, seq<nat>>, sectorMap: map<nat, Str>, s: nat, id: Str, x: Str)
    requires Owns(nodes, sectorMap, x) && s in sectorMap && sectorMap[s] != x
    ensures Owns(nodes[id := SectorsOf(nodes, id) + [s]], sectorMap[s := id], x)
  {
    assert s !in SectorsOf(nodes, x);
  }

  lemma {:induction false} RedistributedKeeps(r: Ring, gone: Str, orphans: seq<nat>, n: nat)
    requires Orphaned(r, gone, orphans) && n <= |orphans|
    ensures Orphaned(Redistributed(r, orphans, n), gone, orphans[n..])
    ensures Redistributed(r, orphans, n).nodeIDs == r.nodeIDs
  {
    if n > 0 {
      RedistributedKeeps(r, gone, orphans, n - 1);
      var p := Redistributed(r, orphans, n - 1);
      assert orphans[n - 1..][0] == orphans[n - 1] && orphans[n - 1..][1..] == orphans[n..];
      GiveKeeps(p, gone, orphans[n - 1..], r.nodeIDs[(n - 1) % |r.nodeIDs|]);
    }
  }

  lemma DropOwns(nodes: map<Str, seq<nat>>, sectorMap: map<nat, Str>, id: Str, x: Str)
    requires Owns(nodes, sectorMap, x) && x != id
    ensures Owns(nodes - {id}, sectorMap, x)
  {
    assert SectorsOf(nodes - {id}, x) == SectorsOf(nodes, x);
  }

  lemma DroppedIsOrphaned(r: Ring, id: Str)
    requires Valid(r) && r.numServers >= 2 && id in r.nodes
    ensures Orphaned(Dropped(r, id), id, r.nodes[id])
  {
    var q := Dropped(r, id);
    assert id in Elements(r.nodeIDs);
    DeleteFirstKeeps(r.nodeIDs, id);
    DeleteFirstTotal(r.nodeIDs, id, r.nodes);
    assert Elements(q.nodeIDs) == Elements(r.nodeIDs) - {id};
    assert Owns(r.nodes, r.sectorMap, id);
    hide Total, DeleteFirst;
    forall x: Str | x != id ensures Owns(q.nodes, q.sectorMap, x) {
      DropOwns(r.nodes, r.sectorMap, id, x);
    }
  }

  lemma OrphanedDone(r: Ring, gone: Str)
    requires Orphaned(r, gone, [])
    ensures Valid(r)
  {
    assert Owns(r.nodes, r.sectorMap, gone) by {
      assert forall s: nat | s in r.sectorMap && r.sectorMap[s] == gone :: s in [];
    }
  }

  /** Without another server left, the orphaned sectors have nowhere to go. */
  predicate CanRemove(r: Ring, id: Str) {
    id in r.nodes && r.nodes[id] != [] ==> |DeleteFirst(r.nodeIDs, id)| > 0
  }

  /** RemoveNode keeps a valid ring valid exactly when it removes a member. */
  lemma RemovedIsValid(r: Ring, id: Str)
    requires Valid(r) && r.numServers >= 2
    ensures CanRemove(r, id)
    ensures Valid(Removed(r, id)) <==> id in r.nodes
  {
    if id in r.nodes {
      assert id in Elements(r.nodeIDs);
      DeleteFirstKeeps(r.nodeIDs, id);
      var orphans := r.nodes[id];
      DroppedIsOrphaned(r, id);
      RedistributedKeeps(Dropped(r, id), id, orphans, |orphans|);
      assert orphans[|orphans|..] == [];
      OrphanedDone(Removed(r, id), id);
    } else {
      DeleteAbsent(r.nodeIDs, id);
    }
  }

  lemma {:induction false} DeleteAbsent(ids: seq<Str>, id: Str)
    requires id !in ids
    ensures DeleteFirst(ids, id) == ids
  {
    if ids != [] { DeleteAbsent(ids[1..], id); }
  }

  lemma GiveCounts(r: Ring, sector: nat, id: Str, x: Str)
    ensures Count(Give(r, sector, id).nodes, x) == Count(r.nodes, x) + if x == id then 1 else 0
  {
  }

  lemma {:induction false} RedistributedCounts(r: Ring, orphans: seq<nat>, n: nat, j: nat)
    requires Distinct(r.nodeIDs) && j < |r.nodeIDs| && n <= |orphans|
    ensures Count(Redistributed(r, orphans, n).nodes, r.nodeIDs[j]) == Count(r.nodes, r.nodeIDs[j]) + Turns(n, |r.nodeIDs|, j)
  {
    if n > 0 {
      hide Turns, Count, Give;
      RedistributedCounts(r, orphans, n - 1, j);
      TurnsStep(n - 1, |r.nodeIDs|, j);
      var k := (n - 1) % |r.nodeIDs|;
      assert r.nodeIDs[k] == r.nodeIDs[j] <==> k == j;
      GiveCounts(Redistributed(r, orphans, n - 1), orphans[n - 1], r.nodeIDs[k], r.nodeIDs[j]);
    }
  }

  /** Two of the remaining servers, in list order: the first has one sector more and is dealt one more. */
  predicate RicherGetsMore(r: Ring, id: Str, a: nat, b: nat)
    requires |DeleteFirst(r.nodeIDs, id)| > 0
  {
    var ids := DeleteFirst(r.nodeIDs, id);
    var extra := Count(r.nodes, id) % |ids|;
    a < |ids| && b < |ids| && Count(r.nodes, ids[a]) > Count(r.nodes, ids[b]) && a < extra <= b
  }

  lemma LeftCount(r: Ring, id: Str, j: nat)
    requires Valid(r) && r.numServers >= 2 && id in r.nodes && j < |DeleteFirst(r.nodeIDs, id)|
    ensures CanRemove(r, id)
    ensures var x := DeleteFirst(r.nodeIDs, id)[j];
      && x in r.nodeIDs && x != id
      && Count(Removed(r, id).nodes, x) == Count(r.nodes, x) + Turns(Count(r.nodes, id), |DeleteFirst(r.nodeIDs, id)|, j)
  {
    assert id in Elements(r.nodeIDs);
    DeleteFirstKeeps(r.nodeIDs, id);
    var q, orphans := Dropped(r, id), r.nodes[id];
    var x := q.nodeIDs[j];
    assert x in Elements(q.nodeIDs) && x in Elements(r.nodeIDs);
    RedistributedCounts(q, orphans, |orphans|, j);
    assert SectorsOf(q.nodes, x) == SectorsOf(r.nodes, x);
  }

  /** What a leave does to two servers whose counts were within one of each other. */
  lemma LeftPair(r: Ring, id: Str, a: nat, b: nat)
    requires Valid(r) && r.numServers >= 2 && id in r.nodes && Balanced(r.nodeIDs, r.nodes)
    requires a < |DeleteFirst(r.nodeIDs, id)| && b < |DeleteFirst(r.nodeIDs, id)|
    ensures CanRemove(r, id)
    ensures var ids, nodes := DeleteFirst(r.nodeIDs, id), Removed(r, id).nodes;
      && Count(nodes, ids[a]) <= Count(nodes, ids[b]) + 2
      && (RicherGetsMore(r, id, a, b) <==> Count(nodes, ids[a]) == Count(nodes, ids[b]) + 2)
  {
    hide Valid, Count, Removed, DeleteFirst;
    LeftCount(r, id, a);
    LeftCount(r, id, b);
  }

  lemma ByPosition(ids: seq<Str>, nodes: map<Str, seq<nat>>)
    requires forall a: nat, b: nat | a < |ids| && b < |ids| :: Count(nodes, ids[a]) <= Count(nodes, ids[b]) + 2
    ensures forall x, y | x in ids && y in ids :: Count(nodes, x) <= Count(nodes, y) + 2
    ensures Balanced(ids, nodes) <==> forall a: nat, b: nat | a < |ids| && b < |ids| :: Count(nodes, ids[a]) != Count(nodes, ids[b]) + 2
  {
    hide Count;
    if !Balanced(ids, nodes) {
      var x, y :| x in ids && y in ids && Count(nodes, x) > Count(nodes, y) + 1;
      var a: nat :| a < |ids| && ids[a] == x;
      var b: nat :| b < |ids| && ids[b] == y;
      assert Count(nodes, ids[a]) == Count(nodes, ids[b]) + 2;
    }
  }

  /**
   Leaving a balanced ring: counts then differ by at most two, and by at most one exactly when no server that had one
   sector more than another is also dealt one more than it.
   */
  lemma LeaveCounts(r: Ring, id: Str)
    requires Valid(r) && r.numServers >= 2 && id in r.nodes && Balanced(r.nodeIDs, r.nodes)
    ensures CanRemove(r, id) && |DeleteFirst(r.nodeIDs, id)| > 0
    ensures var ids, nodes := DeleteFirst(r.nodeIDs, id), Removed(r, id).nodes;
      && (forall x, y | x in ids && y in ids :: Count(nodes, x) <= Count(nodes, y) + 2)
      && (Balanced(ids, nodes) <==> forall a: nat, b: nat :: !RicherGetsMore(r, id, a, b))
  {
    hide Valid, Count, Removed, DeleteFirst, RicherGetsMore, Balanced, Inverse, Distinct, SectorsOf, Total;
    RemainingServers(r, id);
    var ids, nodes := DeleteFirst(r.nodeIDs, id), Removed(r, id).nodes;
    forall a: nat, b: nat | a < |ids| && b < |ids|
      ensures Count(nodes, ids[a]) <= Count(nodes, ids[b]) + 2
      ensures RicherGetsMore(r, id, a, b) <==> Count(nodes, ids[a]) == Count(nodes, ids[b]) + 2
    {
      LeftPair(r, id, a, b);
    }
    ByPosition(ids, nodes);
  }

  lemma RemainingServers(r: Ring, id: Str)
    requires Valid(r) && r.numServers >= 2 && id in r.nodes
    ensures CanRemove(r, id) && |DeleteFirst(r.nodeIDs, id)| > 0
    ensures forall a: nat, b: nat | RicherGetsMore(r, id, a, b) :: a < |DeleteFirst(r.nodeIDs, id)| && b < |DeleteFirst(r.nodeIDs, id)|
  {
    assert id in Elements(r.nodeIDs);
    DeleteFirstKeeps(r.nodeIDs, id);
  }

  // ----- runs

  datatype Change = Join(id: Str) | Leave(id: Str)

  /** Servers join while there are sectors to share, and members leave while another stays. */
  predicate Allowed(r: Ring, c: Change) {
    match c
    case Join(id) => id != [] && (id in r.nodes || r.numSectors >= r.numServers + 1)
    case Leave(id) => id in r.nodes && r.numServers >= 2
  }

  function Applied(r: Ring, c: Change): Ring {
    match c
    case Join(id) => if r.numServers >= 0 then Added(r, id) else r
    case Leave(id) => if CanRemove(r, id) then Removed(r, id) else r
  }

  predicate AllAllowed(r: Ring, run: seq<Change>)
    decreases run
  {
    run == [] || (Allowed(r, run[0]) && AllAllowed(Applied(r, run[0]), run[1..]))
  }

  function After(r: Ring, run: seq<Change>): Ring
    decreases run
  {
    if run == [] then r else After(Applied(r, run[0]), run[1..])
  }

  /** In every run from a valid ring, `nodes` stays the inverse of `sectorMap` and every server owns a sector. */
  lemma {:induction false} RunKeepsValid(r: Ring, run: seq<Change>)
    requires Valid(r) && AllAllowed(r, run)
    ensures Valid(After(r, run))
    decreases run
  {
    if run != [] {
      match run[0] {
        case Join(id) => AddedIsValid(r, id);
        case Leave(id) => RemovedIsValid(r, id);
      }
      RunKeepsValid(Applied(r, run[0]), run[1..]);
    }
  }

  predicate OnlyJoins(run: seq<Change>) {
    forall i | 0 <= i < |run| :: run[i].Join?
  }

  /** From a balanced ring, every run of joins leaves the counts within one of each other. */
  lemma {:induction false} JoinsKeepBalance(r: Ring, run: seq<Change>)
    requires Valid(r) && AllAllowed(r, run) && OnlyJoins(run) && Balanced(r.nodeIDs, r.nodes)
    ensures Balanced(After(r, run).nodeIDs, After(r, run).nodes)
    decreases run
  {
    if run != [] {
      AddedIsValid(r, run[0].id);
      AddedIsBalanced(r, run[0].id);
      JoinsKeepBalance(Applied(r, run[0]), run[1..]);
    }
  }
}
