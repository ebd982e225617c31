/** Key location, the preference-list walk, and the ring object (src/kvsrv/chr/ring.go). */
module HashRing {
  import opened Base
  import opened RingState
  import opened RingRuns

  type uint32 = x: nat | x < 0x1_0000_0000

  const BUCKETS: nat := 256

  /** GetLocation: sector and bucket of a key's hash, with the 64-bit product of the code. */
  function Location(numSectors: nat, hash: uint32): (nat, nat) {
    var position := (numSectors * BUCKETS * hash % 0x1_0000_0000_0000_0000) / 0x1_0000_0000;
    (position / BUCKETS, position % BUCKETS)
  }

  lemma ScaledBelow(total: nat, product: nat)
    requires total >= 1 && product <= total * 0xFFFF_FFFF
    ensures (product % 0x1_0000_0000_0000_0000) / 0x1_0000_0000 < total
  {
    if total <= 0x1_0000_0000 {
      assert product < 0x1_0000_0000_0000_0000;
    }
  }

  /** Every key has a sector and a bucket, even where the product wraps around. */
  lemma LocationInRange(numSectors: nat, hash: uint32)
    requires numSectors >= 1
    ensures Location(numSectors, hash).0 < numSectors && Location(numSectors, hash).1 < BUCKETS
  {
    var total := numSectors * BUCKETS;
    assert total * hash <= total * 0xFFFF_FFFF;
    ScaledBelow(total, total * hash);
  }

  /** The bucket's position on the whole ring: 256 buckets a sector. */
  function Position(place: (nat, nat)): nat { place.0 * BUCKETS + place.1 }

  /** A hash is placed in proportion: its position is the rounded-down share of the ring, of the product as 64 bits hold it. */
  lemma LocationIsShare(numSectors: nat, hash: uint32)
    requires numSectors >= 1
    ensures var p, product := Position(Location(numSectors, hash)), numSectors * BUCKETS * hash % 0x1_0000_0000_0000_0000;
      p * 0x1_0000_0000 <= product < (p + 1) * 0x1_0000_0000
    ensures numSectors * BUCKETS <= 0x1_0000_0000 ==>
      numSectors * BUCKETS * hash % 0x1_0000_0000_0000_0000 == numSectors * BUCKETS * hash
  {
    var product := numSectors * BUCKETS * hash % 0x1_0000_0000_0000_0000;
    if numSectors * BUCKETS <= 0x1_0000_0000 {
      assert numSectors * BUCKETS * hash <= 0x1_0000_0000 * hash;
    }
  }

  /** While the product fits, greater hashes are at the same place or further on. */
  lemma LocationMonotone(numSectors: nat, a: uint32, b: uint32)
    requires 1 <= numSectors && numSectors * BUCKETS <= 0x1_0000_0000 && a <= b
    ensures Position(Location(numSectors, a)) <= Position(Location(numSectors, b))
  {
    LocationIsShare(numSectors, a);
    LocationIsShare(numSectors, b);
    hide Location, Position;
    GreaterFactor(numSectors * BUCKETS, a, b);
    GreaterShare(Position(Location(numSectors, a)), Position(Location(numSectors, b)), numSectors * BUCKETS * a, numSectors * BUCKETS * b);
  }

  lemma GreaterFactor(n: nat, a: nat, b: nat)
    requires a <= b
    ensures n * a <= n * b
  {
  }

  lemma GreaterShare(p: nat, q: nat, x: nat, y: nat)
    requires p * 0x1_0000_0000 <= x <= y < (q + 1) * 0x1_0000_0000
    ensures p <= q
  {
  }

  /** And every bucket of every sector has a hash. */
  lemma LocationCovers(numSectors: nat, place: (nat, nat)) returns (hash: uint32)
    requires 1 <= numSectors && numSectors * BUCKETS <= 0x1_0000_0000 && place.0 < numSectors && place.1 < BUCKETS
    ensures Location(numSectors, hash) == place
  {
    var p := Position(place);
    assert p < numSectors * BUCKETS;
    hash := FirstHash(numSectors * BUCKETS, p);
    LocationIsShare(numSectors, hash);
    LocationInRange(numSectors, hash);
    SamePosition(Location(numSectors, hash), place) by { hide Location, Position; assert Position(Location(numSectors, hash)) == p; }
  }

  lemma SamePosition(a: (nat, nat), b: (nat, nat))
    requires a.1 < BUCKETS && b.1 < BUCKETS && Position(a) == Position(b)
    ensures a == b
  {
  }

  lemma SmallerFactor(n: nat, a: nat, b: nat)
    requires n * a < n * b
    ensures a < b
  {
  }

  lemma FirstHash(total: nat, p: nat) returns (hash: uint32)
    requires p < total <= 0x1_0000_0000
    ensures p * 0x1_0000_0000 <= total * hash < (p + 1) * 0x1_0000_0000
  {
    var h := (p * 0x1_0000_0000 + total - 1) / total;
    assert total * h <= p * 0x1_0000_0000 + total - 1 < total * h + total;
    assert (p + 1) * 0x1_0000_0000 <= total * 0x1_0000_0000;
    SmallerFactor(total, h, 0x1_0000_0000);
    hash := h;
  }

  // ----- the clockwise walk

  /** The i-th sector clockwise of s, within one lap. */
  function Clockwise(s: nat, i: nat, q: nat): nat
    requires s < q && i <= q
  {
    if s + i < q then s + i else s + i - q
  }

  lemma ClockwiseIsModulo(s: nat, i: nat, q: nat)
    requires s < q && i <= q
    ensures Clockwise(s, i, q) == (s + i) % q
  {
    if s + i < q { DivUnique(s + i, q, 0, s + i); } else { DivUnique(s + i, q, 1, s + i - q); }
  }

  function NextSector(s: nat, q: nat): nat
    requires q > 0
  {
    (s + 1) % q
  }

  lemma NextClockwise(s: nat, i: nat, q: nat)
    requires s < q && i < q
    ensures NextSector(Clockwise(s, i, q), q) == Clockwise(s, i + 1, q)
  {
    var x := Clockwise(s, i, q);
    if x + 1 == q { DivUnique(x + 1, q, 1, 0); } else { DivUnique(x + 1, q, 0, x + 1); }
  }

  function Owner(r: Ring, s: nat): Str { if s in r.sectorMap then r.sectorMap[s] else [] }

  /** The owners of n consecutive sectors from s on. */
  function Walk(r: Ring, s: nat, n: nat): seq<Str>
    requires s < r.numSectors && n <= r.numSectors
  {
    seq(n, i requires 0 <= i < n => Owner(r, Clockwise(s, i, r.numSectors)))
  }

  /** First occurrences, in order. */
  function Dedup(xs: seq<Str>): seq<Str> {
    if xs == [] then []
    else
      var d := Dedup(xs[..|xs| - 1]);
      if xs[|xs| - 1] in d then d else d + [xs[|xs| - 1]]
  }

  function Want(r: Ring): int {
    if r.numReplicas > r.numServers then r.numServers else r.numReplicas
  }

  function Take(xs: seq<Str>, n: int): seq<Str> {
    if 0 <= n <= |xs| then xs[..n] else xs
  }

  /** The distinct owners met clockwise from the sector on, as many as there are replicas. */
  function PreferenceList(r: Ring, s: nat): seq<Str>
    requires s < r.numSectors
  {
    Take(Dedup(Walk(r, s, r.numSectors)), Want(r))
  }

  lemma {:induction false} DedupKeeps(xs: seq<Str>)
    ensures Distinct(Dedup(xs)) && Elements(Dedup(xs)) == Elements(xs)
    ensures xs != [] ==> Dedup(xs) != [] && Dedup(xs)[0] == xs[0]
  {
    if xs != [] {
      var n := |xs| - 1;
      DedupKeeps(xs[..n]);
      assert xs == xs[..n] + [xs[n]];
      assert forall x :: x in Dedup(xs[..n]) <==> x in Elements(Dedup(xs[..n]));
      assert forall x :: x in xs[..n] <==> x in Elements(xs[..n]);
    }
  }

  lemma {:induction false} DedupPrefix(xs: seq<Str>, n: nat)
    requires n <= |xs|
    ensures Dedup(xs[..n]) <= Dedup(xs)
  {
    if n < |xs| {
      DedupPrefix(xs[..|xs| - 1], n);
      assert xs[..|xs| - 1][..n] == xs[..n];
    } else {
      assert xs[..n] == xs;
    }
  }

  lemma DedupStep(xs: seq<Str>, i: nat)
    requires i < |xs|
    ensures Dedup(xs[..i + 1]) == if xs[i] in Dedup(xs[..i]) then Dedup(xs[..i]) else Dedup(xs[..i]) + [xs[i]]
  {
    assert xs[..i + 1][..i] == xs[..i];
  }

  /** One lap meets every server. */
  lemma LapMeetsAll(r: Ring, s: nat)
    requires Valid(r) && s < r.numSectors
    ensures Elements(Walk(r, s, r.numSectors)) == Elements(r.nodeIDs)
    ensures |Dedup(Walk(r, s, r.numSectors))| == r.numServers
  {
    var w := Walk(r, s, r.numSectors);
    forall x | x in w ensures x in r.nodeIDs {
      var i :| 0 <= i < |w| && w[i] == x;
      var t := Clockwise(s, i, r.numSectors);
      assert Owns(r.nodes, r.sectorMap, x);
      assert t in SectorsOf(r.nodes, x);
      assert x in Elements(r.nodeIDs);
    }
    forall x | x in r.nodeIDs ensures x in w {
      assert x in Elements(r.nodeIDs) && Owns(r.nodes, r.sectorMap, x);
      var t := r.nodes[x][0];
      assert t in r.nodes[x];
      var i := if t >= s then t - s else t + r.numSectors - s;
      assert w[i] == x;
    }
    DedupKeeps(w);
    DistinctCount(Dedup(w));
    DistinctCount(r.nodeIDs);
  }

  /** The preference list has min(N, servers) distinct servers, the sector's owner first. */
  lemma PreferenceListShape(r: Ring, s: nat)
    requires Valid(r) && s < r.numSectors
    ensures |PreferenceList(r, s)| == Want(r) && Distinct(PreferenceList(r, s))
    ensures forall x | x in PreferenceList(r, s) :: x in r.nodeIDs
    ensures r.numReplicas >= 1 ==> PreferenceList(r, s)[0] == Owner(r, s)
  {
    var w := Walk(r, s, r.numSectors);
    LapMeetsAll(r, s);
    DedupKeeps(w);
    assert w[0] == Owner(r, s);
    forall x | x in PreferenceList(r, s) ensures x in r.nodeIDs {
      assert x in Elements(Dedup(w));
      assert x in Elements(r.nodeIDs);
    }
  }

  class ConsistentHashRing {
    const numReplicas: nat
    const numSectors: nat
    var numServers: int
    var nodeIDs: seq<Str>
    var nodes: map<Str, seq<nat>>
    var sectorMap: map<nat, Str>

    ghost function State(): Ring
      reads this
    {
      Ring(numReplicas, numSectors, numServers, nodeIDs, nodes, sectorMap)
    }

    /** MakeConsistentHashRing. */
    constructor (numReplicas: nat, numSectors: nat, ids: seq<Str>)
      requires numSectors > 0 ==> ids != []
      ensures State() == Make(numReplicas, numSectors, ids)
    {
      this.numReplicas := numReplicas;
      this.numSectors := numSectors;
      numServers := |ids|;
      nodeIDs := ids;
      nodes := map id | id in ids :: [];
      sectorMap := map[];
      new;
      for i := 0 to numSectors
        invariant numServers == |ids| && nodeIDs == ids
        invariant (nodes, sectorMap) == Dealt(ids, i)
      {
        var cur := nodeIDs[i % numServers];
        nodes := nodes[cur := SectorsOf(nodes, cur) + [i]];
        sectorMap := sectorMap[i := cur];
      }
    }

    /** Counts the sectors of each node in list order and keeps the first with the most. */
    method GetRichestNode() returns (richest: Str)
      ensures richest == Richest(nodeIDs, nodes)
    {
      richest := [];
      var maxSectors := 0;
      for i := 0 to |nodeIDs|
        invariant RichestFrom(nodeIDs[i..], nodes, richest, maxSectors) == Richest(nodeIDs, nodes)
      {
        assert nodeIDs[i..][0] == nodeIDs[i] && nodeIDs[i..][1..] == nodeIDs[i + 1..];
        if richest == [] || Count(nodes, nodeIDs[i]) > maxSectors {
          richest := nodeIDs[i];
          maxSectors := Count(nodes, nodeIDs[i]);
        }
      }
    }

    method TakeSectorFrom(id: Str) returns (sector: nat)
      requires SectorsOf(nodes, id) != []
      modifies this`nodes
      ensures [sector] + SectorsOf(nodes, id) == old(SectorsOf(nodes, id))
      ensures nodes == old(nodes)[id := SectorsOf(nodes, id)]
    {
      sector := SectorsOf(nodes, id)[0];
      nodes := nodes[id := SectorsOf(nodes, id)[1..]];
    }

    /** One round of AddNode's loop. */
    method MoveSector(id: Str)
      requires SectorsOf(nodes, Richest(nodeIDs, nodes)) != []
      modifies this`nodes, this`sectorMap
      ensures State() == MoveOne(old(State()), id)
    {
      var richest := GetRichestNode();
      var sector := TakeSectorFrom(richest);
      nodes := nodes[id := SectorsOf(nodes, id) + [sector]];
      sectorMap := sectorMap[sector := id];
    }

    /** AddNode: on a valid ring no take ever meets an empty node. */
    method AddNode(id: Str)
      requires Valid(State()) && id != []
      modifies this
      ensures State() == Added(old(State()), id)
      ensures Valid(State()) <==> id in old(nodes) || numSectors >= old(numServers) + 1
      ensures Balanced(old(nodeIDs), old(nodes)) ==> Balanced(nodeIDs, nodes)
    {
      ghost var r := State();
      AddedIsValid(r, id);
      if Balanced(nodeIDs, nodes) { AddedIsBalanced(r, id); }
      if id in nodes { return; }
      StartMoving(r, id);
      MoveSectors(id);
      nodeIDs := nodeIDs + [id];
      numServers := numServers + 1;
    }

    method MoveSectors(id: Str)
      requires Moving(State(), id, 0) && numServers >= 0
      modifies this`nodes, this`sectorMap
      ensures State() == MoveMany(old(State()), id, Share(old(State())))
    {
      hide Moving, Balanced, MoveOne;
      ghost var r := State();
      var target := numSectors / (numServers + 1);
      for cur := 0 to target
        invariant State() == MoveMany(r, id, cur)
      {
        ghost var m := MoveManyKeeps(r, id, cur);
        RichestCanSpare(m, id, cur);
        MoveSector(id);
      }
    }

    method DeleteID(id: Str)
      modifies this`nodeIDs
      ensures nodeIDs == DeleteFirst(old(nodeIDs), id)
    {
      for i := 0 to |nodeIDs|
        invariant nodeIDs == old(nodeIDs)
        invariant nodeIDs[..i] + DeleteFirst(nodeIDs[i..], id) == DeleteFirst(nodeIDs, id)
      {
        DeleteFirstStep(nodeIDs, i, id);
        if nodeIDs[i] == id {
          nodeIDs := nodeIDs[..i] + nodeIDs[i + 1..];
          return;
        }
      }
    }

    /** RemoveNode, of a member or not. */
    method RemoveNode(id: Str)
      requires Valid(State()) && numServers >= 2
      modifies this
      ensures CanRemove(old(State()), id) && State() == Removed(old(State()), id)
      ensures Valid(State()) <==> id in old(nodes)
    {
      ghost var r := State();
      RemovedIsValid(r, id);
      var orphans := SectorsOf(nodes, id);
      nodes := nodes - {id};
      DeleteID(id);
      numServers := numServers - 1;
      if id in r.nodes { DroppedIsOrphaned(r, id); }
      ghost var d := State();
      for i := 0 to |orphans|
        invariant State() == Redistributed(d, orphans, i) && nodeIDs == d.nodeIDs && numServers == d.numServers
        invariant id in r.nodes ==> numServers == |nodeIDs| >= 1
      {
        var cur := nodeIDs[i % numServers];
        nodes := nodes[cur := SectorsOf(nodes, cur) + [orphans[i]]];
        sectorMap := sectorMap[orphans[i] := cur];
      }
    }

    /** GetNeighbors: terminates within one lap of a valid ring. */
    method GetNeighbors(sectorID: nat) returns (names: seq<Str>, sectors: seq<nat>)
      requires Valid(State()) && sectorID < numSectors
      ensures names == PreferenceList(State(), sectorID)
      ensures exists steps :: Met(State(), sectorID, steps, sectors, names)
    {
      ghost var r := State();
      assert r.numReplicas == numReplicas && r.numSectors == numSectors && r.numServers == numServers && r.sectorMap == sectorMap;
      hide *;
      SetOut(r, sectorID);
      var target := if numReplicas > numServers then numServers else numReplicas;
      assert target == Want(r) by { WantIs(r); }
      names, sectors := [], [];
      var cur: nat := sectorID;
      ghost var i := 0;
      ghost var steps: seq<nat> := [];
      while |names| < target
        invariant i <= numSectors && cur == Clockwise(sectorID, i, numSectors)
        invariant |names| <= target && Going(r, sectorID, i, steps, sectors, names)
        decreases numSectors - i
      {
        GoOn(r, sectorID, i, steps, sectors, names);
        if sectorMap[cur] !in names {
          names := names + [sectorMap[cur]];
          sectors := sectors + [cur];
          steps := steps + [i];
        }
        cur := NextSector(cur, numSectors);
        i := i + 1;
      }
      Arrived(r, sectorID, i, steps, sectors, names);
    }
  }

  lemma DeleteFirstStep(ids: seq<Str>, i: nat, id: Str)
    requires i < |ids|
    ensures ids[..i] + DeleteFirst(ids[i..], id) == if ids[i] == id then ids[..i] + ids[i + 1..] else ids[..i + 1] + DeleteFirst(ids[i + 1..], id)
  {
    assert ids[i..][0] == ids[i] && ids[i..][1..] == ids[i + 1..];
    assert ids[..i + 1] == ids[..i] + [ids[i]];
  }

  /** The owner of the sector i steps on. */
  function OwnerAt(r: Ring, start: nat, i: nat): Str
    requires r.numSectors > 0
  {
    Owner(r, (start + i) % r.numSectors)
  }

  /**
   Going up from the start one sector at a time, modulo their number, each name is met at its sector after so many steps;
   the steps increase, and what is passed on the way to a name belongs to names met before it.
   */
  predicate Met(r: Ring, start: nat, steps: seq<nat>, sectors: seq<nat>, names: seq<Str>) {
    && r.numSectors > 0 && |steps| == |sectors| == |names|
    && (forall k | 0 <= k < |names| ::
          steps[k] < r.numSectors && sectors[k] == (start + steps[k]) % r.numSectors && Owner(r, sectors[k]) == names[k])
    && (forall k, l | 0 <= k < l < |names| :: steps[k] < steps[l])
    && forall k, i: nat | 0 <= k < |names| && i < steps[k] :: OwnerAt(r, start, i) in names[..k]
  }

  /** The walk is i steps on, and all it has passed belongs to the names. */
  predicate Passed(r: Ring, start: nat, i: nat, steps: seq<nat>, names: seq<Str>) {
    && r.numSectors > 0 && (forall k | 0 <= k < |steps| :: steps[k] < i)
    && forall j: nat | j < i :: OwnerAt(r, start, j) in names
  }

  lemma MetNext(r: Ring, start: nat, steps: seq<nat>, sectors: seq<nat>, names: seq<Str>, i: nat)
    requires start < r.numSectors && i < r.numSectors && Met(r, start, steps, sectors, names) && Passed(r, start, i, steps, names)
    requires Clockwise(start, i, r.numSectors) in r.sectorMap
    ensures var cur := Clockwise(start, i, r.numSectors); var name := r.sectorMap[cur];
      if name in names then Passed(r, start, i + 1, steps, names)
      else Met(r, start, steps + [i], sectors + [cur], names + [name]) && Passed(r, start, i + 1, steps + [i], names + [name])
  {
    ClockwiseIsModulo(start, i, r.numSectors);
    var cur := Clockwise(start, i, r.numSectors);
    var name := r.sectorMap[cur];
    assert OwnerAt(r, start, i) == name;
    hide OwnerAt;
    if name !in names {
      var names' := names + [name];
      assert forall k | 0 <= k <= |names| :: names'[..k] == names[..k];
      assert names[..|names|] == names;
    }
  }

  /** The walk is i steps on, and the names are those of the first i owners. */
  predicate Going(r: Ring, start: nat, i: nat, steps: seq<nat>, sectors: seq<nat>, names: seq<Str>) {
    && start < r.numSectors && i <= r.numSectors && names == Dedup(Walk(r, start, r.numSectors)[..i])
    && Met(r, start, steps, sectors, names) && Passed(r, start, i, steps, names)
  }

  lemma SetOut(r: Ring, start: nat)
    requires Valid(r) && start < r.numSectors
    ensures Going(r, start, 0, [], [], []) && Clockwise(start, 0, r.numSectors) == start && 0 <= Want(r)
  {
    LapFacts(r, start);
  }

  lemma GoOn(r: Ring, start: nat, i: nat, steps: seq<nat>, sectors: seq<nat>, names: seq<Str>)
    requires Valid(r) && Going(r, start, i, steps, sectors, names) && |names| < Want(r)
    ensures i < r.numSectors
    ensures var cur := Clockwise(start, i, r.numSectors);
      && cur in r.sectorMap && NextSector(cur, r.numSectors) == Clockwise(start, i + 1, r.numSectors)
      && if r.sectorMap[cur] in names then Going(r, start, i + 1, steps, sectors, names)
         else Going(r, start, i + 1, steps + [i], sectors + [cur], names + [r.sectorMap[cur]])
  {
    LapFacts(r, start);
    assert Want(r) <= r.numServers;
    hide Valid, Want, Dedup, Walk, Met, Passed, NextSector;
    WalkStep(r, start, i);
    MetNext(r, start, steps, sectors, names, i);
  }

  lemma Arrived(r: Ring, start: nat, i: nat, steps: seq<nat>, sectors: seq<nat>, names: seq<Str>)
    requires Valid(r) && Going(r, start, i, steps, sectors, names) && |names| == Want(r)
    ensures names == PreferenceList(r, start) && Met(r, start, steps, sectors, names)
  {
    hide Valid, Want, Met, Passed, PreferenceList;
    WalkDone(r, start, i);
  }

  /** The preference list is what that walk meets, up to the list's length. */
  lemma PreferenceListIsMet(r: Ring, start: nat) returns (steps: seq<nat>, sectors: seq<nat>)
    requires Valid(r) && start < r.numSectors
    ensures Met(r, start, steps, sectors, PreferenceList(r, start)) && |PreferenceList(r, start)| == Want(r)
  {
    PreferenceListShape(r, start);
    hide *;
    SetOut(r, start);
    var i, names: seq<Str> := 0, [];
    steps, sectors := [], [];
    while |names| < Want(r)
      invariant i <= r.numSectors && |names| <= Want(r) && Going(r, start, i, steps, sectors, names)
      decreases r.numSectors - i
    {
      GoOn(r, start, i, steps, sectors, names);
      var cur := Clockwise(start, i, r.numSectors);
      if r.sectorMap[cur] !in names {
        steps, sectors, names := steps + [i], sectors + [cur], names + [r.sectorMap[cur]];
      }
      i := i + 1;
    }
    Arrived(r, start, i, steps, sectors, names);
  }

  lemma WantIs(r: Ring)
    ensures Want(r) == if r.numReplicas > r.numServers then r.numServers else r.numReplicas
  {
  }

  lemma LapFacts(r: Ring, s: nat)
    requires Valid(r) && s < r.numSectors
    ensures r.numServers >= 1 && |Walk(r, s, r.numSectors)| == r.numSectors
    ensures Clockwise(s, 0, r.numSectors) == s && Dedup(Walk(r, s, r.numSectors)[..0]) == []
    ensures |Dedup(Walk(r, s, r.numSectors)[..r.numSectors])| == r.numServers
  {
    LapMeetsAll(r, s);
    assert Walk(r, s, r.numSectors)[..r.numSectors] == Walk(r, s, r.numSectors);
  }

  lemma WalkStep(r: Ring, s: nat, i: nat)
    requires Valid(r) && s < r.numSectors && i < r.numSectors
    ensures var lap, cur := Walk(r, s, r.numSectors), Clockwise(s, i, r.numSectors);
      && |lap| == r.numSectors && cur in r.sectorMap
      && Dedup(lap[..i + 1]) == (if r.sectorMap[cur] in Dedup(lap[..i]) then Dedup(lap[..i]) else Dedup(lap[..i]) + [r.sectorMap[cur]])
      && NextSector(cur, r.numSectors) == Clockwise(s, i + 1, r.numSectors)
  {
    NextClockwise(s, i, r.numSectors);
    DedupStep(Walk(r, s, r.numSectors), i);
  }

  lemma WalkDone(r: Ring, s: nat, i: nat)
    requires Valid(r) && s < r.numSectors && i <= r.numSectors
    requires |Dedup(Walk(r, s, r.numSectors)[..i])| == Want(r)
    ensures Dedup(Walk(r, s, r.numSectors)[..i]) == PreferenceList(r, s)
  {
    LapMeetsAll(r, s);
    DedupPrefix(Walk(r, s, r.numSectors), i);
  }
}
