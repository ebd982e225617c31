/** How little a change of servers moves (src/kvsrv/chr/ring.go:129-187): the promise of consistent hashing, sector by sector. */
module RingMoves {
  import opened Base
  import opened RingState
  import opened RingRuns

  /** No sector changes hands except to this server. */
  predicate OnlyTo(r: Ring, q: Ring, to: Str) {
    forall t | t in r.sectorMap :: t in q.sectorMap && (q.sectorMap[t] == r.sectorMap[t] || q.sectorMap[t] == to)
  }

  lemma {:induction false} MoveManyOnlyTo(r: Ring, to: Str, n: nat)
    ensures OnlyTo(r, MoveMany(r, to, n), to)
  {
    if n > 0 {
      MoveManyOnlyTo(r, to, n - 1);
      hide Richest;
    }
  }

  /** The sectors a server owns, as positions on the ring. */
  function Owned(r: Ring, id: Str): set<nat> { set t | t in r.sectorMap && r.sectorMap[t] == id }

  lemma OwnedCount(r: Ring, id: Str)
    requires Owns(r.nodes, r.sectorMap, id)
    ensures |Owned(r, id)| == Count(r.nodes, id)
  {
    DistinctCount(SectorsOf(r.nodes, id));
    assert Elements(SectorsOf(r.nodes, id)) == Owned(r, id);
  }

  /** A join moves exactly a share of the sectors, all of them to the new server; every other sector keeps its owner. */
  lemma JoinMovesShare(r: Ring, id: Str)
    requires Valid(r) && id != [] && id !in r.nodes
    ensures var q := Added(r, id);
      && OnlyTo(r, q, id) && q.sectorMap.Keys == r.sectorMap.Keys
      && |Owned(q, id)| == r.numSectors / (r.numServers + 1)
      && forall t | t in r.sectorMap :: q.sectorMap[t] != r.sectorMap[t] <==> t in Owned(q, id)
  {
    NewcomerOwnsNothing(r, id);
    StartMoving(r, id);
    hide Valid, MoveMany, Moving, Owns;
    var m := MoveManyKeeps(r, id, Share(r));
    MoveManyOnlyTo(r, id, Share(r));
    MovedCount(m, id, Share(r));
    SameSectors(r, m, id, Share(r));
  }

  lemma NewcomerOwnsNothing(r: Ring, id: Str)
    requires Valid(r) && id !in r.nodes
    ensures forall t | t in r.sectorMap :: r.sectorMap[t] != id
  {
    assert Owns(r.nodes, r.sectorMap, id);
  }

  lemma SameSectors(r: Ring, m: Ring, id: Str, n: nat)
    requires Valid(r) && Moving(m, id, n) && SameServers(r, m)
    ensures m.sectorMap.Keys == r.sectorMap.Keys
  {
    hide Owns, Total;
  }

  lemma MovedCount(m: Ring, id: Str, n: nat)
    requires Moving(m, id, n)
    ensures |Owned(m, id)| == n
  {
    OwnedCount(m, id);
  }

  /** A leave moves exactly the sectors of the server that left, each to a server that stays. */
  lemma LeaveMovesOrphans(r: Ring, id: Str)
    requires Valid(r) && r.numServers >= 2 && id in r.nodes
    ensures CanRemove(r, id) && Removed(r, id).sectorMap.Keys == r.sectorMap.Keys
    ensures forall t | t in r.sectorMap :: Removed(r, id).sectorMap[t] != r.sectorMap[t] <==> r.sectorMap[t] == id
    ensures forall t | t in r.sectorMap :: Removed(r, id).sectorMap[t] in r.nodeIDs && Removed(r, id).sectorMap[t] != id
  {
    RemovedIsValid(r, id);
    assert id in Elements(r.nodeIDs);
    DeleteFirstKeeps(r.nodeIDs, id);
    var orphans := r.nodes[id];
    DroppedIsOrphaned(r, id);
    RedistributedKeeps(Dropped(r, id), id, orphans, |orphans|);
    GivenAway(Dropped(r, id), orphans, |orphans|);
    var q := Removed(r, id);
    assert Owns(r.nodes, r.sectorMap, id);
    forall t | t in r.sectorMap ensures q.sectorMap[t] in r.nodeIDs && q.sectorMap[t] != id { OwnerIsListed(q, t); }
    hide Valid, Redistributed, Orphaned;
  }

  lemma OwnerIsListed(q: Ring, t: nat)
    requires Valid(q) && t in q.sectorMap
    ensures q.sectorMap[t] in q.nodeIDs
  {
    var x := q.sectorMap[t];
    assert Owns(q.nodes, q.sectorMap, x);
    assert t in SectorsOf(q.nodes, x);
    assert x in Elements(q.nodeIDs);
  }

  lemma {:induction false} GivenAway(r: Ring, orphans: seq<nat>, n: nat)
    requires n <= |orphans| && (n > 0 ==> |r.nodeIDs| > 0)
    requires forall t | t in orphans :: t in r.sectorMap
    ensures Redistributed(r, orphans, n).sectorMap.Keys == r.sectorMap.Keys
    ensures forall t | t in r.sectorMap && t !in orphans :: Redistributed(r, orphans, n).sectorMap[t] == r.sectorMap[t]
  {
    if n > 0 { GivenAway(r, orphans, n - 1); }
  }

  /** A new ring's sectors go to the servers in turn. */
  lemma {:induction false} DealtInTurn(ids: seq<Str>, n: nat, t: nat)
    requires ids != [] && t < n
    ensures t in Dealt(ids, n).1 && Dealt(ids, n).1[t] == ids[t % |ids|]
  {
    if t < n - 1 { DealtInTurn(ids, n - 1, t); }
  }

  /** And so do the sectors of a server that left, in the order of its list, to those that stay. */
  lemma {:induction false} OrphansInTurn(r: Ring, orphans: seq<nat>, n: nat, j: nat)
    requires j < n <= |orphans| && |r.nodeIDs| > 0 && Distinct(orphans)
    ensures orphans[j] in Redistributed(r, orphans, n).sectorMap
    ensures Redistributed(r, orphans, n).sectorMap[orphans[j]] == r.nodeIDs[j % |r.nodeIDs|]
  {
    if j < n - 1 {
      OrphansInTurn(r, orphans, n - 1, j);
      assert orphans[n - 1] != orphans[j];
    }
    SameNames(r, orphans, n - 1);
  }

  lemma {:induction false} SameNames(r: Ring, orphans: seq<nat>, n: nat)
    requires n <= |orphans| && |r.nodeIDs| > 0
    ensures Redistributed(r, orphans, n).nodeIDs == r.nodeIDs
  {
    if n > 0 { SameNames(r, orphans, n - 1); }
  }
}
