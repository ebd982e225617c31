/** Which changes mark the sector whose cached tree they outdate (src/kvsrv/server.go:479-485, 634-698). */
module DirtySectors {
  import opened Base
  import opened Siblings
  import opened Replica
  import opened AntiEntropy
  import opened MerkleTree

  /** A key's own bucket is the only place where a well-formed index lists it. */
  lemma ListedHere(at: Placement, s: Server, sector: nat, key: Str)
    requires StoreOk(at, s) && sector < |s.index| && key in SectorKeys(s.index[sector])
    ensures at(key).0 == sector && key in s.kv
  {
    var b :| 0 <= b < |s.index[sector]| && key in s.index[sector][b];
    assert InIndex(s.index, (sector, b)) && Bucket(s.index, (sector, b)) == s.index[sector][b];
    assert key in multiset(Bucket(s.index, (sector, b)));
  }

  lemma SnapshotKept(at: Placement, s: Server, t: Server, sector: nat, key: Str)
    requires StoreOk(at, s) && sector < |s.index| == |t.index| && t.index[sector] == s.index[sector]
    requires at(key).0 != sector && forall k: Str | k != key :: Stored(t, k) == Stored(s, k)
    ensures SnapshotOf(t, sector) == SnapshotOf(s, sector)
  {
    forall k | k in SectorKeys(s.index[sector]) ensures Stored(t, k) == Stored(s, k) { ListedHere(at, s, sector, k); }
  }

  /** Installing marks the one sector whose snapshot may change. */
  lemma InstallMarks(at: Placement, s: Server, key: Str, objects: seq<Object>, sector: nat)
    requires StoreOk(at, s) && sector < |s.index|
    ensures var t := Install(at, s, key, objects);
      s.dirty <= t.dirty && |t.index| == |s.index| && (SnapshotOf(t, sector) == SnapshotOf(s, sector) || sector in t.dirty)
  {
    var t := Install(at, s, key, objects);
    if sector != at(key).0 { SnapshotKept(at, s, t, sector, key); }
  }

  /** So a merge leaves every unmarked sector's cached tree as fresh as it was. */
  lemma MergeMarks(at: Placement, s: Server, key: Str, incoming: seq<Object>, sector: nat)
    requires StoreOk(at, s) && sector < |s.index|
    ensures var t := Merged(at, s, key, incoming);
      s.dirty <= t.dirty && |t.index| == |s.index| && (SnapshotOf(t, sector) == SnapshotOf(s, sector) || sector in t.dirty)
  {
    InstallMarks(at, s, key, Merge(Stored(s, key), incoming), sector);
    hide Install, StoreOk;
  }

  lemma AcceptedChangesSiblings(s: Server, args: PutArgs)
    requires WellFormedPut(args) && CanBeAdded(Object(args.obj.value, args.base), Stored(s, args.key))
    ensures Add(Stored(s, args.key), args.obj) != Stored(s, args.key)
  {
    PutAddable(args, Stored(s, args.key));
    AddMembers(Stored(s, args.key), args.obj, args.obj);
    assert args.obj !in Stored(s, args.key);
  }

  /** A put marks nothing, and outdates its sector's cached tree exactly when it is accepted. */
  lemma PutMarksNothing(at: Placement, s: Server, args: PutArgs)
    requires StoreOk(at, s) && WellFormedPut(args)
    ensures var t := Put(at, s, args).0;
      && t.dirty == s.dirty && |t.index| == |s.index| && at(args.key).0 < |s.index|
      && (SnapshotOf(t, at(args.key).0) != SnapshotOf(s, at(args.key).0) <==> Put(at, s, args).1 == OK)
  {
    var t, sector := Put(at, s, args).0, at(args.key).0;
    assert InIndex(s.index, at(args.key));
    if Put(at, s, args).1 == OK {
      PutKeeps(at, s, args);
      AcceptedChangesSiblings(s, args);
      AcceptedIsListed(at, t, args.key);
      var a, b := SnapshotOf(t, sector), SnapshotOf(s, sector);
      assert args.key in a.siblings && a.siblings[args.key] == Stored(t, args.key);
      if args.key in b.siblings { assert b.siblings[args.key] == Stored(s, args.key); }
    }
  }

  lemma AcceptedIsListed(at: Placement, t: Server, key: Str)
    requires StoreOk(at, t) && key in t.kv
    ensures at(key).0 < |t.index| && key in SectorKeys(t.index[at(key).0])
  {
    ListedOnce(at, t, key);
    assert InIndex(t.index, at(key)) && key in t.index[at(key).0][at(key).1];
  }
}
