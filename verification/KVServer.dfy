/** The server object: the methods that change the store, the bucket index, the hints and the cached trees. */
module KVServer {
  import opened Base
  import opened Siblings
  import opened SiblingAlgebra
  import opened Serialization
  import opened MerkleTree
  import opened DiffBuckets
  import opened Replica
  import opened AntiEntropy

  method AppendUniqueKey(keys: seq<Str>, key: Str) returns (r: seq<Str>)
    ensures r == AppendUnique(keys, key)
  {
    for i := 0 to |keys|
      invariant key !in keys[..i]
    {
      if keys[i] == key { return keys; }
    }
    assert keys[..|keys|] == keys;
    return keys + [key];
  }

  lemma RemoveFirstStep(keys: seq<Str>, i: nat, key: Str)
    requires i < |keys|
    ensures keys[..i] + RemoveFirst(keys[i..], key) ==
      if keys[i] == key then keys[..i] + keys[i + 1..] else keys[..i + 1] + RemoveFirst(keys[i + 1..], key)
  {
    assert keys[i..][0] == keys[i] && keys[i..][1..] == keys[i + 1..];
  }

  method RemoveKey(keys: seq<Str>, key: Str) returns (r: seq<Str>)
    ensures r == RemoveFirst(keys, key)
  {
    for i := 0 to |keys|
      invariant keys[..i] + RemoveFirst(keys[i..], key) == RemoveFirst(keys, key)
    {
      RemoveFirstStep(keys, i, key);
      if keys[i] == key { return keys[..i] + keys[i + 1..]; }
    }
    return keys;
  }

  /** The loop of mergeObjectsCore, of CoordGet and of finishCoordGetReadRepair. */
  method FoldObjects(existing: seq<Object>, incoming: seq<Object>) returns (merged: seq<Object>, changed: bool)
    ensures merged == Merge(existing, incoming)
    ensures changed == Changes(existing, incoming)
  {
    merged, changed := existing, false;
    for i := 0 to |incoming|
      invariant Merge(merged, incoming[i..]) == Merge(existing, incoming)
      invariant changed == exists k | 0 <= k < i :: CanBeAdded(incoming[k], existing)
      invariant !changed ==> merged == existing
    {
      assert incoming[i..][0] == incoming[i] && incoming[i..][1..] == incoming[i + 1..];
      var addable := CanBeAddedTo(incoming[i], merged);
      if addable {
        merged := AddObject(merged, incoming[i]);
        changed := true;
      }
    }
  }

  method FindHint(hs: seq<PutArgs>, m: PutArgs) returns (found: bool, rest: seq<PutArgs>)
    ensures found == HasHint(hs, m)
    ensures rest == RemoveHintFrom(hs, m)
  {
    hide SameHint, RemoveHintFrom;
    for i := 0 to |hs|
      invariant forall k | 0 <= k < i :: !SameHint(hs[k], m)
    {
      if SameHint(hs[i], m) {
        FirstRemoved(hs, m, i);
        return true, hs[..i] + hs[i + 1..];
      }
    }
    NoneRemoved(hs, m);
    return false, hs;
  }

  class KVServer {
    const at: Placement
    const H: Str -> Digest
    var kv: map<Str, seq<Object>>
    var keysInBuckets: Index
    var dirtySectors: set<nat>
    var hints: map<Str, seq<PutArgs>>
    var merkleRoots: map<nat, Merkle>

    ghost function State(): Server
      reads this
    {
      Server(kv, keysInBuckets, dirtySectors, hints)
    }

    constructor (at: Placement, H: Str -> Digest, sectors: nat, buckets: nat)
      ensures this.at == at && this.H == H && merkleRoots == map[]
      ensures State() == Server(map[], seq(sectors, _ => seq(buckets, _ => [])), {}, map[])
    {
      this.at := at;
      this.H := H;
      kv := map[];
      keysInBuckets := seq(sectors, _ => seq(buckets, _ => []));
      dirtySectors := {};
      hints := map[];
      merkleRoots := map[];
    }

    method ReplicaGet(key: Str) returns (objects: seq<Object>, err: Err)
      ensures objects == Stored(State(), key)
      ensures err == if key in kv then OK else ErrNoKey
    {
      if key !in kv { return [], ErrNoKey; }
      return kv[key], OK;
    }

    method ReplicaPut(args: PutArgs) returns (err: Err)
      modifies this
      ensures (State(), err) == Put(at, old(State()), args) && merkleRoots == old(merkleRoots)
      ensures err == OK <==> !Covers(Stored(old(State()), args.key), args.base.vc) && (args.key in old(kv) || NothingKnown(args.base))
    {
      PutExactly(at, State(), args);
      hide NothingKnown, Covers;
      if args.key !in kv && !IsInitialContext(args.base) { return ErrNoKey; }
      var siblings := if args.key in kv then kv[args.key] else [];
      var canAdd := CanBeAddedTo(Object(args.obj.value, args.base), siblings);
      if !canAdd { return ErrVersion; }
      var added := AddObject(siblings, args.obj);
      kv := kv[args.key := added];
      if IsInitialContext(args.base) {
        var keys := AppendUniqueKey(Bucket(keysInBuckets, at(args.key)), args.key);
        keysInBuckets := WithBucket(keysInBuckets, at(args.key), keys);
      }
      return OK;
    }

    method InstallObjects(key: Str, objects: seq<Object>)
      modifies this
      ensures State() == Install(at, old(State()), key, objects) && merkleRoots == old(merkleRoots)
    {
      var bucket := Bucket(keysInBuckets, at(key));
      if |objects| == 0 {
        kv := kv - {key};
        var keys := RemoveKey(bucket, key);
        keysInBuckets := WithBucket(keysInBuckets, at(key), keys);
        dirtySectors := dirtySectors + {at(key).0};
        return;
      }
      var existed := key in kv;
      kv := kv[key := objects];
      if !existed {
        var keys := AppendUniqueKey(bucket, key);
        keysInBuckets := WithBucket(keysInBuckets, at(key), keys);
      }
      dirtySectors := dirtySectors + {at(key).0};
    }

    /** mergeObjects, with nothing between its two critical sections; nil for no incoming objects. */
    method MergeObjects(key: Str, incoming: seq<Object>) returns (siblings: seq<Object>)
      modifies this
      ensures State() == Merged(at, old(State()), key, incoming) && merkleRoots == old(merkleRoots)
      ensures siblings == if incoming == [] then [] else Merge(Stored(old(State()), key), incoming)
    {
      if |incoming| == 0 { return []; }
      var existing := if key in kv then kv[key] else [];
      var merged, changed := FoldObjects(existing, incoming);
      if !changed {
        MergeUnchanged(existing, incoming);
        return merged;
      }
      InstallObjects(key, merged);
      return merged;
    }

    /** RepairPut: a delete drops the key, everything else merges. */
    method RepairPut(key: Str, objects: seq<Object>, delete: bool)
      modifies this
      ensures State() == if delete then Install(at, old(State()), key, []) else Merged(at, old(State()), key, objects)
      ensures merkleRoots == old(merkleRoots)
    {
      if delete {
        InstallObjects(key, []);
      } else {
        var _ := MergeObjects(key, objects);
      }
    }

    method HintedPut(target: Str, args: PutArgs) returns (err: Err)
      modifies this`hints
      ensures State() == Hinted(old(State()), target, args) && err == OK
    {
      hints := hints[target := (if target in hints then hints[target] else []) + [args]];
      return OK;
    }

    method RemoveHint(target: Str, matched: PutArgs)
      modifies this`hints
      ensures State() == Unhinted(old(State()), target, matched)
      ensures if HasHint(HintsFor(old(State()), target), matched) then FirstDropped(old(State()), target, matched, State())
        else State() == old(State())
    {
      UnhintedExactly(State(), target, matched);
      hide FirstDropped, RemoveHintFrom;
      var found, rest := FindHint(if target in hints then hints[target] else [], matched);
      if found {
        if |rest| == 0 { hints := hints - {target}; } else { hints := hints[target := rest]; }
      }
    }

    /** snapshotSector. */
    method SnapshotSector(sector: nat) returns (snap: Snapshot)
      requires sector < |keysInBuckets|
      ensures snap == SnapshotOf(State(), sector)
    {
      var buckets := keysInBuckets[sector];
      var siblings: map<Str, seq<Object>> := map[];
      for b := 0 to |buckets|
        invariant siblings.Keys == SectorKeys(buckets[..b])
        invariant forall k | k in siblings :: siblings[k] == Stored(State(), k)
      {
        for i := 0 to |buckets[b]|
          invariant siblings.Keys == SectorKeys(buckets[..b]) + Elements(buckets[b][..i])
          invariant forall k | k in siblings :: siblings[k] == Stored(State(), k)
        {
          var k := buckets[b][i];
          siblings := siblings[k := if k in kv then kv[k] else []];
          assert buckets[b][..i + 1] == buckets[b][..i] + [k];
        }
        SectorKeysStep(buckets, b);
      }
      assert buckets[..|buckets|] == buckets;
      snap := Snapshot(buckets, siblings);
    }

    /** The cached tree of the sector is the one its buckets give now. */
    ghost predicate Fresh(sector: nat)
      reads this
    {
      sector < |keysInBuckets| && keysInBuckets[sector] != [] && sector in merkleRoots
      && merkleRoots[sector] == Build(H, Leaves(H, SnapshotOf(State(), sector)))
    }

    method RebuildMerkleTree(sector: nat)
      requires sector < |keysInBuckets| && keysInBuckets[sector] != []
      modifies this`merkleRoots
      ensures Fresh(sector) && forall s | s in old(merkleRoots) && s != sector :: s in merkleRoots && merkleRoots[s] == old(merkleRoots)[s]
    {
      var snap := SnapshotSector(sector);
      var root := BuildFromSnapshot(H, snap);
      merkleRoots := merkleRoots[sector := root];
    }

    /** The cached tree's summary against one that was sent; the trees may be stale. */
    ghost function CachedPair(sector: nat, summary: seq<Digest>): Pair
      reads this
      requires sector in merkleRoots
    {
      Pair(BreadthFirst([merkleRoots[sector]]), summary, EmptyDigest(H))
    }

    /** RepairGetDiff: the reply is drawn from the cached tree, and is the diff of the stores if that tree is fresh. */
    method RepairGetDiff(sector: nat, summary: seq<Digest>, ghost k: nat) returns (infos: seq<KeyInfo>, err: Err)
      requires sector in merkleRoots ==> CachedPair(sector, summary).Sized()
      ensures sector !in merkleRoots ==> err == ErrNoHashValue && infos == []
      ensures sector in merkleRoots ==> err == OK && infos == ReplyFrom(State(), sector, CachedPair(sector, summary))
      ensures Fresh(sector) && |keysInBuckets[sector]| == Pow2(k) ==>
        && Pair(Summary(H, SnapshotOf(State(), sector)), summary, EmptyDigest(H)).Sized()
        && infos == DiffReply(H, State(), sector, summary)
    {
      infos := [];
      if sector !in merkleRoots { return [], ErrNoHashValue; }
      var root := merkleRoots[sector];
      FreshPair(sector, summary, k);
      BreadthFirstUnfold([root]);
      if root.hash == summary[0] { return [], OK; }
      var mine := ToSummary(root);
      var leaf := H(Uint64Bytes(0) + [] + StringBytes(EMPTY) + StringBytes(EMPTY));
      var buckets := FindDiffBuckets(Pair(mine, summary, leaf));
      infos := CollectInfos(sector, buckets);
      return infos, OK;
    }

    /** A fresh tree of 2^k buckets summarizes the store as it is. */
    lemma FreshPair(sector: nat, summary: seq<Digest>, k: nat)
      requires sector in merkleRoots
      ensures Fresh(sector) && |keysInBuckets[sector]| == Pow2(k) ==>
        CachedPair(sector, summary) == Pair(Summary(H, SnapshotOf(State(), sector)), summary, EmptyDigest(H))
    {
      if Fresh(sector) && |keysInBuckets[sector]| == Pow2(k) {
        SummaryIsHeapOrder(H, SnapshotOf(State(), sector), k);
      }
    }

    /** The siblings of each key of a bucket. */
    method CollectKeys(keys: seq<Str>) returns (infos: seq<KeyInfo>)
      ensures infos == KeyInfosOf(State(), keys)
    {
      infos := [];
      for j := 0 to |keys|
        invariant infos == KeyInfosOf(State(), keys)[..j]
      {
        infos := infos + [KeyInfo(keys[j], if keys[j] in kv then kv[keys[j]] else [])];
      }
    }

    method CollectInfos(sector: nat, buckets: seq<nat>) returns (infos: seq<KeyInfo>)
      ensures infos == Collected(State(), sector, buckets)
    {
      infos := [];
      for i := 0 to |buckets|
        invariant infos + Collected(State(), sector, buckets[i..]) == Collected(State(), sector, buckets)
      {
        hide KeyInfosOf, Bucket, Collected;
        CollectedStep(State(), sector, buckets, i, infos);
        var found := CollectKeys(Bucket(keysInBuckets, (sector, buckets[i])));
        infos := infos + found;
      }
    }

    /** ApplyDiff: merge each key here and repair the neighbour with the merged siblings. */
    method ApplyDiff(infos: seq<KeyInfo>, neighbor: KVServer)
      requires neighbor != this && neighbor.at == at
      modifies this, neighbor
      ensures (State(), neighbor.State()) == Exchanged(at, old(State()), old(neighbor.State()), infos)
      ensures merkleRoots == old(merkleRoots) && neighbor.merkleRoots == old(neighbor.merkleRoots)
    {
      for i := 0 to |infos|
        invariant Exchanged(at, State(), neighbor.State(), infos[i..]) == Exchanged(at, old(State()), old(neighbor.State()), infos)
        invariant merkleRoots == old(merkleRoots) && neighbor.merkleRoots == old(neighbor.merkleRoots)
      {
        assert infos[i..][0] == infos[i] && infos[i..][1..] == infos[i + 1..];
        var merged := MergeObjects(infos[i].key, infos[i].objects);
        if |merged| != 0 {
          neighbor.RepairPut(infos[i].key, merged, false);
        }
      }
    }

    /** Both sides have a tree; the search compares the neighbour's with the one here. */
    ghost predicate BothCached(neighbor: KVServer, sector: nat)
      reads this, neighbor
    {
      sector in merkleRoots && sector in neighbor.merkleRoots
    }

    ghost function CachedTrees(neighbor: KVServer, sector: nat): Pair
      reads this, neighbor
      requires BothCached(neighbor, sector)
    {
      neighbor.CachedPair(sector, BreadthFirst([merkleRoots[sector]]))
    }

    ghost predicate BothFresh(neighbor: KVServer, sector: nat, k: nat)
      reads this, neighbor
    {
      Fresh(sector) && neighbor.Fresh(sector) && |keysInBuckets[sector]| == |neighbor.keysInBuckets[sector]| == Pow2(k)
    }

    /** Reconcile with every message delivered: nothing happens unless both sides have a tree. */
    method Reconcile(sector: nat, neighbor: KVServer, ghost k: nat)
      requires neighbor != this && neighbor.at == at && neighbor.H == H
      requires BothCached(neighbor, sector) ==> CachedTrees(neighbor, sector).Sized()
      modifies this, neighbor
      ensures old(BothCached(neighbor, sector)) ==>
        (State(), neighbor.State()) ==
          Exchanged(at, old(State()), old(neighbor.State()), ReplyFrom(old(neighbor.State()), sector, old(CachedTrees(neighbor, sector))))
      ensures old(BothFresh(neighbor, sector, k)) ==>
        && SummaryPair(H, SnapshotOf(old(neighbor.State()), sector), SnapshotOf(old(State()), sector)).Sized()
        && (State(), neighbor.State()) == Reconciled(H, at, old(State()), old(neighbor.State()), sector)
      ensures !old(BothCached(neighbor, sector)) ==>
        State() == old(State()) && neighbor.State() == old(neighbor.State())
    {
      if sector !in merkleRoots { return; }
      FreshPair(sector, [], k);
      var summary := ToSummary(merkleRoots[sector]);
      var infos, err := neighbor.RepairGetDiff(sector, summary, k);
      if err == ErrNoHashValue { return; }
      if err == OK && |infos| == 0 { return; }
      ApplyDiff(infos, neighbor);
    }
  }

  lemma CollectedStep(s: Server, sector: nat, buckets: seq<nat>, i: nat, before: seq<KeyInfo>)
    requires i < |buckets|
    ensures before + Collected(s, sector, buckets[i..])
      == before + KeyInfosOf(s, Bucket(s.index, (sector, buckets[i]))) + Collected(s, sector, buckets[i + 1..])
  {
    assert buckets[i..][1..] == buckets[i + 1..];
    hide KeyInfosOf, Bucket;
  }

  lemma MergeUnchanged(existing: seq<Object>, incoming: seq<Object>)
    requires !Changes(existing, incoming)
    ensures Merge(existing, incoming) == existing
  {
    forall o | o in incoming ensures Covers(existing, Clock(o)) {
      var i :| 0 <= i < |incoming| && incoming[i] == o;
      assert !CanBeAdded(incoming[i], existing);
    }
    MergeKnown(existing, incoming);
  }

  lemma SectorKeysStep(buckets: seq<seq<Str>>, b: nat)
    requires b < |buckets|
    ensures SectorKeys(buckets[..b + 1]) == SectorKeys(buckets[..b]) + Elements(buckets[b])
    ensures buckets[b][..|buckets[b]|] == buckets[b]
  {
    assert buckets[..b + 1] == buckets[..b] + [buckets[b]];
    forall k | k in SectorKeys(buckets[..b]) + Elements(buckets[b]) ensures k in SectorKeys(buckets[..b + 1]) {
      if k in Elements(buckets[b]) { assert buckets[..b + 1][b] == buckets[b]; }
      else {
        var c :| 0 <= c < |buckets[..b]| && k in buckets[..b][c];
        assert buckets[..b + 1][c] == buckets[..b][c];
      }
    }
    forall k | k in SectorKeys(buckets[..b + 1]) ensures k in SectorKeys(buckets[..b]) + Elements(buckets[b]) {
      var c :| 0 <= c < |buckets[..b + 1]| && k in buckets[..b + 1][c];
      if c < b { assert buckets[..b][c] == buckets[..b + 1][c]; }
    }
  }
}
