/**
 One server's store, bucket index and hints as a value, with the steps of src/kvsrv/server.go:431-698,
 src/kvsrv/readrepair.go:192-203 and src/kvsrv/hinted_handoff.go:10-127.
 */
module Replica {
  import opened Base
  import opened VectorClock
  import opened Siblings
  import opened SiblingAlgebra

  datatype Err = OK | ErrNoKey | ErrVersion | ErrNotCoordinator | ErrReadQuorumNotMet | ErrWriteQuorumNotMet | ErrNoHashValue

  datatype PutArgs = PutArgs(key: Str, obj: Object, base: Context)

  /** sector -> bucket -> keys */
  type Index = seq<seq<seq<Str>>>

  datatype Server = Server(kv: map<Str, seq<Object>>, index: Index, dirty: set<nat>, hints: map<Str, seq<PutArgs>>)

  /** Where the ring puts a key: sector and bucket. */
  type Placement = Str -> (nat, nat)

  function Stored(s: Server, key: Str): seq<Object> { if key in s.kv then s.kv[key] else [] }

  function HintsFor(s: Server, target: Str): seq<PutArgs> { if target in s.hints then s.hints[target] else [] }

  predicate InIndex(index: Index, at: (nat, nat)) { at.0 < |index| && at.1 < |index[at.0]| }

  function Bucket(index: Index, at: (nat, nat)): seq<Str> { if InIndex(index, at) then index[at.0][at.1] else [] }

  function WithBucket(index: Index, at: (nat, nat), keys: seq<Str>): Index {
    if InIndex(index, at) then index[at.0 := index[at.0][at.1 := keys]] else index
  }

  function AppendUnique(keys: seq<Str>, key: Str): seq<Str> { if key in keys then keys else keys + [key] }

  function RemoveFirst(keys: seq<Str>, key: Str): seq<Str> {
    if keys == [] then [] else if keys[0] == key then keys[1..] else [keys[0]] + RemoveFirst(keys[1..], key)
  }

  /** ReplicaPut: the guard looks at the base context, the store gets the object. */
  function Put(at: Placement, s: Server, args: PutArgs): (Server, Err) {
    if args.key !in s.kv && !IsInitialContext(args.base) then (s, ErrNoKey)
    else if !CanBeAdded(Object(args.obj.value, args.base), Stored(s, args.key)) then (s, ErrVersion)
    else
      var index := if IsInitialContext(args.base)
        then WithBucket(s.index, at(args.key), AppendUnique(Bucket(s.index, at(args.key)), args.key)) else s.index;
      (s.(kv := s.kv[args.key := Add(Stored(s, args.key), args.obj)], index := index), OK)
  }

  /** installObjects: an empty list deletes the key. */
  function Install(at: Placement, s: Server, key: Str, objects: seq<Object>): Server {
    var bucket := Bucket(s.index, at(key));
    if objects == [] then
      s.(kv := s.kv - {key}, index := WithBucket(s.index, at(key), RemoveFirst(bucket, key)), dirty := s.dirty + {at(key).0})
    else
      s.(kv := s.kv[key := objects],
         index := if key in s.kv then s.index else WithBucket(s.index, at(key), AppendUnique(bucket, key)),
         dirty := s.dirty + {at(key).0})
  }

  /** Some incoming object is new to the siblings. */
  predicate Changes(existing: seq<Object>, incoming: seq<Object>) {
    exists i | 0 <= i < |incoming| :: CanBeAdded(incoming[i], existing)
  }

  /** mergeObjectsCore with its two critical sections in one step. */
  function Merged(at: Placement, s: Server, key: Str, incoming: seq<Object>): Server {
    if Changes(Stored(s, key), incoming) then Install(at, s, key, Merge(Stored(s, key), incoming)) else s
  }

  function Hinted(s: Server, target: Str, args: PutArgs): Server {
    s.(hints := s.hints[target := HintsFor(s, target) + [args]])
  }

  /** removeHint's test. */
  predicate SameHint(h: PutArgs, m: PutArgs) {
    h.key == m.key && h.obj.value == m.obj.value && SameContext(h.obj.context, m.obj.context) && SameContext(h.base, m.base)
  }

  function RemoveHintFrom(hs: seq<PutArgs>, m: PutArgs): seq<PutArgs> {
    if hs == [] then [] else if SameHint(hs[0], m) then hs[1..] else [hs[0]] + RemoveHintFrom(hs[1..], m)
  }

  predicate HasHint(hs: seq<PutArgs>, m: PutArgs) {
    exists i | 0 <= i < |hs| :: SameHint(hs[i], m)
  }

  function Unhinted(s: Server, target: Str, m: PutArgs): Server {
    if !HasHint(HintsFor(s, target), m) then s
    else
      var rest := RemoveHintFrom(HintsFor(s, target), m);
      s.(hints := if rest == [] then s.hints - {target} else s.hints[target := rest])
  }

  /** Position i has the first hint equivalent to m. */
  predicate FirstSame(hs: seq<PutArgs>, m: PutArgs, i: nat) {
    i < |hs| && SameHint(hs[i], m) && forall j | 0 <= j < i :: !SameHint(hs[j], m)
  }

  lemma {:induction false} FirstRemoved(hs: seq<PutArgs>, m: PutArgs, i: nat)
    requires FirstSame(hs, m, i)
    ensures RemoveHintFrom(hs, m) == hs[..i] + hs[i + 1..]
  {
    hide SameHint;
    if i > 0 {
      assert forall j | 0 <= j < |hs[1..]| :: hs[1..][j] == hs[j + 1];
      FirstRemoved(hs[1..], m, i - 1);
    }
  }

  lemma {:induction false} NoneRemoved(hs: seq<PutArgs>, m: PutArgs)
    requires !HasHint(hs, m)
    ensures RemoveHintFrom(hs, m) == hs
  {
    hide SameHint;
    if hs != [] {
      assert forall i | 0 <= i < |hs[1..]| :: hs[1..][i] == hs[i + 1];
      NoneRemoved(hs[1..], m);
    }
  }

  lemma {:induction false} HasFirst(hs: seq<PutArgs>, m: PutArgs) returns (i: nat)
    requires HasHint(hs, m)
    ensures FirstSame(hs, m, i)
  {
    hide SameHint;
    i := 0;
    if !SameHint(hs[0], m) {
      var j :| 0 <= j < |hs| && SameHint(hs[j], m);
      assert hs[1..][j - 1] == hs[j];
      var k := HasFirst(hs[1..], m);
      i := k + 1;
      assert forall j | 0 < j < i :: hs[j] == hs[1..][j - 1];
    }
  }

  /** The list without its first hint equivalent to m. */
  ghost predicate WithoutFirst(before: seq<PutArgs>, m: PutArgs, after: seq<PutArgs>) {
    exists i: nat :: FirstSame(before, m, i) && after == before[..i] + before[i + 1..]
  }

  /** What removing a hint does to the whole server. */
  ghost predicate FirstDropped(s: Server, target: Str, m: PutArgs, t: Server) {
    var before, after := HintsFor(s, target), HintsFor(t, target);
    && WithoutFirst(before, m, after) && |after| == |before| - 1
    && (target in t.hints <==> after != [])
    && (forall x: Str | x != target :: (x in t.hints <==> x in s.hints) && HintsFor(t, x) == HintsFor(s, x))
    && t.kv == s.kv && t.index == s.index && t.dirty == s.dirty
  }

  /** The first equivalent hint goes, and the target with its last hint; without one nothing happens. */
  lemma UnhintedExactly(s: Server, target: Str, m: PutArgs)
    ensures if HasHint(HintsFor(s, target), m) then FirstDropped(s, target, m, Unhinted(s, target, m))
      else Unhinted(s, target, m) == s
  {
    if HasHint(HintsFor(s, target), m) {
      var i := HasFirst(HintsFor(s, target), m);
      FirstRemoved(HintsFor(s, target), m, i);
      hide RemoveHintFrom, SameHint;
    }
  }

  // ----- what the store keeps

  /** What a key may hold: a non-empty, timestamp-sorted antichain. */
  predicate GoodSiblings(s: seq<Object>) { s != [] && Antichain(s) && SortedByTime(s) }

  ghost predicate Placed(at: Placement, index: Index) {
    forall key: Str :: InIndex(index, at(key))
  }

  /** A key is listed exactly once, in its own bucket, if it is stored, and nowhere otherwise. */
  ghost predicate Indexed(at: Placement, s: Server) {
    forall place: (nat, nat), key: Str | InIndex(s.index, place) ::
      multiset(Bucket(s.index, place))[key] == if key in s.kv && at(key) == place then 1 else 0
  }

  ghost predicate StoreOk(at: Placement, s: Server) {
    && (forall key | key in s.kv :: GoodSiblings(s.kv[key]))
    && Placed(at, s.index)
    && Indexed(at, s)
  }

  lemma {:induction false} RemoveFirstCount(keys: seq<Str>, key: Str)
    ensures multiset(RemoveFirst(keys, key)) == multiset(keys) - multiset{key}
  {
    if keys != [] {
      assert keys == [keys[0]] + keys[1..];
      RemoveFirstCount(keys[1..], key);
    }
  }

  lemma WithBucketKeeps(at: Placement, s: Server, key: Str, keys: seq<Str>)
    requires Placed(at, s.index)
    ensures Placed(at, WithBucket(s.index, at(key), keys))
    ensures forall place: (nat, nat) :: InIndex(WithBucket(s.index, at(key), keys), place) <==> InIndex(s.index, place)
    ensures forall place: (nat, nat) | InIndex(s.index, place) ::
      Bucket(WithBucket(s.index, at(key), keys), place) == if place == at(key) then keys else Bucket(s.index, place)
  {
  }

  lemma WithSameBucket(index: Index, at: (nat, nat))
    ensures WithBucket(index, at, Bucket(index, at)) == index
  {
    if InIndex(index, at) { assert index[at.0][at.1 := index[at.0][at.1]] == index[at.0]; }
  }

  lemma ListedOnce(at: Placement, s: Server, key: Str)
    requires Placed(at, s.index) && Indexed(at, s)
    ensures key in Bucket(s.index, at(key)) <==> key in s.kv
  {
    assert InIndex(s.index, at(key));
    assert key in Bucket(s.index, at(key)) <==> key in multiset(Bucket(s.index, at(key)));
  }

  /** Storing a key lists it, once. */
  lemma IndexAfterStore(at: Placement, s: Server, key: Str, objects: seq<Object>)
    requires Placed(at, s.index) && Indexed(at, s)
    ensures var index := WithBucket(s.index, at(key), AppendUnique(Bucket(s.index, at(key)), key));
      && Placed(at, index) && Indexed(at, s.(kv := s.kv[key := objects], index := index))
      && (key in s.kv ==> index == s.index)
  {
    ListedOnce(at, s, key);
    WithSameBucket(s.index, at(key));
    WithBucketKeeps(at, s, key, AppendUnique(Bucket(s.index, at(key)), key));
  }

  lemma CountAfterDelete(at: Placement, s: Server, key: Str, place: (nat, nat), k: Str)
    requires Placed(at, s.index) && Indexed(at, s) && InIndex(s.index, place)
    ensures var index := WithBucket(s.index, at(key), RemoveFirst(Bucket(s.index, at(key)), key));
      multiset(Bucket(index, place))[k] == if k in s.kv - {key} && at(k) == place then 1 else 0
  {
    var bucket := Bucket(s.index, at(key));
    RemoveFirstCount(bucket, key);
    WithBucketKeeps(at, s, key, RemoveFirst(bucket, key));
    assert multiset(Bucket(s.index, place))[k] == if k in s.kv && at(k) == place then 1 else 0;
    hide Indexed, Placed, InIndex, Bucket, WithBucket, RemoveFirst;
  }

  lemma IndexAfterDelete(at: Placement, s: Server, key: Str)
    requires Placed(at, s.index) && Indexed(at, s)
    ensures var index := WithBucket(s.index, at(key), RemoveFirst(Bucket(s.index, at(key)), key));
      Placed(at, index) && Indexed(at, s.(kv := s.kv - {key}, index := index))
  {
    hide InIndex, Bucket, WithBucket, RemoveFirst;
    var index := WithBucket(s.index, at(key), RemoveFirst(Bucket(s.index, at(key)), key));
    WithBucketKeeps(at, s, key, RemoveFirst(Bucket(s.index, at(key)), key));
    forall place: (nat, nat), k: Str | InIndex(index, place)
      ensures multiset(Bucket(index, place))[k] == if k in s.kv - {key} && at(k) == place then 1 else 0
    {
      CountAfterDelete(at, s, key, place, k);
    }
  }

  lemma InstallKeeps(at: Placement, s: Server, key: Str, objects: seq<Object>)
    requires StoreOk(at, s) && (objects == [] || GoodSiblings(objects))
    ensures StoreOk(at, Install(at, s, key, objects))
  {
    if objects == [] {
      IndexAfterDelete(at, s, key);
    } else {
      IndexAfterStore(at, s, key, objects);
    }
  }

  /** What an install does to the whole server: the key holds the objects, or is gone; its sector alone is marked. */
  lemma InstallExactly(at: Placement, s: Server, key: Str, objects: seq<Object>)
    ensures var t := Install(at, s, key, objects);
      && (key in t.kv <==> objects != []) && Stored(t, key) == objects
      && (forall k: Str | k != key :: (k in t.kv <==> k in s.kv) && Stored(t, k) == Stored(s, k))
      && t.dirty == s.dirty + {at(key).0} && t.hints == s.hints
  {
  }

  /** The base context is at or before the object's: coordinators increment a clock they were given. */
  predicate WellFormedPut(args: PutArgs) { Leq(args.base.vc, Clock(args.obj)) }

  lemma PutAddable(args: PutArgs, siblings: seq<Object>)
    requires WellFormedPut(args) && CanBeAdded(Object(args.obj.value, args.base), siblings)
    ensures CanBeAdded(args.obj, siblings)
  {
    forall i | 0 <= i < |siblings| ensures !Leq(Clock(args.obj), Clock(siblings[i])) {
      if Leq(Clock(args.obj), Clock(siblings[i])) {
        LeqTransitive(args.base.vc, Clock(args.obj), Clock(siblings[i]));
      }
    }
  }

  /** An initial base context never gets past the guard of a stored key. */
  lemma InitialOnlyFirst(args: PutArgs, siblings: seq<Object>)
    requires IsInitialContext(args.base) && CanBeAdded(Object(args.obj.value, args.base), siblings)
    ensures siblings == []
  {
    if siblings != [] { assert Leq(args.base.vc, Clock(siblings[0])); }
  }

  /** No entry and no value hash: the base of a first write. */
  ghost predicate NothingKnown(base: Context) { base.etag == [] && forall n: Str :: Version(base.vc, n) == 0 }

  /**
   A put is accepted exactly when no stored sibling is equal to or after its base and, if the key is missing, its base is
   initial. A missing key and any other base is ErrNoKey, a sibling at or after the base is ErrVersion. A rejected put
   changes nothing, an accepted one no other key.
   */
  lemma PutExactly(at: Placement, s: Server, args: PutArgs)
    ensures var (t, err) := Put(at, s, args);
      && (err == OK <==> !Covers(Stored(s, args.key), args.base.vc) && (args.key in s.kv || NothingKnown(args.base)))
      && (err == ErrNoKey <==> args.key !in s.kv && !NothingKnown(args.base))
      && (err == ErrVersion <==> Covers(Stored(s, args.key), args.base.vc))
      && (err == OK || err == ErrNoKey || err == ErrVersion)
      && (err != OK ==> t == s)
      && (err == OK ==> t.kv.Keys == s.kv.Keys + {args.key} && t.hints == s.hints && t.dirty == s.dirty)
      && (forall key: Str | key != args.key :: Stored(t, key) == Stored(s, key))
  {
    var base := args.base;
    assert IsInitialContext(base) <==> NothingKnown(base) by {
      if NothingKnown(base) {
        forall n | n in base.vc ensures base.vc[n] == 0 { assert Version(base.vc, n) == 0; }
      }
    }
  }

  lemma PutKeeps(at: Placement, s: Server, args: PutArgs)
    requires StoreOk(at, s) && WellFormedPut(args)
    ensures StoreOk(at, Put(at, s, args).0)
  {
    var siblings := Stored(s, args.key);
    if Put(at, s, args).1 == OK {
      PutAddable(args, siblings);
      AddKeeps(siblings, args.obj);
      AddMembers(siblings, args.obj, args.obj);
      if IsInitialContext(args.base) { InitialOnlyFirst(args, siblings); }
      IndexAfterStore(at, s, args.key, Add(siblings, args.obj));
    }
  }

  lemma MergedSiblingsGood(at: Placement, s: Server, key: Str, incoming: seq<Object>)
    requires StoreOk(at, s) && incoming != []
    ensures GoodSiblings(Merge(Stored(s, key), incoming))
  {
    MergeKeeps(Stored(s, key), incoming);
  }

  lemma MergedKeeps(at: Placement, s: Server, key: Str, incoming: seq<Object>)
    requires StoreOk(at, s)
    ensures StoreOk(at, Merged(at, s, key, incoming))
  {
    if Changes(Stored(s, key), incoming) {
      MergedSiblingsGood(at, s, key, incoming);
      InstallKeeps(at, s, key, Merge(Stored(s, key), incoming));
    }
  }

  // ----- what no step loses

  /** A put is covered by the store afterwards, and covers nothing else that is new. */
  lemma PutCovers(at: Placement, s: Server, args: PutArgs, key: Str, v: VClock)
    ensures Covers(Stored(Put(at, s, args).0, key), v) <==>
      Covers(Stored(s, key), v) || (Put(at, s, args).1 == OK && key == args.key && Leq(v, Clock(args.obj)))
  {
    AddCovers(Stored(s, args.key), args.obj, v);
  }

  lemma MergedStored(at: Placement, s: Server, key: Str, incoming: seq<Object>, k: Str)
    ensures Stored(Merged(at, s, key, incoming), k) == if k == key then Merge(Stored(s, key), incoming) else Stored(s, k)
    ensures key in Merged(at, s, key, incoming).kv <==> key in s.kv || incoming != []
    ensures Merged(at, s, key, incoming).hints == s.hints
  {
    MergeKeeps(Stored(s, key), incoming);
    if Changes(Stored(s, key), incoming) {
      var i :| 0 <= i < |incoming| && CanBeAdded(incoming[i], Stored(s, key));
      assert incoming[i] in incoming;
    } else {
      forall o | o in incoming ensures Covers(Stored(s, key), Clock(o)) {
        var i :| 0 <= i < |incoming| && incoming[i] == o;
        assert !CanBeAdded(incoming[i], Stored(s, key));
      }
      MergeKnown(Stored(s, key), incoming);
      if incoming != [] { assert Covers(Stored(s, key), Clock(incoming[0])); }
    }
  }

  /** A merge in one step never rolls a key back, and learns exactly what came in. */
  lemma MergedCovers(at: Placement, s: Server, key: Str, incoming: seq<Object>, k: Str, v: VClock)
    ensures Covers(Stored(Merged(at, s, key, incoming), k), v) <==> Covers(Stored(s, k), v) || (k == key && Covers(incoming, v))
  {
    MergedStored(at, s, key, incoming, k);
    MergeCovers(Stored(s, key), incoming, v);
  }
}
