/**
 What a round of anti-entropy achieves: after one Reconcile the two servers agree on every key the
 neighbour held in the sector, and after a second one in the other direction on the whole sector.
 */
module Convergence {
  import opened Base
  import opened VectorClock
  import opened Siblings
  import opened SiblingAlgebra
  import opened SiblingOrder
  import opened Serialization
  import opened MerkleTree
  import opened DiffBuckets
  import opened Replica
  import opened AntiEntropy

  /** Lengths, timestamps and versions of the sector are within the Go types' ranges. */
  ghost predicate SectorFits(s: Server, sector: nat)
    requires sector < |s.index|
  {
    forall b: nat | b < |s.index[sector]| :: BucketFits(SortNames(s.index[sector][b]), SnapshotOf(s, sector).siblings)
  }

  /** Two good stores with fresh trees of 2^k buckets, and no collision among the streams they hash. */
  ghost predicate Ready(H: Str -> Digest, at: Placement, a: Server, n: Server, sector: nat, k: nat) {
    && StoreOk(at, a) && StoreOk(at, n)
    && sector < |a.index| && sector < |n.index| && a.index[sector] != [] && n.index[sector] != []
    && |a.index[sector]| == |n.index[sector]| == Pow2(k)
    && SectorFits(a, sector) && SectorFits(n, sector)
    && NoCollisions(H, SnapshotOf(n, sector), SnapshotOf(a, sector))
  }

  // ----- which keys a reply lists

  lemma BucketOf(at: Placement, s: Server, place: (nat, nat), key: Str)
    requires StoreOk(at, s)
    ensures key in Bucket(s.index, place) <==> key in s.kv && at(key) == place
    ensures Distinct(Bucket(s.index, place))
  {
    assert InIndex(s.index, at(key));
    var keys := Bucket(s.index, place);
    if InIndex(s.index, place) {
      assert key in keys <==> key in multiset(keys);
      forall i, j | 0 <= i < j < |keys| ensures keys[i] != keys[j] {
        RepeatCounts(keys, i, j);
        assert InIndex(s.index, at(keys[i]));
        assert multiset(Bucket(s.index, place))[keys[i]] <= 1;
      }
    }
  }

  lemma {:induction false} CollectedLists(s: Server, sector: nat, buckets: seq<nat>, key: Str)
    ensures ListsKey(Collected(s, sector, buckets), key) <==> exists b | b in buckets :: key in Bucket(s.index, (sector, b))
    ensures Current(s, Collected(s, sector, buckets))
  {
    if buckets != [] {
      var keys, rest := Bucket(s.index, (sector, buckets[0])), Collected(s, sector, buckets[1..]);
      CollectedLists(s, sector, buckets[1..], key);
      assert buckets == [buckets[0]] + buckets[1..];
      ListsConcat(KeyInfosOf(s, keys), rest, key);
      KeyInfosList(s, keys, key);
    }
  }

  lemma ListsConcat(x: seq<KeyInfo>, y: seq<KeyInfo>, key: Str)
    ensures ListsKey(x + y, key) <==> ListsKey(x, key) || ListsKey(y, key)
  {
    if ListsKey(x, key) { var i :| 0 <= i < |x| && x[i].key == key; assert (x + y)[i].key == key; }
    if ListsKey(y, key) { var i :| 0 <= i < |y| && y[i].key == key; assert (x + y)[|x| + i].key == key; }
  }

  lemma KeyInfosList(s: Server, keys: seq<Str>, key: Str)
    ensures ListsKey(KeyInfosOf(s, keys), key) <==> key in keys
  {
    if key in keys { var i :| 0 <= i < |keys| && keys[i] == key; assert KeyInfosOf(s, keys)[i].key == key; }
  }

  lemma {:induction false} CollectedDistinct(at: Placement, s: Server, sector: nat, buckets: seq<nat>)
    requires StoreOk(at, s) && Distinct(buckets)
    ensures DistinctKeys(Collected(s, sector, buckets))
  {
    if buckets != [] {
      var b := buckets[0];
      var x, y := KeyInfosOf(s, Bucket(s.index, (sector, b))), Collected(s, sector, buckets[1..]);
      CollectedDistinct(at, s, sector, buckets[1..]);
      BucketOf(at, s, (sector, b), []);
      forall i, j | 0 <= i < |x| && 0 <= j < |y| ensures x[i].key != y[j].key {
        var key := y[j].key;
        assert ListsKey(y, key);
        CollectedLists(s, sector, buckets[1..], key);
        var c :| c in buckets[1..] && key in Bucket(s.index, (sector, c));
        BucketOf(at, s, (sector, c), key);
        BucketOf(at, s, (sector, b), key);
        assert Bucket(s.index, (sector, b))[i] == x[i].key;
      }
      DistinctConcat(x, y);
    }
  }

  lemma DistinctConcat(x: seq<KeyInfo>, y: seq<KeyInfo>)
    requires DistinctKeys(x) && DistinctKeys(y)
    requires forall i, j | 0 <= i < |x| && 0 <= j < |y| :: x[i].key != y[j].key
    ensures DistinctKeys(x + y)
  {
    var z := x + y;
    forall i, j | 0 <= i < j < |z| ensures z[i].key != z[j].key {
      if i >= |x| { assert z[i] == y[i - |x|] && z[j] == y[j - |x|]; }
      else if j >= |x| { assert z[j] == y[j - |x|]; }
    }
  }

  // ----- equal leaves

  lemma WireClocks(s: seq<Object>, t: seq<Object>)
    requires SameWire(Canonical(s), Canonical(t))
    ensures SameClocks(s, t)
  {
    CanonicalPermutes(s);
    CanonicalPermutes(t);
    forall i | 0 <= i < |s| ensures HasClock(t, Clock(s[i])) { WireClock(s, t, i); }
    forall i | 0 <= i < |t| ensures HasClock(s, Clock(t[i])) { WireClock(t, s, i); }
  }

  lemma WireClock(s: seq<Object>, t: seq<Object>, i: nat)
    requires SameWire(Canonical(s), Canonical(t)) && i < |s|
    requires multiset(Canonical(s)) == multiset(s) && multiset(Canonical(t)) == multiset(t)
    ensures HasClock(t, Clock(s[i]))
  {
    var c, d := Canonical(s), Canonical(t);
    assert s[i] in multiset(c);
    var j :| 0 <= j < |c| && c[j] == s[i];
    assert WithoutETag(c[j]) == WithoutETag(d[j]);
    assert Clock(c[j]) == Clock(d[j]);
    assert d[j] in multiset(t);
    var l :| 0 <= l < |t| && t[l] == d[j];
    assert SameClock(Clock(s[i]), Clock(t[l]));
  }

  lemma SnapshotSiblings(s: Server, sector: nat, b: nat, key: Str)
    requires sector < |s.index| && b < |s.index[sector]| && key in s.index[sector][b]
    ensures SiblingsOf(SnapshotOf(s, sector).siblings, key) == Stored(s, key)
  {
    assert key in SectorKeys(s.index[sector]);
  }

  lemma SortedListing(at: Placement, s: Server, sector: nat, b: nat, key: Str)
    requires StoreOk(at, s) && sector < |s.index| && b < |s.index[sector]|
    ensures key in SortNames(s.index[sector][b]) <==> key in s.index[sector][b]
  {
    var keys := s.index[sector][b];
    assert Bucket(s.index, (sector, b)) == keys;
    BucketOf(at, s, (sector, b), key);
    SortNamesSorts(keys);
    assert key in SortNames(keys) <==> key in multiset(SortNames(keys));
    assert key in keys <==> key in multiset(keys);
  }

  /** Buckets with equal streams hold the same keys with the same clocks. */
  lemma EqualBuckets(at: Placement, a: Server, n: Server, sector: nat, b: nat, key: Str)
    requires StoreOk(at, a) && StoreOk(at, n) && sector < |a.index| && sector < |n.index|
    requires b < |a.index[sector]| && b < |n.index[sector]| && SectorFits(a, sector) && SectorFits(n, sector)
    requires BucketBytes(SnapshotOf(a, sector), b) == BucketBytes(SnapshotOf(n, sector), b)
    requires key in n.index[sector][b]
    ensures key in a.index[sector][b] && SameClocks(Stored(a, key), Stored(n, key))
  {
    var ka, kn := SortNames(a.index[sector][b]), SortNames(n.index[sector][b]);
    var sa, sn := SnapshotOf(a, sector).siblings, SnapshotOf(n, sector).siblings;
    LeafBytesDecodable(ka, sa, kn, sn);
    SortedListing(at, a, sector, b, key);
    SortedListing(at, n, sector, b, key);
    assert key in ka;
    SnapshotSiblings(a, sector, b, key);
    SnapshotSiblings(n, sector, b, key);
    WireClocks(Stored(a, key), Stored(n, key));
  }

  lemma OccupiedIsNotEmpty(at: Placement, n: Server, sector: nat, b: nat, key: Str)
    requires StoreOk(at, n) && sector < |n.index| && b < |n.index[sector]| && SectorFits(n, sector) && key in n.index[sector][b]
    ensures BucketBytes(SnapshotOf(n, sector), b) != LeafBytes([], map[])
  {
    var keys := SortNames(n.index[sector][b]);
    SortedListing(at, n, sector, b, key);
    assert key in keys;
    if BucketBytes(SnapshotOf(n, sector), b) == LeafBytes([], map[]) {
      LeafBytesDecodable(keys, SnapshotOf(n, sector).siblings, [], map[]);
    }
  }

  lemma {:induction false} RootDiffers(p: Pair, i: nat)
    requires p.Consistent() && i < |p.mine| && p.Differs(i)
    ensures p.Differs(0)
  {
    if i > 0 {
      var q := (i - 1) / 2;
      assert i == 2 * q + 1 || i == 2 * q + 2;
      assert p.ConsistentAt(q);
      RootDiffers(p, q);
    }
  }

  // ----- one round

  lemma {:induction false} ExchangeKeeps(at: Placement, a: Server, n: Server, infos: seq<KeyInfo>)
    requires StoreOk(at, a) && StoreOk(at, n)
    ensures StoreOk(at, Exchanged(at, a, n, infos).0) && StoreOk(at, Exchanged(at, a, n, infos).1)
    decreases infos
  {
    if infos != [] {
      var key, objects := infos[0].key, infos[0].objects;
      var view := if objects == [] then [] else Merge(Stored(a, key), objects);
      MergedKeeps(at, a, key, objects);
      MergedKeeps(at, n, key, view);
      hide StoreOk, Merged;
      ExchangeKeeps(at, Merged(at, a, key, objects), if view == [] then n else Merged(at, n, key, view), infos[1..]);
    }
  }

  lemma {:induction false} FoundIsAscending(p: Pair, m: nat)
    requires m <= |p.mine| == |p.theirs|
    ensures forall i, j | 0 <= i < j < |p.Found(m)| :: p.Found(m)[i] < p.Found(m)[j]
    ensures forall i | 0 <= i < |p.Found(m)| :: p.Found(m)[i] + |p.mine| / 2 < m
  {
    if m > 0 {
      FoundIsAscending(p, m - 1);
      var s := p.Found(m - 1);
      assert p.Found(m) == s || p.Found(m) == s + [m - 1 - |p.mine| / 2];
    }
  }

  /**
   A round between two good stores whose cached trees may be anything, stale ones included: each key of
   the neighbour in a reported bucket is known alike on both sides afterwards, every other key is untouched.
   */
  lemma AnyTreesSafe(at: Placement, a: Server, n: Server, sector: nat, p: Pair, key: Str, v: VClock)
    requires StoreOk(at, a) && StoreOk(at, n) && p.Sized()
    ensures var (a', n') := Exchanged(at, a, n, ReplyFrom(n, sector, p));
      && StoreOk(at, a') && StoreOk(at, n')
      && if key in n.kv && at(key).0 == sector && p.Differs(0) && at(key).1 in p.Found(|p.mine|) then
          && (Covers(Stored(a', key), v) <==> Covers(Stored(a, key), v) || Covers(Stored(n, key), v))
          && (Covers(Stored(n', key), v) <==> Covers(Stored(a, key), v) || Covers(Stored(n, key), v))
        else Stored(a', key) == Stored(a, key) && Stored(n', key) == Stored(n, key)
  {
    var infos, buckets := ReplyFrom(n, sector, p), p.Found(|p.mine|);
    FoundIsAscending(p, |p.mine|);
    assert Distinct(buckets);
    assert infos == if !p.Differs(0) then [] else Collected(n, sector, buckets);
    assert key in n.kv ==> Stored(n, key) != [];
    hide Exchanged, Covers, ReplyFrom;
    forall b: nat ensures key in Bucket(n.index, (sector, b)) <==> key in n.kv && at(key) == (sector, b) {
      BucketOf(at, n, (sector, b), key);
    }
    hide StoreOk, Bucket;
    CollectedLists(n, sector, buckets, key);
    CollectedDistinct(at, n, sector, buckets);
    NothingListed(n, key);
    assert ListsKey(infos, key) <==> key in n.kv && at(key).0 == sector && p.Differs(0) && at(key).1 in buckets;
    ExchangeKeeps(at, a, n, infos);
    ExchangeCovers(at, a, n, infos, key, v);
  }

  /** The roots differ, and the key is in a bucket that the scan lists. */
  ghost predicate Reports(p: Pair, index: Index, sector: nat, key: Str) {
    p.Sized() && p.Differs(0) && exists b | b in p.Scan(p.Buckets()) :: key in Bucket(index, (sector, b))
  }

  /** The neighbour's reply, and what it lists. */
  lemma ReplyLists(H: Str -> Digest, at: Placement, a: Server, n: Server, sector: nat, k: nat, key: Str) returns (infos: seq<KeyInfo>)
    requires Ready(H, at, a, n, sector, k)
    ensures SummaryPair(H, SnapshotOf(n, sector), SnapshotOf(a, sector)).Sized()
    ensures infos == DiffReply(H, n, sector, Summary(H, SnapshotOf(a, sector)))
    ensures DistinctKeys(infos) && Current(n, infos)
    ensures ListsKey(infos, key) <==> Reports(SummaryPair(H, SnapshotOf(n, sector), SnapshotOf(a, sector)), n.index, sector, key)
  {
    var sn, sa := SnapshotOf(n, sector), SnapshotOf(a, sector);
    SummariesConsistent(H, sn, sa, k);
    var p := SummaryPair(H, sn, sa);
    var buckets := ScannedBuckets(p);
    infos := DiffReply(H, n, sector, Summary(H, sa));
    assert infos == if !p.Differs(0) then [] else Collected(n, sector, buckets);
    var differs := p.Differs(0);
    assert Reports(p, n.index, sector, key) <==> differs && exists b | b in buckets :: key in Bucket(n.index, (sector, b));
    hide *;
    CollectedLists(n, sector, buckets, key);
    CollectedDistinct(at, n, sector, buckets);
    NothingListed(n, key);
  }

  lemma NothingListed(n: Server, key: Str)
    ensures !ListsKey([], key) && DistinctKeys([]) && Current(n, [])
  {
  }

  lemma ScannedBuckets(p: Pair) returns (buckets: seq<nat>)
    requires p.Consistent()
    ensures p.Sized() && buckets == p.Found(|p.mine|) == p.Scan(p.Buckets()) && Distinct(buckets)
  {
    FoundIsScan(p, p.Buckets());
    ScanIsAscending(p, p.Buckets());
    buckets := p.Found(|p.mine|);
  }

  lemma LeafDigest(H: Str -> Digest, mine: Snapshot, theirs: Snapshot, k: nat, b: nat)
    requires |mine.keysPerBucket| == |theirs.keysPerBucket| == Pow2(k) && b < |mine.keysPerBucket|
    requires mine.keysPerBucket != [] && theirs.keysPerBucket != [] && NoCollisions(H, mine, theirs)
    ensures var p := SummaryPair(H, mine, theirs);
      && p.Sized() && p.Buckets() == |mine.keysPerBucket|
      && (p.Differs(|p.mine| / 2 + b) <==> BucketBytes(mine, b) != BucketBytes(theirs, b))
      && (p.mine[|p.mine| / 2 + b] == p.empty <==> BucketBytes(mine, b) == LeafBytes([], map[]))
  {
    hide Summary, BucketBytes, LeafBytes, NoCollisions, EmptyDigest, Pow2;
    LeafEntry(H, mine, k, b);
    LeafEntry(H, theirs, k, b);
    StreamsDiffer(H, mine, theirs, b);
    PairAt(Summary(H, mine), Summary(H, theirs), EmptyDigest(H), |mine.keysPerBucket|, b);
  }

  lemma PairAt(mine: seq<Digest>, theirs: seq<Digest>, empty: Digest, n: nat, b: nat)
    requires |mine| == |theirs| == 2 * n - 1 && b < n
    ensures var p := Pair(mine, theirs, empty);
      && p.Sized() && p.Buckets() == n && |p.mine| / 2 == n - 1
      && (p.Differs(|p.mine| / 2 + b) <==> mine[n - 1 + b] != theirs[n - 1 + b])
  {
  }

  lemma LeafEntry(H: Str -> Digest, snap: Snapshot, k: nat, b: nat)
    requires |snap.keysPerBucket| == Pow2(k) && b < |snap.keysPerBucket|
    ensures snap.keysPerBucket != [] && |Summary(H, snap)| == 2 * |snap.keysPerBucket| - 1
    ensures Summary(H, snap)[|snap.keysPerBucket| - 1 + b] == H(BucketBytes(snap, b))
  {
    SummaryEntries(H, snap, k);
  }

  lemma StreamsDiffer(H: Str -> Digest, mine: Snapshot, theirs: Snapshot, b: nat)
    requires mine.keysPerBucket != [] && theirs.keysPerBucket != [] && NoCollisions(H, mine, theirs)
    requires b < |mine.keysPerBucket| && b < |theirs.keysPerBucket|
    ensures H(BucketBytes(mine, b)) == H(BucketBytes(theirs, b)) <==> BucketBytes(mine, b) == BucketBytes(theirs, b)
    ensures H(BucketBytes(mine, b)) == EmptyDigest(H) <==> BucketBytes(mine, b) == LeafBytes([], map[])
  {
    assert BucketBytes(mine, b) in Streams(H, mine) && BucketBytes(theirs, b) in Streams(H, theirs);
  }

  lemma FoundByScan(p: Pair, b: nat)
    requires p.Consistent() && b < p.Buckets() && p.Differs(|p.mine| / 2 + b) && p.mine[|p.mine| / 2 + b] != p.empty
    ensures p.Differs(0) && b in p.Scan(p.Buckets())
  {
    RootDiffers(p, |p.mine| / 2 + b);
    ScanIsAscending(p, p.Buckets());
    assert p.Listed(b);
  }

  lemma ReadySizes(H: Str -> Digest, at: Placement, a: Server, n: Server, sector: nat, k: nat)
    requires Ready(H, at, a, n, sector, k)
    ensures var sn, sa := SnapshotOf(n, sector), SnapshotOf(a, sector);
      && sn.keysPerBucket == n.index[sector] && |sn.keysPerBucket| == |sa.keysPerBucket| == Pow2(k)
      && sn.keysPerBucket != [] && sa.keysPerBucket != [] && NoCollisions(H, sn, sa)
  {
  }

  lemma ScannedIsReported(p: Pair, index: Index, sector: nat, b: nat, key: Str)
    requires p.Sized() && p.Differs(0) && b in p.Scan(p.Buckets())
    requires sector < |index| && b < |index[sector]| && key in index[sector][b]
    ensures Reports(p, index, sector, key)
  {
    assert key in Bucket(index, (sector, b));
  }

  lemma PairReports(H: Str -> Digest, mine: Snapshot, theirs: Snapshot, k: nat, index: Index, sector: nat, b: nat, key: Str)
    requires |mine.keysPerBucket| == |theirs.keysPerBucket| == Pow2(k) && b < |mine.keysPerBucket|
    requires mine.keysPerBucket != [] && theirs.keysPerBucket != [] && NoCollisions(H, mine, theirs)
    requires BucketBytes(mine, b) != BucketBytes(theirs, b) && BucketBytes(mine, b) != LeafBytes([], map[])
    requires sector < |index| && b < |index[sector]| && key in index[sector][b]
    ensures Reports(SummaryPair(H, mine, theirs), index, sector, key)
  {
    hide BucketBytes, LeafBytes, NoCollisions, SummaryPair, Pow2, Reports;
    LeafDigest(H, mine, theirs, k, b);
    SummariesConsistent(H, mine, theirs, k);
    FoundByScan(SummaryPair(H, mine, theirs), b);
    ScannedIsReported(SummaryPair(H, mine, theirs), index, sector, b, key);
  }

  /** An occupied bucket that differs is found. */
  lemma DifferenceListed(H: Str -> Digest, at: Placement, a: Server, n: Server, sector: nat, k: nat, b: nat, key: Str)
    requires Ready(H, at, a, n, sector, k) && b < |n.index[sector]| && key in n.index[sector][b]
    requires BucketBytes(SnapshotOf(n, sector), b) != BucketBytes(SnapshotOf(a, sector), b)
    ensures Reports(SummaryPair(H, SnapshotOf(n, sector), SnapshotOf(a, sector)), n.index, sector, key)
  {
    var sn, sa := SnapshotOf(n, sector), SnapshotOf(a, sector);
    hide BucketBytes, LeafBytes, NoCollisions, StoreOk, SnapshotOf, SummaryPair, Pow2, SectorFits, Reports;
    ReadySizes(H, at, a, n, sector, k);
    OccupiedIsNotEmpty(at, n, sector, b, key);
    PairReports(H, sn, sa, k, n.index, sector, b, key);
  }

  /** A key the neighbour holds is either in equal buckets, with equal clocks, or in its reply. */
  lemma HeldKey(H: Str -> Digest, at: Placement, a: Server, n: Server, sector: nat, k: nat, key: Str) returns (infos: seq<KeyInfo>)
    requires Ready(H, at, a, n, sector, k) && key in n.kv && at(key).0 == sector
    ensures SummaryPair(H, SnapshotOf(n, sector), SnapshotOf(a, sector)).Sized()
    ensures infos == DiffReply(H, n, sector, Summary(H, SnapshotOf(a, sector)))
    ensures DistinctKeys(infos) && Current(n, infos)
    ensures !ListsKey(infos, key) ==> SameClocks(Stored(a, key), Stored(n, key))
  {
    var sn, sa, b := SnapshotOf(n, sector), SnapshotOf(a, sector), at(key).1;
    hide BucketBytes, LeafBytes, NoCollisions, Indexed;
    infos := ReplyLists(H, at, a, n, sector, k, key);
    BucketOf(at, n, (sector, b), key);
    assert key in n.index[sector][b];
    if BucketBytes(sn, b) == BucketBytes(sa, b) {
      EqualBuckets(at, a, n, sector, b, key);
    } else {
      DifferenceListed(H, at, a, n, sector, k, b, key);
    }
  }

  /** One Reconcile leaves both servers with the same maximal clocks for every key the neighbour held in the sector. */
  lemma RoundConverges(H: Str -> Digest, at: Placement, a: Server, n: Server, sector: nat, k: nat, key: Str)
    requires Ready(H, at, a, n, sector, k) && key in n.kv && at(key).0 == sector
    ensures SummaryPair(H, SnapshotOf(n, sector), SnapshotOf(a, sector)).Sized()
    ensures var (a', n') := Reconciled(H, at, a, n, sector);
      SameClocks(Stored(a', key), Stored(n', key)) && key in a'.kv && key in n'.kv
  {
    var infos := HeldKey(H, at, a, n, sector, k, key);
    ExchangedAgrees(at, a, n, infos, key);
  }

  lemma ExchangedAgrees(at: Placement, a: Server, n: Server, infos: seq<KeyInfo>, key: Str)
    requires StoreOk(at, a) && StoreOk(at, n) && key in n.kv && DistinctKeys(infos) && Current(n, infos)
    requires !ListsKey(infos, key) ==> SameClocks(Stored(a, key), Stored(n, key))
    ensures var (a', n') := Exchanged(at, a, n, infos);
      SameClocks(Stored(a', key), Stored(n', key)) && key in a'.kv && key in n'.kv
  {
    var (a', n') := Exchanged(at, a, n, infos);
    ExchangeKeeps(at, a, n, infos);
    assert GoodSiblings(n.kv[key]);
    ExchangeCovers(at, a, n, infos, key, map[]);
    if ListsKey(infos, key) {
      forall v: VClock ensures Covers(Stored(a', key), v) <==> Covers(Stored(n', key), v) {
        ExchangeCovers(at, a, n, infos, key, v);
      }
      StoredAntichain(at, a', key);
      StoredAntichain(at, n', key);
      AntichainDeterminedByCover(Stored(a', key), Stored(n', key));
      CoversMember(Stored(n, key), Stored(n, key)[0]);
      ExchangeCovers(at, a, n, infos, key, Clock(Stored(n, key)[0]));
    } else {
      assert HasClock(Stored(a, key), Clock(Stored(n, key)[0]));
    }
  }

  lemma StoredAntichain(at: Placement, s: Server, key: Str)
    requires StoreOk(at, s)
    ensures Antichain(Stored(s, key))
  {
    if key in s.kv { assert GoodSiblings(s.kv[key]); }
  }

  // ----- two rounds

  lemma InstallShape(at: Placement, s: Server, key: Str, objects: seq<Object>, sector: nat)
    requires sector < |s.index|
    ensures sector < |Install(at, s, key, objects).index|
    ensures |Install(at, s, key, objects).index[sector]| == |s.index[sector]|
  {
  }

  lemma {:induction false} ExchangeShape(at: Placement, a: Server, n: Server, infos: seq<KeyInfo>, sector: nat)
    requires sector < |a.index| && sector < |n.index|
    ensures var (a', n') := Exchanged(at, a, n, infos);
      && sector < |a'.index| && |a'.index[sector]| == |a.index[sector]|
      && sector < |n'.index| && |n'.index[sector]| == |n.index[sector]|
    decreases infos
  {
    if infos != [] {
      var key, objects := infos[0].key, infos[0].objects;
      var view := if objects == [] then [] else Merge(Stored(a, key), objects);
      InstallShape(at, a, key, Merge(Stored(a, key), objects), sector);
      InstallShape(at, n, key, Merge(Stored(n, key), view), sector);
      hide Install, Changes;
      ExchangeShape(at, Merged(at, a, key, objects), if view == [] then n else Merged(at, n, key, view), infos[1..], sector);
    }
  }

  /** What a round assumes of the data: ranges of the Go types, and no collisions. */
  ghost predicate Hashable(H: Str -> Digest, a: Server, n: Server, sector: nat) {
    && sector < |a.index| && sector < |n.index| && a.index[sector] != [] && n.index[sector] != []
    && SectorFits(a, sector) && SectorFits(n, sector)
    && NoCollisions(H, SnapshotOf(n, sector), SnapshotOf(a, sector))
  }

  lemma SizedWhenReady(H: Str -> Digest, at: Placement, a: Server, n: Server, sector: nat, k: nat)
    requires Ready(H, at, a, n, sector, k)
    ensures SummaryPair(H, SnapshotOf(n, sector), SnapshotOf(a, sector)).Sized()
  {
    SummariesConsistent(H, SnapshotOf(n, sector), SnapshotOf(a, sector), k);
  }

  /** After a round the stores are good and of the same shape, so only the data can stand in the way of the next. */
  lemma ReadyAgain(H: Str -> Digest, at: Placement, a: Server, n: Server, sector: nat, k: nat)
    requires Ready(H, at, a, n, sector, k)
    ensures SummaryPair(H, SnapshotOf(n, sector), SnapshotOf(a, sector)).Sized()
    ensures var (a', n') := Reconciled(H, at, a, n, sector); Hashable(H, n', a', sector) ==> Ready(H, at, n', a', sector, k)
  {
    SizedWhenReady(H, at, a, n, sector, k);
    var infos := DiffReply(H, n, sector, Summary(H, SnapshotOf(a, sector)));
    ExchangeKeeps(at, a, n, infos);
    ExchangeShape(at, a, n, infos, sector);
    hide StoreOk, Summary, NoCollisions, SectorFits, Exchanged;
  }

  lemma KnownIffStored(at: Placement, s: Server, key: Str)
    requires StoreOk(at, s)
    ensures Covers(Stored(s, key), map[]) <==> key in s.kv
    ensures key !in s.kv ==> Stored(s, key) == []
  {
    if key in s.kv {
      assert GoodSiblings(s.kv[key]);
      assert Leq(map[], Clock(s.kv[key][0]));
    }
  }

  /** A key that the neighbour does not hold is not touched by the round. */
  lemma ForeignKeyUntouched(H: Str -> Digest, at: Placement, a: Server, n: Server, sector: nat, k: nat, key: Str)
    requires Ready(H, at, a, n, sector, k) && key !in n.kv
    ensures SummaryPair(H, SnapshotOf(n, sector), SnapshotOf(a, sector)).Sized()
    ensures var (a', n') := Reconciled(H, at, a, n, sector);
      && StoreOk(at, a') && StoreOk(at, n')
      && Stored(a', key) == Stored(a, key) && Stored(n', key) == Stored(n, key)
  {
    var infos := ReplyLists(H, at, a, n, sector, k, key);
    if ListsKey(infos, key) {
      var p := SummaryPair(H, SnapshotOf(n, sector), SnapshotOf(a, sector));
      var b :| b in p.Scan(p.Buckets()) && key in Bucket(n.index, (sector, b));
      BucketOf(at, n, (sector, b), key);
    }
    ExchangeCovers(at, a, n, infos, key, map[]);
    ExchangeKeeps(at, a, n, infos);
  }

  lemma SameClocksFlip(s: seq<Object>, t: seq<Object>)
    requires SameClocks(s, t)
    ensures SameClocks(t, s)
  {
  }

  /** A second round, started by the neighbour, makes the two servers agree on the whole sector. */
  lemma TwoRoundsConverge(H: Str -> Digest, at: Placement, a: Server, n: Server, sector: nat, k: nat, key: Str)
    requires Ready(H, at, a, n, sector, k) && at(key).0 == sector
    requires SummaryPair(H, SnapshotOf(n, sector), SnapshotOf(a, sector)).Sized()
    requires var (a1, n1) := Reconciled(H, at, a, n, sector); Hashable(H, n1, a1, sector)
    ensures var (a1, n1) := Reconciled(H, at, a, n, sector);
      && SummaryPair(H, SnapshotOf(a1, sector), SnapshotOf(n1, sector)).Sized()
      && var (n2, a2) := Reconciled(H, at, n1, a1, sector);
         (key in a2.kv <==> key in n2.kv) && SameClocks(Stored(a2, key), Stored(n2, key))
  {
    var (a1, n1) := Reconciled(H, at, a, n, sector);
    ReadyAgain(H, at, a, n, sector, k);
    SizedWhenReady(H, at, n1, a1, sector, k);
    if key in n.kv { RoundConverges(H, at, a, n, sector, k, key); }
    SecondRound(H, at, a, n, a1, n1, sector, k, key);
  }

  lemma SecondRound(H: Str -> Digest, at: Placement, a: Server, n: Server, a1: Server, n1: Server, sector: nat, k: nat, key: Str)
    requires Ready(H, at, a, n, sector, k) && Ready(H, at, n1, a1, sector, k) && at(key).0 == sector
    requires SummaryPair(H, SnapshotOf(n, sector), SnapshotOf(a, sector)).Sized()
    requires SummaryPair(H, SnapshotOf(a1, sector), SnapshotOf(n1, sector)).Sized()
    requires (a1, n1) == Reconciled(H, at, a, n, sector) && (key in n.kv ==> key in a1.kv)
    ensures var (n2, a2) := Reconciled(H, at, n1, a1, sector);
      (key in a2.kv <==> key in n2.kv) && SameClocks(Stored(a2, key), Stored(n2, key))
  {
    hide Reconciled, SummaryPair, Summary;
    var (n2, a2) := Reconciled(H, at, n1, a1, sector);
    if key in a1.kv {
      RoundConverges(H, at, n1, a1, sector, k, key);
      SameClocksFlip(Stored(n2, key), Stored(a2, key));
    } else {
      ForeignKeyUntouched(H, at, a, n, sector, k, key);
      ForeignKeyUntouched(H, at, n1, a1, sector, k, key);
      KnownIffStored(at, n1, key);
      KnownIffStored(at, n, key);
      KnownIffStored(at, a1, key);
      KnownIffStored(at, n2, key);
      KnownIffStored(at, a2, key);
    }
  }
}
