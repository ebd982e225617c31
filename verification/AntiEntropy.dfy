/**
 Anti-entropy between two servers (src/kvsrv/anti_entropy.go:56-167): exchange a summary, merge the
 keys of the differing buckets here, and send the merged siblings back.
 */
module AntiEntropy {
  import opened Base
  import opened VectorClock
  import opened Siblings
  import opened SiblingAlgebra
  import opened Serialization
  import opened MerkleTree
  import opened DiffBuckets
  import opened Replica

  datatype KeyInfo = KeyInfo(key: Str, objects: seq<Object>)

  /** snapshotSector: the sector's bucket lists and the siblings of every listed key. */
  function SnapshotOf(s: Server, sector: nat): Snapshot
    requires sector < |s.index|
  {
    var buckets := s.index[sector];
    Snapshot(buckets, map k | k in SectorKeys(buckets) :: Stored(s, k))
  }

  function SectorKeys(buckets: seq<seq<Str>>): set<Str> {
    set b, k | 0 <= b < |buckets| && k in buckets[b] :: k
  }

  /** The digest of a bucket without keys, which IsEmptyHash compares with. */
  ghost function EmptyDigest(H: Str -> Digest): Digest { H(LeafBytes([], map[])) }

  ghost function Streams(H: Str -> Digest, snap: Snapshot): set<Str>
    requires snap.keysPerBucket != []
  {
    var sum := Summary(H, snap);
    (set b | 0 <= b < |snap.keysPerBucket| :: BucketBytes(snap, b))
    + (set i | 0 <= i < |sum| && 2 * i + 2 < |sum| :: InternalBytes(sum[2 * i + 1], Some(sum[2 * i + 2])))
  }

  /** No two of the streams that are actually hashed have the same digest. */
  ghost predicate CollisionFree(H: Str -> Digest, streams: set<Str>) {
    forall x, y | x in streams && y in streams :: H(x) == H(y) ==> x == y
  }

  ghost predicate NoCollisions(H: Str -> Digest, mine: Snapshot, theirs: Snapshot)
    requires mine.keysPerBucket != [] && theirs.keysPerBucket != []
  {
    CollisionFree(H, Streams(H, mine) + Streams(H, theirs) + {LeafBytes([], map[])})
  }

  ghost function SummaryPair(H: Str -> Digest, mine: Snapshot, theirs: Snapshot): Pair
    requires mine.keysPerBucket != [] && theirs.keysPerBucket != []
  {
    Pair(Summary(H, mine), Summary(H, theirs), EmptyDigest(H))
  }

  /** Entry i is the digest of its children's digests. */
  predicate InternalEntry(H: Str -> Digest, sum: seq<Digest>, i: nat) {
    2 * i + 2 < |sum| && sum[i] == H(InternalBytes(sum[2 * i + 1], Some(sum[2 * i + 2])))
  }

  lemma JoinedEntry(H: Str -> Digest, hs: seq<Merkle>, i: nat)
    requires Joined(H, hs, i)
    ensures InternalEntry(H, Hashes(hs), i)
  {
  }

  lemma SummaryEntries(H: Str -> Digest, snap: Snapshot, k: nat)
    requires |snap.keysPerBucket| == Pow2(k)
    ensures snap.keysPerBucket != []
    ensures var sum, n := Summary(H, snap), |snap.keysPerBucket|;
      && |sum| == 2 * n - 1
      && (forall b | 0 <= b < n :: sum[n - 1 + b] == H(BucketBytes(snap, b)))
      && (forall i | 0 <= i < n - 1 :: InternalEntry(H, sum, i))
  {
    SummaryIsHeapOrder(H, snap, k);
    var xs := Leaves(H, snap);
    var hs := HeapNodes(H, xs);
    var sum, n := Summary(H, snap), |snap.keysPerBucket|;
    hide HeapNodes, Joined;
    forall b | 0 <= b < n ensures sum[n - 1 + b] == H(BucketBytes(snap, b)) {
      assert hs[n - 1 + b] == xs[b];
      assert xs[b] == LeafOf(H, snap, b);
    }
    forall i: nat | i < n - 1 ensures InternalEntry(H, sum, i) {
      JoinedEntry(H, hs, i);
    }
  }

  lemma InternalStream(H: Str -> Digest, snap: Snapshot, i: nat)
    requires snap.keysPerBucket != [] && 2 * i + 2 < |Summary(H, snap)|
    ensures InternalBytes(Summary(H, snap)[2 * i + 1], Some(Summary(H, snap)[2 * i + 2])) in Streams(H, snap)
  {
  }

  /** What collision-free digests say about one internal position. */
  lemma PositionConsistent(H: Str -> Digest, mine: Snapshot, theirs: Snapshot, i: nat)
    requires mine.keysPerBucket != [] && theirs.keysPerBucket != [] && NoCollisions(H, mine, theirs)
    requires InternalEntry(H, Summary(H, mine), i) && InternalEntry(H, Summary(H, theirs), i)
    ensures Summary(H, mine)[i] != EmptyDigest(H)
    ensures Summary(H, mine)[i] == Summary(H, theirs)[i] ==>
      && Summary(H, mine)[2 * i + 1] == Summary(H, theirs)[2 * i + 1]
      && Summary(H, mine)[2 * i + 2] == Summary(H, theirs)[2 * i + 2]
  {
    InternalStream(H, mine, i);
    InternalStream(H, theirs, i);
    var a, b := Summary(H, mine), Summary(H, theirs);
    var x, y := InternalBytes(a[2 * i + 1], Some(a[2 * i + 2])), InternalBytes(b[2 * i + 1], Some(b[2 * i + 2]));
    if x == y { InternalBytesDecodable(a[2 * i + 1], Some(a[2 * i + 2]), b[2 * i + 1], Some(b[2 * i + 2])); }
    LeafIsNotInternal([], map[], a[2 * i + 1], Some(a[2 * i + 2]));
  }

  lemma PairConsistentAt(H: Str -> Digest, mine: Snapshot, theirs: Snapshot, k: nat, i: nat)
    requires |mine.keysPerBucket| == |theirs.keysPerBucket| == Pow2(k)
    requires mine.keysPerBucket != [] && theirs.keysPerBucket != [] && NoCollisions(H, mine, theirs)
    requires i < |mine.keysPerBucket| - 1 && SummaryPair(H, mine, theirs).Sized()
    requires |Summary(H, mine)| == 2 * |mine.keysPerBucket| - 1
    ensures SummaryPair(H, mine, theirs).ConsistentAt(i)
  {
    hide Summary, NoCollisions, InternalEntry, EmptyDigest, Pow2;
    SummaryEntries(H, mine, k);
    SummaryEntries(H, theirs, k);
    PositionConsistent(H, mine, theirs, i);
  }

  /** Collision-free digests make the pruned search sound. */
  lemma SummariesConsistent(H: Str -> Digest, mine: Snapshot, theirs: Snapshot, k: nat)
    requires |mine.keysPerBucket| == |theirs.keysPerBucket| == Pow2(k)
    requires mine.keysPerBucket != [] && theirs.keysPerBucket != [] && NoCollisions(H, mine, theirs)
    ensures SummaryPair(H, mine, theirs).Consistent()
    ensures |Summary(H, mine)| == |Summary(H, theirs)| == 2 * |mine.keysPerBucket| - 1
  {
    hide *;
    var p, n := SummaryPair(H, mine, theirs), |mine.keysPerBucket|;
    SummarySizes(H, mine, theirs, k);
    forall i: nat | i < |p.mine| / 2 ensures p.ConsistentAt(i) {
      PairConsistentAt(H, mine, theirs, k, i);
    }
    ConsistentIntro(p);
  }

  lemma ConsistentIntro(p: Pair)
    requires p.Sized() && forall i: nat | i < |p.mine| / 2 :: p.ConsistentAt(i)
    ensures p.Consistent()
  {
  }

  lemma SummarySizes(H: Str -> Digest, mine: Snapshot, theirs: Snapshot, k: nat)
    requires |mine.keysPerBucket| == |theirs.keysPerBucket| == Pow2(k)
    requires mine.keysPerBucket != [] && theirs.keysPerBucket != []
    ensures SummaryPair(H, mine, theirs).Sized() && SummaryPair(H, mine, theirs).mine == Summary(H, mine)
    ensures |Summary(H, mine)| == |Summary(H, theirs)| == 2 * |mine.keysPerBucket| - 1
  {
    SummaryEntries(H, mine, k);
    SummaryEntries(H, theirs, k);
    hide Summary;
  }

  // ----- RepairGetDiff and ApplyDiff

  function KeyInfosOf(s: Server, keys: seq<Str>): seq<KeyInfo> {
    seq(|keys|, i requires 0 <= i < |keys| => KeyInfo(keys[i], Stored(s, keys[i])))
  }

  /** The key infos of the given buckets, in order. */
  function Collected(s: Server, sector: nat, buckets: seq<nat>): seq<KeyInfo> {
    if buckets == [] then []
    else KeyInfosOf(s, Bucket(s.index, (sector, buckets[0]))) + Collected(s, sector, buckets[1..])
  }

  /** RepairGetDiff with any cached trees, stale or not, whose summaries are the pair's. */
  function ReplyFrom(s: Server, sector: nat, p: Pair): seq<KeyInfo>
    requires p.Sized()
  {
    if !p.Differs(0) then [] else Collected(s, sector, p.Found(|p.mine|))
  }

  /** RepairGetDiff with a fresh tree: the reply to a neighbour that sent `summary`. */
  ghost function DiffReply(H: Str -> Digest, s: Server, sector: nat, summary: seq<Digest>): seq<KeyInfo>
    requires sector < |s.index| && s.index[sector] != []
    requires Pair(Summary(H, SnapshotOf(s, sector)), summary, EmptyDigest(H)).Sized()
  {
    ReplyFrom(s, sector, Pair(Summary(H, SnapshotOf(s, sector)), summary, EmptyDigest(H)))
  }

  /** ApplyDiff: merge here, then send the merged siblings to the neighbour, key by key. */
  function Exchanged(at: Placement, a: Server, n: Server, infos: seq<KeyInfo>): (Server, Server)
    decreases infos
  {
    if infos == [] then (a, n)
    else
      var key, objects := infos[0].key, infos[0].objects;
      var view := if objects == [] then [] else Merge(Stored(a, key), objects);
      Exchanged(at, Merged(at, a, key, objects), if view == [] then n else Merged(at, n, key, view), infos[1..])
  }

  /** Reconcile of `a` with its neighbour `n`, both trees fresh and every message delivered. */
  ghost function Reconciled(H: Str -> Digest, at: Placement, a: Server, n: Server, sector: nat): (Server, Server)
    requires sector < |a.index| && a.index[sector] != [] && sector < |n.index| && n.index[sector] != []
    requires SummaryPair(H, SnapshotOf(n, sector), SnapshotOf(a, sector)).Sized()
  {
    Exchanged(at, a, n, DiffReply(H, n, sector, Summary(H, SnapshotOf(a, sector))))
  }

  predicate ListsKey(infos: seq<KeyInfo>, key: Str) {
    exists i | 0 <= i < |infos| :: infos[i].key == key
  }

  predicate DistinctKeys(infos: seq<KeyInfo>) {
    forall i, j | 0 <= i < j < |infos| :: infos[i].key != infos[j].key
  }

  /** The infos carry what the server stores. */
  predicate Current(n: Server, infos: seq<KeyInfo>) {
    forall i | 0 <= i < |infos| :: infos[i].objects == Stored(n, infos[i].key)
  }

  /** After the exchange both sides know, of a listed key, what either knew; other keys are untouched. */
  lemma {:induction false} ExchangeCovers(at: Placement, a: Server, n: Server, infos: seq<KeyInfo>, key: Str, v: VClock)
    requires DistinctKeys(infos) && Current(n, infos)
    ensures var (a', n') := Exchanged(at, a, n, infos);
      if ListsKey(infos, key) then
        && (Covers(Stored(a', key), v) <==> Covers(Stored(a, key), v) || Covers(Stored(n, key), v))
        && (Stored(n, key) != [] ==> (Covers(Stored(n', key), v) <==> Covers(Stored(a, key), v) || Covers(Stored(n, key), v)))
      else Stored(a', key) == Stored(a, key) && Stored(n', key) == Stored(n, key)
    decreases infos
  {
    if infos != [] {
      var k, objects := infos[0].key, infos[0].objects;
      var view := if objects == [] then [] else Merge(Stored(a, k), objects);
      var a1, n1 := Merged(at, a, k, objects), if view == [] then n else Merged(at, n, k, view);
      var rest := infos[1..];
      MergedStored(at, a, k, objects, key);
      MergedStored(at, n, k, view, key);
      MergeCovers(Stored(a, k), objects, v);
      MergeCovers(Stored(n, k), view, v);
      MergeKeeps(Stored(a, k), objects);
      assert !ListsKey(rest, k);
      forall i | 0 <= i < |rest| ensures rest[i].objects == Stored(n1, rest[i].key) {
        assert infos[i + 1] == rest[i];
        MergedStored(at, n, k, view, rest[i].key);
      }
      ExchangeCovers(at, a1, n1, rest, key, v);
      assert ListsKey(infos, key) <==> k == key || ListsKey(rest, key) by {
        if ListsKey(rest, key) { var i :| 0 <= i < |rest| && rest[i].key == key; assert infos[i + 1].key == key; }
        assert k == key ==> infos[0].key == key;
      }
    }
  }
}
