/**
 Merkle trees over the buckets of a sector (src/kvsrv/merkle.go:65-323).

 Nodes are values: the parent pointers, which no code reads, are not modelled, and SHA-256 is a
 parameter `H` from streams to digests.
 */
module MerkleTree {
  import opened Base
  import opened VectorClock
  import opened Siblings
  import opened SiblingOrder
  import opened Serialization

  type Digest = d: Str | |d| == 32 witness seq(32, _ => 0)

  /** Half is the last internal node of an odd level: it has no right child. */
  datatype Merkle =
    | Leaf(bucket: nat, hash: Digest)
    | Full(left: Merkle, right: Merkle, hash: Digest)
    | Half(left: Merkle, hash: Digest)

  datatype Snapshot = Snapshot(keysPerBucket: seq<seq<Str>>, siblings: map<Str, seq<Object>>)

  /** The stream of a bucket whose keys are listed in any order. */
  ghost function BucketBytes(snap: Snapshot, b: nat): Str
    requires b < |snap.keysPerBucket|
  {
    LeafBytes(SortNames(snap.keysPerBucket[b]), snap.siblings)
  }

  ghost function LeafOf(H: Str -> Digest, snap: Snapshot, b: nat): Merkle
    requires b < |snap.keysPerBucket|
  {
    Leaf(b, H(BucketBytes(snap, b)))
  }

  ghost function Leaves(H: Str -> Digest, snap: Snapshot): seq<Merkle> {
    seq(|snap.keysPerBucket|, b requires 0 <= b < |snap.keysPerBucket| => LeafOf(H, snap, b))
  }

  function JoinNodes(H: Str -> Digest, l: Merkle, r: Merkle): Merkle {
    Full(l, r, H(InternalBytes(l.hash, Some(r.hash))))
  }

  function CapNode(H: Str -> Digest, l: Merkle): Merkle {
    Half(l, H(InternalBytes(l.hash, None)))
  }

  /** The next level up: neighbours in pairs, a left-over last node alone. */
  function PairUp(H: Str -> Digest, xs: seq<Merkle>): seq<Merkle> {
    seq((|xs| + 1) / 2, j requires 0 <= j < (|xs| + 1) / 2 => Pairing(H, xs, j))
  }

  function Pairing(H: Str -> Digest, xs: seq<Merkle>, j: nat): Merkle
    requires j < (|xs| + 1) / 2
  {
    if 2 * j + 1 < |xs| then JoinNodes(H, xs[2 * j], xs[2 * j + 1]) else CapNode(H, xs[2 * j])
  }

  function Build(H: Str -> Digest, xs: seq<Merkle>): Merkle
    requires xs != []
    decreases |xs|
  {
    if |xs| == 1 then xs[0] else Build(H, PairUp(H, xs))
  }

  // ----- the loops that build the tree

  method ToVCEntries(vc: VClock) returns (nodes: seq<Str>)
    ensures nodes == Listing(vc.Keys)
  {
    var names, left := [], vc.Keys;
    while left != {}
      invariant left <= vc.Keys && Distinct(names) && Elements(names) == vc.Keys - left
      decreases |left|
    {
      var n :| n in left;
      left := left - {n};
      assert n !in Elements(names);
      assert Elements(names + [n]) == Elements(names) + {n};
      names := names + [n];
    }
    assert Elements(names) == vc.Keys;
    SortNamesListing(names);
    nodes := SortNames(names);
  }

  method WriteObject(h: Str, o: Object) returns (r: Str)
    ensures r == h + ObjectBytes(o)
  {
    r := h + StringBytes(o.value) + Uint64Bytes(Stamp(o));
    var nodes := ToVCEntries(Clock(o));
    r := r + Uint64Bytes(|Clock(o)|);
    ghost var head := r;
    for i := 0 to |nodes|
      invariant r + EntriesBytes(nodes[i..], Clock(o)) == head + EntriesBytes(nodes, Clock(o))
    {
      assert nodes[i..][1..] == nodes[i + 1..];
      ghost var rest := EntriesBytes(nodes[i + 1..], Clock(o));
      Regroup(r, StringBytes(nodes[i]), Uint64Bytes(Version(Clock(o), nodes[i])), rest, []);
      Regroup(StringBytes(nodes[i]), Uint64Bytes(Version(Clock(o), nodes[i])), rest, [], []);
      r := r + StringBytes(nodes[i]) + Uint64Bytes(Version(Clock(o), nodes[i]));
    }
    Regroup(h, StringBytes(o.value), Uint64Bytes(Stamp(o)), Uint64Bytes(|Clock(o)|), EntriesBytes(nodes, Clock(o)));
    Regroup(StringBytes(o.value), Uint64Bytes(Stamp(o)), Uint64Bytes(|Clock(o)|), EntriesBytes(nodes, Clock(o)), []);
  }

  method WriteObjects(h: Str, objs: seq<Object>) returns (r: Str)
    ensures r == h + ObjectsBytes(objs)
  {
    r := h;
    for i := 0 to |objs|
      invariant r + ObjectsBytes(objs[i..]) == h + ObjectsBytes(objs)
    {
      assert objs[i..][1..] == objs[i + 1..];
      Regroup(r, ObjectBytes(objs[i]), ObjectsBytes(objs[i + 1..]), [], []);
      r := WriteObject(r, objs[i]);
    }
    assert r + [] == r;
  }

  method WriteKVPair(h: Str, key: Str, objs: seq<Object>) returns (r: Str)
    ensures r == h + PairBytes(key, objs)
  {
    var ordered := SiblingOrder.IsOrdered(objs);
    var sorted := objs;
    if !ordered { sorted := SiblingOrder.SortObjects(objs); }
    r := WriteObjects(h + StringBytes(key) + Uint64Bytes(|objs|), sorted);
    Regroup(h, StringBytes(key), Uint64Bytes(|objs|), ObjectsBytes(sorted), []);
    Regroup(StringBytes(key), Uint64Bytes(|objs|), ObjectsBytes(sorted), [], []);
  }

  method MakeLeaf(H: Str -> Digest, snap: Snapshot, b: nat) returns (leaf: Merkle)
    requires b < |snap.keysPerBucket|
    ensures leaf == LeafOf(H, snap, b)
  {
    var keys := SortNames(snap.keysPerBucket[b]);
    var r := Uint64Bytes(|keys|);
    ghost var head := r;
    for i := 0 to |keys|
      invariant r + PairsBytes(keys[i..], snap.siblings) == head + PairsBytes(keys, snap.siblings)
    {
      assert keys[i..][1..] == keys[i + 1..];
      Regroup(r, PairBytes(keys[i], SiblingsOf(snap.siblings, keys[i])), PairsBytes(keys[i + 1..], snap.siblings), [], []);
      r := WriteKVPair(r, keys[i], SiblingsOf(snap.siblings, keys[i]));
    }
    assert r + [] == r;
    leaf := Leaf(b, H(r + StringBytes(EMPTY) + StringBytes(EMPTY)));
  }

  method MakeLeaves(H: Str -> Digest, snap: Snapshot) returns (leaves: seq<Merkle>)
    ensures leaves == Leaves(H, snap)
  {
    leaves := [];
    for b := 0 to |snap.keysPerBucket|
      invariant leaves == Leaves(H, snap)[..b]
    {
      var leaf := MakeLeaf(H, snap, b);
      leaves := leaves + [leaf];
    }
  }

  method BuildFromSnapshot(H: Str -> Digest, snap: Snapshot) returns (root: Merkle)
    requires snap.keysPerBucket != []
    ensures root == Build(H, Leaves(H, snap))
  {
    var leaves := MakeLeaves(H, snap);
    while |leaves| > 1
      invariant leaves != [] && Build(H, leaves) == Build(H, Leaves(H, snap))
      decreases |leaves|
    {
      leaves := PairLevel(H, leaves);
    }
    root := leaves[0];
  }

  lemma PairUpAt(H: Str -> Digest, xs: seq<Merkle>)
    ensures |PairUp(H, xs)| == (|xs| + 1) / 2
    ensures forall j | 0 <= j < (|xs| + 1) / 2 :: PairUp(H, xs)[j] == Pairing(H, xs, j)
  {
  }

  /** One round of the level loop. */
  method PairLevel(H: Str -> Digest, leaves: seq<Merkle>) returns (upper: seq<Merkle>)
    requires |leaves| > 1
    ensures upper == PairUp(H, leaves)
  {
    PairUpAt(H, leaves);
    hide PairUp, JoinNodes, CapNode;
    upper := [];
    var i := 0;
    while i + 1 < |leaves|
      invariant i == 2 * |upper| && i <= |leaves| && upper == PairUp(H, leaves)[..|upper|]
    {
      assert PairUp(H, leaves)[|upper|] == JoinNodes(H, leaves[i], leaves[i + 1]);
      upper := upper + [JoinNodes(H, leaves[i], leaves[i + 1])];
      i := i + 2;
    }
    if i + 1 == |leaves| {
      assert PairUp(H, leaves)[|upper|] == CapNode(H, leaves[i]);
      upper := upper + [CapNode(H, leaves[i])];
    }
  }

  // ----- heap order

  function Pow2(k: nat): nat { if k == 0 then 1 else 2 * Pow2(k - 1) }

  /** All levels, root first. */
  function HeapNodes(H: Str -> Digest, xs: seq<Merkle>): seq<Merkle>
    requires xs != []
    decreases |xs|
  {
    if |xs| == 1 then xs else HeapNodes(H, PairUp(H, xs)) + xs
  }

  /** Entry i is the parent of entries 2i+1 and 2i+2. */
  ghost predicate Joined(H: Str -> Digest, hs: seq<Merkle>, i: nat) {
    2 * i + 2 < |hs| && hs[i] == JoinNodes(H, hs[2 * i + 1], hs[2 * i + 2])
  }

  /** Heap order: parents before children, and the last level is the buckets in order. */
  ghost predicate HeapShaped(H: Str -> Digest, hs: seq<Merkle>, xs: seq<Merkle>) {
    && |hs| == 2 * |xs| - 1
    && (forall b | 0 <= b < |xs| :: hs[|xs| - 1 + b] == xs[b])
    && (forall i | 0 <= i < |xs| - 1 :: Joined(H, hs, i))
  }

  lemma JoinedLonger(H: Str -> Digest, gs: seq<Merkle>, xs: seq<Merkle>, i: nat)
    requires Joined(H, gs, i)
    ensures Joined(H, gs + xs, i)
  {
  }

  /** The last level's entry p has the pair p of the next level as its children. */
  lemma JoinedToPair(H: Str -> Digest, gs: seq<Merkle>, xs: seq<Merkle>, p: nat)
    requires |xs| == 2 * |PairUp(H, xs)| && |gs| == 2 * |PairUp(H, xs)| - 1 && p < |PairUp(H, xs)|
    requires gs[|PairUp(H, xs)| - 1 + p] == PairUp(H, xs)[p]
    ensures Joined(H, gs + xs, |PairUp(H, xs)| - 1 + p)
  {
    PairUpAt(H, xs);
    hide PairUp;
    var i, hs := |PairUp(H, xs)| - 1 + p, gs + xs;
    assert hs[2 * i + 1] == xs[2 * p] && hs[2 * i + 2] == xs[2 * p + 1];
  }

  lemma HeapStep(H: Str -> Digest, gs: seq<Merkle>, xs: seq<Merkle>)
    requires |xs| == 2 * |PairUp(H, xs)| && HeapShaped(H, gs, PairUp(H, xs))
    ensures HeapShaped(H, gs + xs, xs)
  {
    hide PairUp, JoinNodes, Joined;
    var ys, hs := PairUp(H, xs), gs + xs;
    forall i | 0 <= i < |xs| - 1 ensures Joined(H, hs, i) {
      if i < |ys| - 1 {
        JoinedLonger(H, gs, xs, i);
      } else {
        assert gs[|ys| - 1 + (i - (|ys| - 1))] == ys[i - (|ys| - 1)];
        JoinedToPair(H, gs, xs, i - (|ys| - 1));
      }
    }
  }

  lemma {:induction false} HeapOrder(H: Str -> Digest, xs: seq<Merkle>, k: nat)
    requires xs != [] && |xs| == Pow2(k)
    ensures HeapShaped(H, HeapNodes(H, xs), xs)
    ensures HeapNodes(H, xs)[0] == Build(H, xs)
    decreases k
  {
    if k > 0 {
      Pow2Positive(k - 1);
      var ys := PairUp(H, xs);
      assert |ys| == Pow2(k - 1);
      HeapOrder(H, ys, k - 1);
      HeapStep(H, HeapNodes(H, ys), xs);
    }
  }

  // ----- ToSummary

  function Children(t: Merkle): seq<Merkle> {
    if t.Full? then [t.left, t.right] else []
  }

  function Size(t: Merkle): nat {
    match t
    case Leaf(_, _) => 1
    case Full(l, r, _) => 1 + Size(l) + Size(r)
    case Half(l, _) => 1
  }

  function TotalSize(q: seq<Merkle>): nat {
    if q == [] then 0 else Size(q[0]) + TotalSize(q[1..])
  }

  lemma {:induction false} TotalSizeConcat(p: seq<Merkle>, q: seq<Merkle>)
    ensures TotalSize(p + q) == TotalSize(p) + TotalSize(q)
  {
    if p == [] {
      assert p + q == q;
    } else {
      assert (p + q)[1..] == p[1..] + q;
      TotalSizeConcat(p[1..], q);
    }
  }

  lemma ChildrenSmaller(q: seq<Merkle>)
    requires q != []
    ensures TotalSize(q[1..] + Children(q[0])) < TotalSize(q)
  {
    TotalSizeConcat(q[1..], Children(q[0]));
    if q[0].Full? {
      assert TotalSize([q[0].left, q[0].right]) == Size(q[0].left) + TotalSize([q[0].right]) by {
        assert [q[0].left, q[0].right][1..] == [q[0].right];
      }
      assert TotalSize([q[0].right]) == Size(q[0].right) + TotalSize([]);
    }
  }

  /** The digests in the order in which a breadth-first queue meets them. */
  function BreadthFirst(q: seq<Merkle>): seq<Digest>
    decreases TotalSize(q)
  {
    if q == [] then []
    else
      ChildrenSmaller(q);
      [q[0].hash] + BreadthFirst(q[1..] + Children(q[0]))
  }

  lemma BreadthFirstUnfold(q: seq<Merkle>)
    requires q != []
    ensures BreadthFirst(q) == [q[0].hash] + BreadthFirst(q[1..] + Children(q[0]))
  {
    ChildrenSmaller(q);
  }

  method ToSummary(root: Merkle) returns (hashes: seq<Digest>)
    ensures hashes == BreadthFirst([root])
  {
    hashes := [];
    var queue := [root];
    while queue != []
      invariant hashes + BreadthFirst(queue) == BreadthFirst([root])
      decreases TotalSize(queue)
    {
      ChildrenSmaller(queue);
      BreadthFirstUnfold(queue);
      var node, rest := queue[0], queue[1..];
      hashes := hashes + [node.hash];
      queue := Enqueue(rest, node);
    }
  }

  /** Only a node with both children has them enqueued. */
  method Enqueue(queue: seq<Merkle>, node: Merkle) returns (r: seq<Merkle>)
    ensures r == queue + Children(node)
  {
    r := queue;
    if node.Full? {
      r := r + [node.left];
      r := r + [node.right];
    }
  }

  function Hashes(hs: seq<Merkle>): seq<Digest> {
    seq(|hs|, i requires 0 <= i < |hs| => hs[i].hash)
  }

  function QueueEnd(m: nat, n: nat): int {
    if m <= n - 1 then 2 * m + 1 else 2 * n - 1
  }

  lemma QueueAdvances(H: Str -> Digest, hs: seq<Merkle>, xs: seq<Merkle>, m: nat)
    requires xs != [] && HeapShaped(H, hs, xs) && m < |hs|
    requires forall b | 0 <= b < |xs| :: xs[b].Leaf?
    ensures 0 <= m < QueueEnd(m, |xs|) <= |hs| && m + 1 <= QueueEnd(m + 1, |xs|) <= |hs|
    ensures hs[m + 1..QueueEnd(m, |xs|)] + Children(hs[m]) == hs[m + 1..QueueEnd(m + 1, |xs|)]
  {
    var n := |xs|;
    if m < n - 1 {
      assert Joined(H, hs, m);
      assert Children(hs[m]) == [hs[2 * m + 1], hs[2 * m + 2]];
      assert hs[m + 1..2 * m + 3] == hs[m + 1..2 * m + 1] + [hs[2 * m + 1], hs[2 * m + 2]];
    } else {
      var b := m - (n - 1);
      assert hs[n - 1 + b] == xs[b];
      assert Children(hs[m]) == [];
    }
  }

  lemma HeapSize(H: Str -> Digest, hs: seq<Merkle>, xs: seq<Merkle>)
    requires HeapShaped(H, hs, xs)
    ensures |hs| == 2 * |xs| - 1
  {
  }

  lemma {:induction false} BreadthFirstFrom(H: Str -> Digest, hs: seq<Merkle>, xs: seq<Merkle>, m: nat)
    requires xs != [] && HeapShaped(H, hs, xs) && m <= |hs|
    requires forall b | 0 <= b < |xs| :: xs[b].Leaf?
    ensures m <= QueueEnd(m, |xs|) <= |hs|
    ensures BreadthFirst(hs[m..QueueEnd(m, |xs|)]) == Hashes(hs)[m..]
    decreases |hs| - m
  {
    hide HeapShaped, Children;
    HeapSize(H, hs, xs);
    if m < |hs| {
      QueueAdvances(H, hs, xs, m);
      BreadthFirstFrom(H, hs, xs, m + 1);
      var q := hs[m..QueueEnd(m, |xs|)];
      assert q[0] == hs[m] && q[1..] == hs[m + 1..QueueEnd(m, |xs|)];
      assert Hashes(hs)[m..] == [hs[m].hash] + Hashes(hs)[m + 1..];
    }
  }

  ghost function Summary(H: Str -> Digest, snap: Snapshot): seq<Digest>
    requires snap.keysPerBucket != []
  {
    Hashes(HeapNodes(H, Leaves(H, snap)))
  }

  /** Building level by level and summarizing breadth first yields the nodes in heap order. */
  lemma SummaryIsHeapOrder(H: Str -> Digest, snap: Snapshot, k: nat)
    requires |snap.keysPerBucket| == Pow2(k)
    ensures snap.keysPerBucket != []
    ensures BreadthFirst([Build(H, Leaves(H, snap))]) == Summary(H, snap)
    ensures HeapShaped(H, HeapNodes(H, Leaves(H, snap)), Leaves(H, snap))
  {
    Pow2Positive(k);
    var xs := Leaves(H, snap);
    HeapOrder(H, xs, k);
    var hs := HeapNodes(H, xs);
    BreadthFirstFrom(H, hs, xs, 0);
    assert hs[0..1] == [Build(H, xs)];
    assert Hashes(hs)[0..] == Hashes(hs);
  }

  lemma {:induction false} Pow2Positive(k: nat)
    ensures Pow2(k) >= 1
  {
    if k > 0 { Pow2Positive(k - 1); }
  }
}
