/**
 The pruned breadth-first search for differing buckets (src/kvsrv/anti_entropy.go:120-152) and
 the bucket-by-bucket scan it must agree with.
 */
module DiffBuckets {
  import opened MerkleTree

  /** Two summaries of trees with the same number of buckets; `empty` is the digest of an empty bucket. */
  datatype Pair = Pair(mine: seq<Digest>, theirs: seq<Digest>, empty: Digest) {

    ghost predicate Sized() { |mine| == |theirs| && |mine| % 2 == 1 }

    function Buckets(): nat { |mine| / 2 + 1 }

    predicate Differs(i: nat)
      requires i < |mine| == |theirs|
    {
      mine[i] != theirs[i]
    }

    /** The search queues position i. */
    predicate Visited(i: nat)
      requires i < |mine| == |theirs|
    {
      i == 0 || (Visited((i - 1) / 2) && Differs((i - 1) / 2) && mine[i] != empty)
    }

    /** The queued positions of a range, in order. */
    function Queued(lo: nat, hi: nat): seq<nat>
      requires hi <= |mine| == |theirs|
      decreases hi - lo
    {
      if lo >= hi then [] else (if Visited(lo) then [lo] else []) + Queued(lo + 1, hi)
    }

    predicate Reported(i: nat)
      requires i < |mine| == |theirs|
    {
      Visited(i) && Differs(i) && i >= |mine| / 2
    }

    /** The buckets reported from the positions below m. */
    function Found(m: nat): seq<nat>
      requires m <= |mine| == |theirs|
    {
      if m == 0 then [] else Found(m - 1) + (if Reported(m - 1) then [m - 1 - |mine| / 2] else [])
    }

    /** The linear scan: the bucket's digests differ and the own bucket is not empty. */
    predicate Listed(b: nat)
      requires b < Buckets() && Sized()
    {
      Differs(|mine| / 2 + b) && (Buckets() == 1 || mine[|mine| / 2 + b] != empty)
    }

    function Scan(n: nat): seq<nat>
      requires Sized() && n <= Buckets()
    {
      if n == 0 then [] else Scan(n - 1) + (if Listed(n - 1) then [n - 1] else [])
    }

    function End(m: nat): nat { if 2 * m + 1 <= |mine| then 2 * m + 1 else |mine| }

    /** Equal internal digests have equal children, and no internal digest is the empty bucket's. */
    ghost predicate Consistent() {
      Sized() && forall i: nat | i < |mine| / 2 :: ConsistentAt(i)
    }

    ghost predicate ConsistentAt(i: nat)
      requires Sized() && i < |mine| / 2
    {
      (!Differs(i) ==> !Differs(2 * i + 1) && !Differs(2 * i + 2)) && mine[i] != empty
    }

    lemma {:induction false} QueuedSplit(lo: nat, mid: nat, hi: nat)
      requires lo <= mid <= hi <= |mine| == |theirs|
      ensures Queued(lo, hi) == Queued(lo, mid) + Queued(mid, hi)
      decreases mid - lo
    {
      if lo < mid { QueuedSplit(lo + 1, mid, hi); }
    }

    /** The head of the queue is the next visited position. */
    lemma {:induction false} QueueHead(lo: nat, hi: nat)
      requires hi <= |mine| == |theirs| && Queued(lo, hi) != []
      ensures var c := Queued(lo, hi)[0];
        lo <= c < hi && Visited(c) && Queued(lo, hi)[1..] == Queued(c + 1, hi) && forall i: nat | lo <= i < c :: !Visited(i)
      decreases hi - lo
    {
      if !Visited(lo) { QueueHead(lo + 1, hi); }
    }

    lemma {:induction false} QueuedNone(lo: nat, hi: nat)
      requires hi <= |mine| == |theirs|
      ensures Queued(lo, hi) == [] <==> forall i: nat | lo <= i < hi :: !Visited(i)
      decreases hi - lo
    {
      if lo < hi {
        QueuedNone(lo + 1, hi);
        assert Queued(lo, hi) == [] <==> !Visited(lo) && Queued(lo + 1, hi) == [];
        if Queued(lo, hi) == [] {
          forall i: nat | lo <= i < hi ensures !Visited(i) { assert i == lo || lo + 1 <= i; }
        }
      }
    }

    lemma {:induction false} FoundSkips(m: nat, n: nat)
      requires m <= n <= |mine| == |theirs| && forall i: nat | m <= i < n :: !Visited(i)
      ensures Found(n) == Found(m)
      decreases n - m
    {
      if m < n { FoundSkips(m, n - 1); }
    }

    /** After position c only its own children join the queue. */
    lemma ChildrenOnly(m: nat, c: nat)
      requires Sized() && m <= c < |mine| && Visited(c)
      requires forall i: nat | m <= i < c :: !Visited(i)
      ensures End(m) <= End(c + 1) <= |mine|
      ensures Queued(End(m), End(c + 1)) ==
        if c < |mine| / 2 && Differs(c) then Queued(2 * c + 1, 2 * c + 3) else []
    {
      var from := if c < |mine| / 2 && Differs(c) then 2 * c + 1 else End(c + 1);
      forall i: nat | End(m) <= i < from ensures !Visited(i) {
        var p := (i - 1) / 2;
        assert m <= p <= c && (p < c || !Differs(c));
      }
      hide Queued, Visited;
      QueuedNone(End(m), from);
      QueuedSplit(End(m), from, End(c + 1));
    }

    /** An empty queue means that nothing is left to visit. */
    lemma {:induction false} NothingLeft(m: nat, i: nat)
      requires Sized() && m <= i < |mine| && Queued(m, End(m)) == [] && 1 <= m
      ensures !Visited(i)
      decreases i
    {
      if i < End(m) { QueuedNone(m, End(m)); } else { NothingLeft(m, (i - 1) / 2); }
    }
  }

  /** The children of an internal position that are not empty buckets join the queue. */
  method EnqueueChildren(p: Pair, currPos: nat, queue: seq<nat>) returns (r: seq<nat>)
    requires p.Sized() && currPos < |p.mine| / 2 && p.Visited(currPos) && p.Differs(currPos)
    ensures r == queue + p.Queued(2 * currPos + 1, 2 * currPos + 3)
  {
    r := queue;
    if p.mine[currPos * 2 + 1] != p.empty { r := r + [currPos * 2 + 1]; }
    if p.mine[currPos * 2 + 2] != p.empty { r := r + [currPos * 2 + 2]; }
    assert p.Visited(2 * currPos + 1) == (p.mine[currPos * 2 + 1] != p.empty);
    assert p.Visited(2 * currPos + 2) == (p.mine[currPos * 2 + 2] != p.empty);
    assert p.Queued(2 * currPos + 3, 2 * currPos + 3) == [];
  }

  /** findDiffBuckets. */
  method FindDiffBuckets(p: Pair) returns (diffBuckets: seq<nat>)
    requires p.Sized()
    ensures diffBuckets == p.Found(|p.mine|)
    ensures p.Consistent() ==> diffBuckets == p.Scan(p.Buckets())
  {
    diffBuckets := [];
    var queue: seq<nat> := [0];
    ghost var m := 0;
    assert p.Queued(0, 1) == [0] + p.Queued(1, 1);
    while queue != []
      invariant m <= |p.mine| && queue == p.Queued(m, p.End(m)) && diffBuckets == p.Found(m)
      invariant queue == [] ==> m >= 1
      decreases |p.mine| - m
    {
      p.QueueHead(m, p.End(m));
      var currPos := queue[0];
      Advance(p, m, currPos);
      queue := queue[1..];
      if p.mine[currPos] != p.theirs[currPos] {
        if currPos < |p.mine| / 2 {
          queue := EnqueueChildren(p, currPos, queue);
        } else {
          diffBuckets := diffBuckets + [currPos - |p.mine| / 2];
        }
      }
      m := currPos + 1;
    }
    SearchDone(p, m);
  }

  lemma SearchDone(p: Pair, m: nat)
    requires p.Sized() && 1 <= m <= |p.mine| && p.Queued(m, p.End(m)) == []
    ensures p.Found(m) == p.Found(|p.mine|)
    ensures p.Consistent() ==> p.Found(m) == p.Scan(p.Buckets())
  {
    forall i: nat | m <= i < |p.mine| ensures !p.Visited(i) { p.NothingLeft(m, i); }
    p.FoundSkips(m, |p.mine|);
    if p.Consistent() { FoundIsScan(p, p.Buckets()); }
  }

  /** What one round of the search does to the queue and the report. */
  lemma Advance(p: Pair, m: nat, c: nat)
    requires p.Sized() && m <= c < p.End(m) && p.Visited(c) && forall i: nat | m <= i < c :: !p.Visited(i)
    ensures p.Queued(c + 1, p.End(c + 1)) == p.Queued(c + 1, p.End(m))
        + if c < |p.mine| / 2 && p.Differs(c) then p.Queued(2 * c + 1, 2 * c + 3) else []
    ensures p.Found(c + 1) == p.Found(m) + if p.Differs(c) && c >= |p.mine| / 2 then [c - |p.mine| / 2] else []
  {
    p.FoundSkips(m, c);
    p.ChildrenOnly(m, c);
    p.QueuedSplit(c + 1, p.End(m), p.End(c + 1));
  }

  /** A difference that is not hidden by an empty bucket is reached from the root. */
  lemma {:induction false} DifferenceReached(p: Pair, i: nat)
    requires p.Consistent() && i < |p.mine| && p.Differs(i) && (i == 0 || p.mine[i] != p.empty)
    ensures p.Visited(i)
  {
    if i > 0 {
      var q := (i - 1) / 2;
      assert i == 2 * q + 1 || i == 2 * q + 2;
      assert q < |p.mine| / 2;
      assert p.ConsistentAt(q);
      DifferenceReached(p, q);
    }
  }

  lemma {:induction false} FoundIsScan(p: Pair, n: nat)
    requires p.Consistent() && n <= p.Buckets()
    ensures p.Found(|p.mine| / 2 + n) == p.Scan(n)
  {
    if n == 0 {
      NoneInternal(p, |p.mine| / 2);
    } else {
      FoundIsScan(p, n - 1);
      var i := |p.mine| / 2 + n - 1;
      if p.Listed(n - 1) { DifferenceReached(p, i); }
    }
  }

  lemma {:induction false} NoneInternal(p: Pair, m: nat)
    requires p.Sized() && m <= |p.mine| / 2
    ensures p.Found(m) == []
  {
    if m > 0 { NoneInternal(p, m - 1); }
  }

  /** The scan lists the differing, non-empty buckets in ascending order without repeats. */
  lemma {:induction false} ScanIsAscending(p: Pair, n: nat)
    requires p.Sized() && n <= p.Buckets()
    ensures forall i, j | 0 <= i < j < |p.Scan(n)| :: p.Scan(n)[i] < p.Scan(n)[j]
    ensures forall b: nat :: b in p.Scan(n) <==> b < n && p.Listed(b)
  {
    if n > 0 {
      ScanIsAscending(p, n - 1);
      var s := p.Scan(n - 1);
      assert forall i | 0 <= i < |s| :: s[i] in s;
      assert p.Scan(n) == s || p.Scan(n) == s + [n - 1];
    }
  }
}
