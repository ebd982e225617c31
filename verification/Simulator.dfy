/** One trial of the latency simulation (src/kvsrv_eval/stimulator.go:76-126), its samples given. */
module Simulator {
  import opened Base
  import opened Collector

  // ----- sorting indices

  /** The indices of the values, each once, from the smallest value to the greatest; ties in any order. */
  predicate IsOrder(values: seq<int>, order: seq<nat>) {
    && |order| == |values| && Distinct(order)
    && (forall i | 0 <= i < |order| :: order[i] < |values|)
    && forall i, j | 0 <= i < j < |order| :: values[order[i]] <= values[order[j]]
  }

  /** The first n indices of an order. */
  predicate IsOrderTo(values: seq<int>, order: seq<nat>, n: nat) {
    n <= |values| && IsOrder(values[..n], order)
  }

  lemma InsertIndex(values: seq<int>, order: seq<nat>, n: nat, p: nat)
    requires n < |values| && IsOrderTo(values, order, n) && p <= n
    requires forall i | 0 <= i < p :: values[order[i]] <= values[n]
    requires forall i | p <= i < n :: values[n] <= values[order[i]]
    ensures IsOrderTo(values, order[..p] + [n] + order[p..], n + 1)
  {
    var r := order[..p] + [n] + order[p..];
    assert forall i | 0 <= i < |r| :: r[i] == if i < p then order[i] else if i == p then n else order[i - 1];
    assert forall i | 0 <= i < n :: order[i] < n && values[..n][order[i]] == values[order[i]];
    forall i, j | 0 <= i < j < |r| ensures r[i] != r[j] && values[..n + 1][r[i]] <= values[..n + 1][r[j]] {
      if i < p && j > p { assert order[i] != order[j - 1]; }
    }
  }

  method InsertPosition(values: seq<int>, order: seq<nat>, n: nat) returns (p: nat)
    requires n < |values| && IsOrderTo(values, order, n)
    ensures p <= n
    ensures forall i | 0 <= i < p :: values[order[i]] <= values[n]
    ensures forall i | p <= i < n :: values[n] <= values[order[i]]
  {
    assert forall i | 0 <= i < n :: order[i] < n && values[..n][order[i]] == values[order[i]];
    p := 0;
    while p < n && values[order[p]] <= values[n]
      invariant p <= n
      invariant forall i | 0 <= i < p :: values[order[i]] <= values[n]
    {
      p := p + 1;
    }
    if p < n {
      forall i | p <= i < n ensures values[n] <= values[order[i]] {
        assert i > p ==> values[..n][order[p]] <= values[..n][order[i]];
      }
    }
  }

  /** Any order will do: nothing below depends on how ties are broken. */
  method SortIndices(values: seq<int>) returns (order: seq<nat>)
    ensures IsOrder(values, order)
  {
    order := [];
    for n := 0 to |values|
      invariant IsOrderTo(values, order, n)
    {
      var p := InsertPosition(values, order, n);
      InsertIndex(values, order, n, p);
      order := order[..p] + [n] + order[p..];
    }
    assert values[..|values|] == values;
  }

  // ----- nthSmallest and firstKIndices

  function AtMostCount(values: seq<int>, v: int): set<nat> { set i: nat | i < |values| && values[i] <= v }

  function BelowCount(values: seq<int>, v: int): set<nat> { set i: nat | i < |values| && values[i] < v }

  /** v is the n-th smallest: n values are at most v, and fewer than n are below it. */
  predicate IsNth(values: seq<int>, n: nat, v: int) {
    |AtMostCount(values, v)| >= n && |BelowCount(values, v)| < n
  }

  lemma NthUnique(values: seq<int>, n: nat, v: int, u: int)
    requires IsNth(values, n, v) && IsNth(values, n, u)
    ensures v == u
  {
    if v < u { SubsetCount(AtMostCount(values, v), BelowCount(values, u)); }
    if u < v { SubsetCount(AtMostCount(values, u), BelowCount(values, v)); }
  }

  lemma FirstIndices(values: seq<int>, order: seq<nat>, n: nat)
    requires IsOrder(values, order) && n <= |order|
    ensures |Elements(order[..n])| == n && Elements(order[..n]) <= Below(|values|)
  {
    DistinctCount(order[..n]);
  }

  lemma OrderGivesNth(values: seq<int>, order: seq<nat>, n: nat)
    requires IsOrder(values, order) && 1 <= n <= |order|
    ensures IsNth(values, n, values[order[n - 1]])
  {
    var v := values[order[n - 1]];
    FirstIndices(values, order, n);
    FirstIndices(values, order, n - 1);
    forall i | i in Elements(order[..n]) ensures i in AtMostCount(values, v) {
      var p :| 0 <= p < n && order[p] == i;
      assert p < n - 1 ==> values[order[p]] <= values[order[n - 1]];
    }
    SubsetCount(Elements(order[..n]), AtMostCount(values, v));
    Onto(order, |values|);
    assert forall p | n - 1 <= p < |order| :: v <= values[order[p]];
    forall i | i in BelowCount(values, v) ensures i in Elements(order[..n - 1]) {
      assert i in order;
      var p :| 0 <= p < |order| && order[p] == i;
      assert p < n - 1;
      assert order[..n - 1][p] == i;
    }
    SubsetCount(BelowCount(values, v), Elements(order[..n - 1]));
  }

  method NthSmallest(values: seq<int>, n: nat) returns (v: int)
    requires 1 <= n <= |values|
    ensures v in values && IsNth(values, n, v)
  {
    var order := SortIndices(values);
    OrderGivesNth(values, order, n);
    v := values[order[n - 1]];
  }

  /** k indices such that no other value is smaller than one of theirs. */
  predicate AreFirst(values: seq<int>, k: nat, chosen: seq<nat>) {
    && |chosen| == k && Distinct(chosen)
    && (forall i | 0 <= i < k :: chosen[i] < |values|)
    && (forall i, j: nat | 0 <= i < k && j < |values| && j !in chosen :: values[chosen[i]] <= values[j])
  }

  lemma OrderGivesFirst(values: seq<int>, order: seq<nat>, k: nat)
    requires IsOrder(values, order) && k <= |order|
    ensures AreFirst(values, k, order[..k])
  {
    Onto(order, |values|);
    assert forall p | 0 <= p < k :: order[..k][p] == order[p] && order[p] in order[..k];
    forall i, j: nat | 0 <= i < k && j < |values| && j !in order[..k] ensures values[order[..k][i]] <= values[j] {
      assert j in order;
      var p :| 0 <= p < |order| && order[p] == j;
      assert p >= k;
    }
  }

  method FirstKIndices(values: seq<int>, k: nat) returns (selected: seq<nat>)
    requires k <= |values|
    ensures AreFirst(values, k, selected)
  {
    var order := SortIndices(values);
    OrderGivesFirst(values, order, k);
    selected := order[..k];
  }

  // ----- a trial

  /** N samples of each latency class. */
  datatype Samples = Samples(writeRequests: seq<int>, writeAcks: seq<int>, readRequests: seq<int>, readResponses: seq<int>)

  predicate Sized(s: Samples, n: nat) {
    |s.writeRequests| == |s.writeAcks| == |s.readRequests| == |s.readResponses| == n
  }

  predicate AllNonNegative(s: Samples) {
    NonNegative(s.writeRequests) && NonNegative(s.writeAcks) && NonNegative(s.readRequests) && NonNegative(s.readResponses)
  }

  function Sums(a: seq<int>, b: seq<int>): (r: seq<int>)
    requires |a| == |b|
    ensures |r| == |a| && forall i | 0 <= i < |a| :: r[i] == a[i] + b[i]
  {
    seq(|a|, i requires 0 <= i < |a| => a[i] + b[i])
  }

  /** One of the first replies comes from a replica that the write had reached when the read request arrived there. */
  predicate Fresh(s: Samples, writeFinish: int, first: seq<nat>, delta: int)
    requires Sized(s, |s.writeRequests|) && forall i | 0 <= i < |first| :: first[i] < |s.writeRequests|
  {
    exists i | 0 <= i < |first| :: writeFinish + s.readRequests[first[i]] + delta >= s.writeRequests[first[i]]
  }

  /** A read request sent at this time reaches replica x no earlier than the write, which was sent at time 0. */
  predicate ArrivesInTime(s: Samples, sent: int, x: nat) {
    x < |s.writeRequests| && x < |s.readRequests| && s.writeRequests[x] <= sent + s.readRequests[x]
  }

  /** So it does at one of these replicas. */
  predicate SomeInTime(s: Samples, sent: int, first: seq<nat>) { exists x: nat :: x in first && ArrivesInTime(s, sent, x) }

  /**
   In arrival times: the read is sent delta after the write quorum was complete, and the trial is consistent exactly when
   at one of the first repliers the write arrived no later than the read's request.
   */
  lemma FreshExactly(s: Samples, writeFinish: int, first: seq<nat>, delta: int)
    requires Sized(s, |s.writeRequests|) && forall i | 0 <= i < |first| :: first[i] < |s.writeRequests|
    ensures Fresh(s, writeFinish, first, delta) <==> SomeInTime(s, writeFinish + delta, first)
  {
    if x: nat :| x in first && ArrivesInTime(s, writeFinish + delta, x) {
      var i :| 0 <= i < |first| && first[i] == x;
      assert writeFinish + s.readRequests[first[i]] + delta >= s.writeRequests[first[i]];
    }
    if Fresh(s, writeFinish, first, delta) {
      var i :| 0 <= i < |first| && writeFinish + s.readRequests[first[i]] + delta >= s.writeRequests[first[i]];
      assert first[i] in first && ArrivesInTime(s, writeFinish + delta, first[i]);
    }
  }

  /** The verdict, for some finish time and some first replies that the sorting may have produced. */
  predicate Outcome(s: Samples, w: nat, r: nat, writeFinish: int, first: seq<nat>)
    requires Sized(s, |s.writeRequests|)
  {
    IsNth(Sums(s.writeRequests, s.writeAcks), w, writeFinish) && AreFirst(Sums(s.readRequests, s.readResponses), r, first)
  }

  method AddSamples(a: seq<int>, b: seq<int>) returns (r: seq<int>)
    requires |a| == |b|
    ensures r == Sums(a, b)
  {
    r := [];
    for i := 0 to |a|
      invariant r == Sums(a, b)[..i]
    {
      r := r + [a[i] + b[i]];
    }
  }

  method SimulateTrial(s: Samples, w: nat, r: nat, delta: int) returns (ok: bool)
    requires Sized(s, |s.writeRequests|) && 1 <= w <= |s.writeRequests| && 1 <= r <= |s.writeRequests|
    ensures exists writeFinish: int, first: seq<nat> :: Outcome(s, w, r, writeFinish, first) && ok == Fresh(s, writeFinish, first, delta) == SomeInTime(s, writeFinish + delta, first)
    ensures AllNonNegative(s) && delta >= 0 && w + r > |s.writeRequests| ==> ok
  {
    var writeLatencies := AddSamples(s.writeRequests, s.writeAcks);
    var readLatencies := AddSamples(s.readRequests, s.readResponses);
    var writeFinish := NthSmallest(writeLatencies, w);
    var first := FirstKIndices(readLatencies, r);
    assert Outcome(s, w, r, writeFinish, first);
    if AllNonNegative(s) && delta >= 0 && w + r > |s.writeRequests| { QuorumsOverlap(s, w, r, writeFinish, first, delta); }
    FreshExactly(s, writeFinish, first, delta);
    hide IsNth, AreFirst;
    ok := false;
    var i := 0;
    while i < |first| && !ok
      invariant i <= |first|
      invariant ok ==> Fresh(s, writeFinish, first, delta)
      invariant !ok ==> forall j | 0 <= j < i :: !(writeFinish + s.readRequests[first[j]] + delta >= s.writeRequests[first[j]])
      decreases |first| - i, !ok
    {
      if writeFinish + s.readRequests[first[i]] + delta >= s.writeRequests[first[i]] { ok := true; } else { i := i + 1; }
    }
  }

  /** With R + W > N every trial is consistent, whatever the latencies and however ties are broken. */
  lemma QuorumsOverlap(s: Samples, w: nat, r: nat, writeFinish: int, first: seq<nat>, delta: int)
    requires Sized(s, |s.writeRequests|) && AllNonNegative(s) && delta >= 0 && w + r > |s.writeRequests|
    requires Outcome(s, w, r, writeFinish, first)
    ensures Fresh(s, writeFinish, first, delta)
  {
    var latencies := Sums(s.writeRequests, s.writeAcks);
    var written := AtMostCount(latencies, writeFinish);
    DistinctCount(first);
    var x := Intersect(written, Elements(first), Below(|s.writeRequests|));
    var i :| 0 <= i < |first| && first[i] == x;
    assert s.writeRequests[x] <= latencies[x] <= writeFinish;
    assert s.readRequests[x] >= 0;
    assert writeFinish + s.readRequests[first[i]] + delta >= s.writeRequests[first[i]];
  }

  /** For fixed samples the verdict only improves as delta grows. */
  lemma FreshMonotone(s: Samples, writeFinish: int, first: seq<nat>, delta: int, more: int)
    requires Sized(s, |s.writeRequests|) && (forall i | 0 <= i < |first| :: first[i] < |s.writeRequests|)
    requires delta <= more && Fresh(s, writeFinish, first, delta)
    ensures Fresh(s, writeFinish, first, more)
  {
    var i :| 0 <= i < |first| && writeFinish + s.readRequests[first[i]] + delta >= s.writeRequests[first[i]];
    assert writeFinish + s.readRequests[first[i]] + more >= s.writeRequests[first[i]];
  }

  /** The same latencies, with some delay moved from the responses to the requests of the read. */
  predicate DelayMoved(s: Samples, t: Samples) {
    && Sized(s, |s.writeRequests|) && Sized(t, |s.writeRequests|) && t.writeRequests == s.writeRequests && t.writeAcks == s.writeAcks
    && forall x | 0 <= x < |s.readRequests| ::
         t.readRequests[x] + t.readResponses[x] == s.readRequests[x] + s.readResponses[x] && t.readRequests[x] >= s.readRequests[x]
  }

  /**
   Moving delay from responses to requests leaves the finish time and the first repliers as they may be, never makes a
   consistent trial stale, and makes a stale one consistent only if the request to some first replier was delayed and is
   now late enough.
   */
  lemma MovedDelay(s: Samples, t: Samples, w: nat, r: nat, writeFinish: int, first: seq<nat>, delta: int)
    requires DelayMoved(s, t) && Outcome(s, w, r, writeFinish, first)
    ensures Outcome(t, w, r, writeFinish, first)
    ensures Fresh(s, writeFinish, first, delta) ==> Fresh(t, writeFinish, first, delta)
    ensures Fresh(t, writeFinish, first, delta) && !Fresh(s, writeFinish, first, delta) ==>
      exists x: nat :: x in first && ArrivesInTime(t, writeFinish + delta, x) && t.readRequests[x] > s.readRequests[x]
  {
    assert Sums(t.readRequests, t.readResponses) == Sums(s.readRequests, s.readResponses);
    FreshExactly(s, writeFinish, first, delta);
    FreshExactly(t, writeFinish, first, delta);
    hide Fresh, IsNth, AreFirst;
    if x: nat :| x in first && ArrivesInTime(s, writeFinish + delta, x) { assert ArrivesInTime(t, writeFinish + delta, x); }
    if x: nat :| x in first && ArrivesInTime(t, writeFinish + delta, x) && !Fresh(s, writeFinish, first, delta) {
      assert !ArrivesInTime(s, writeFinish + delta, x);
    }
  }

  /** Responses decide who is among the first, and nothing else. */
  lemma ResponsesDoNotMatter(s: Samples, t: Samples, writeFinish: int, first: seq<nat>, delta: int)
    requires Sized(s, |s.writeRequests|) && Sized(t, |s.writeRequests|) && forall i | 0 <= i < |first| :: first[i] < |s.writeRequests|
    requires forall x | x in first :: t.writeRequests[x] == s.writeRequests[x] && t.readRequests[x] == s.readRequests[x]
    ensures Fresh(s, writeFinish, first, delta) <==> Fresh(t, writeFinish, first, delta)
  {
    FreshExactly(s, writeFinish, first, delta);
    FreshExactly(t, writeFinish, first, delta);
    hide Fresh;
    forall x: nat | x in first ensures ArrivesInTime(s, writeFinish + delta, x) <==> ArrivesInTime(t, writeFinish + delta, x) {
      var i :| 0 <= i < |first| && first[i] == x;
    }
  }

  /** How much later than the end of the write quorum the read must start, at the best of the first repliers. */
  function Lag(s: Samples, writeFinish: int, first: seq<nat>): int
    requires first != [] && Sized(s, |s.writeRequests|) && forall i | 0 <= i < |first| :: first[i] < |s.writeRequests|
  {
    var n := |first| - 1;
    var lag := s.writeRequests[first[n]] - s.readRequests[first[n]] - writeFinish;
    if n == 0 then lag
    else
      var rest := Lag(s, writeFinish, first[..n]);
      if lag < rest then lag else rest
  }

  /** A trial is consistent exactly from its lag on. */
  lemma {:induction false} FreshFromLag(s: Samples, writeFinish: int, first: seq<nat>, delta: int)
    requires first != [] && Sized(s, |s.writeRequests|) && forall i | 0 <= i < |first| :: first[i] < |s.writeRequests|
    ensures Fresh(s, writeFinish, first, delta) <==> delta >= Lag(s, writeFinish, first)
  {
    var n := |first| - 1;
    var last := writeFinish + s.readRequests[first[n]] + delta >= s.writeRequests[first[n]];
    if n > 0 {
      FreshFromLag(s, writeFinish, first[..n], delta);
      if Fresh(s, writeFinish, first[..n], delta) {
        var i :| 0 <= i < n && writeFinish + s.readRequests[first[..n][i]] + delta >= s.writeRequests[first[..n][i]];
        assert first[i] == first[..n][i];
      }
      if Fresh(s, writeFinish, first, delta) && !last {
        var i :| 0 <= i < |first| && writeFinish + s.readRequests[first[i]] + delta >= s.writeRequests[first[i]];
        assert first[i] == first[..n][i];
      }
    }
  }

  // ----- all trials

  /** What the sorting made of one trial: when the write quorum was complete, and the first replies. */
  datatype Arrival = Arrival(writeFinish: int, first: seq<nat>)

  predicate ArrivalOf(s: Samples, n: nat, w: nat, r: nat, a: Arrival) {
    Sized(s, n) && Outcome(s, w, r, a.writeFinish, a.first)
  }

  predicate Arrivals(trials: seq<Samples>, n: nat, w: nat, r: nat, arrivals: seq<Arrival>) {
    |arrivals| == |trials| && forall t | 0 <= t < |trials| :: ArrivalOf(trials[t], n, w, r, arrivals[t])
  }

  predicate FreshTrial(s: Samples, a: Arrival, delta: int) {
    Sized(s, |s.writeRequests|) && (forall i | 0 <= i < |a.first| :: a.first[i] < |s.writeRequests|) && Fresh(s, a.writeFinish, a.first, delta)
  }

  /** The number of consistent trials. */
  function FreshCount(trials: seq<Samples>, arrivals: seq<Arrival>, delta: int): (n: nat)
    requires |arrivals| == |trials|
    ensures n <= |trials|
  {
    if trials == [] then 0
    else
      var t := |trials| - 1;
      FreshCount(trials[..t], arrivals[..t], delta) + if FreshTrial(trials[t], arrivals[t], delta) then 1 else 0
  }

  /** Probability and count: for what the sorting made of the trials, the share of those that are consistent; 1 whenever the quorums overlap. */
  method SimulateDeltaP(trials: seq<Samples>, n: nat, w: nat, r: nat, delta: int) returns (consistentTrials: nat, probability: real)
    requires |trials| >= 1 && 1 <= w <= n && 1 <= r <= n
    requires forall t | 0 <= t < |trials| :: Sized(trials[t], n)
    ensures exists arrivals :: Arrivals(trials, n, w, r, arrivals) && consistentTrials == FreshCount(trials, arrivals, delta)
    ensures probability == consistentTrials as real / |trials| as real && 0.0 <= probability <= 1.0
    ensures (forall t | 0 <= t < |trials| :: AllNonNegative(trials[t])) && delta >= 0 && w + r > n ==> probability == 1.0
  {
    consistentTrials := 0;
    ghost var arrivals: seq<Arrival> := [];
    for t := 0 to |trials|
      invariant Arrivals(trials[..t], n, w, r, arrivals) && consistentTrials == FreshCount(trials[..t], arrivals, delta)
      invariant (forall u | 0 <= u < |trials| :: AllNonNegative(trials[u])) && delta >= 0 && w + r > n ==> consistentTrials == t
    {
      var ok := SimulateTrial(trials[t], w, r, delta);
      ghost var finish: int, first: seq<nat> :| Outcome(trials[t], w, r, finish, first) && ok == Fresh(trials[t], finish, first, delta);
      OneMoreTrial(trials, arrivals, Arrival(finish, first), n, w, r, delta, t);
      arrivals := arrivals + [Arrival(finish, first)];
      if ok { consistentTrials := consistentTrials + 1; }
    }
    assert trials[..|trials|] == trials;
    ShareOf(consistentTrials, |trials|);
    probability := consistentTrials as real / |trials| as real;
  }

  /** The trials that are consistent for this delta. */
  function FreshTrials(trials: seq<Samples>, arrivals: seq<Arrival>, delta: int): set<nat>
    requires |arrivals| == |trials|
  {
    set t: nat | t < |trials| && FreshTrial(trials[t], arrivals[t], delta)
  }

  lemma FreshTrialsStep(trials: seq<Samples>, arrivals: seq<Arrival>, delta: int)
    requires |arrivals| == |trials| && trials != []
    ensures var t := |trials| - 1;
      |FreshTrials(trials, arrivals, delta)| == |FreshTrials(trials[..t], arrivals[..t], delta)| + if FreshTrial(trials[t], arrivals[t], delta) then 1 else 0
  {
    hide FreshTrial;
    var t := |trials| - 1;
    var before := FreshTrials(trials[..t], arrivals[..t], delta);
    assert forall i | 0 <= i < t :: trials[..t][i] == trials[i] && arrivals[..t][i] == arrivals[i];
    assert FreshTrials(trials, arrivals, delta) == before + if FreshTrial(trials[t], arrivals[t], delta) then {t} else {};
  }

  lemma {:induction false} FreshCountIs(trials: seq<Samples>, arrivals: seq<Arrival>, delta: int)
    requires |arrivals| == |trials|
    ensures FreshCount(trials, arrivals, delta) == |FreshTrials(trials, arrivals, delta)|
    decreases trials
  {
    if trials != [] {
      hide FreshTrial, FreshTrials;
      FreshCountIs(trials[..|trials| - 1], arrivals[..|trials| - 1], delta);
      FreshTrialsStep(trials, arrivals, delta);
    }
  }

  lemma OneMoreTrial(trials: seq<Samples>, arrivals: seq<Arrival>, a: Arrival, n: nat, w: nat, r: nat, delta: int, t: nat)
    requires t < |trials| && Arrivals(trials[..t], n, w, r, arrivals) && ArrivalOf(trials[t], n, w, r, a)
    ensures Arrivals(trials[..t + 1], n, w, r, arrivals + [a])
    ensures FreshCount(trials[..t + 1], arrivals + [a], delta)
      == FreshCount(trials[..t], arrivals, delta) + if Fresh(trials[t], a.writeFinish, a.first, delta) then 1 else 0
  {
    assert trials[..t + 1][..t] == trials[..t] && (arrivals + [a])[..t] == arrivals;
    hide IsNth, Fresh;
  }

  /** For fixed samples the share never falls as delta grows. */
  lemma {:induction false} FreshCountMonotone(trials: seq<Samples>, arrivals: seq<Arrival>, delta: int, more: int)
    requires |arrivals| == |trials| && delta <= more
    ensures FreshCount(trials, arrivals, delta) <= FreshCount(trials, arrivals, more)
    decreases trials
  {
    if trials != [] {
      var t := |trials| - 1;
      FreshCountMonotone(trials[..t], arrivals[..t], delta, more);
      if FreshTrial(trials[t], arrivals[t], delta) { FreshMonotone(trials[t], arrivals[t].writeFinish, arrivals[t].first, delta, more); }
    }
  }
}
