/** k-regularity of observed reads (src/kvsrv_eval/observer.go:25-37, 146-187). */
module KRegular {
  import opened Siblings
  import opened Collector
  import opened Observer

  /** The write had committed when the read began. */
  predicate Eligible(r: CompletedRead, w: CompletedWrite) {
    w.key == r.key && !Overlaps(r, w) && !(w.committedAt > r.startedAt)
  }

  function EligibleOf(r: CompletedRead, writes: seq<CompletedWrite>): seq<CompletedWrite> {
    if writes == [] then []
    else
      var n := |writes| - 1;
      EligibleOf(r, writes[..n]) + if Eligible(r, writes[n]) then [writes[n]] else []
  }

  lemma EligibleStep(r: CompletedRead, writes: seq<CompletedWrite>, i: nat)
    requires i < |writes|
    ensures EligibleOf(r, writes[..i + 1]) == if Eligible(r, writes[i]) then EligibleOf(r, writes[..i]) + [writes[i]] else EligibleOf(r, writes[..i])
  {
    assert writes[..i + 1][..i] == writes[..i];
  }

  /** The first of n slots with the earliest commit. */
  function StalestTo(slots: seq<CompletedWrite>, n: nat): (i: nat)
    requires 1 <= n <= |slots|
    ensures i < n && (forall j | 0 <= j < n :: slots[i].committedAt <= slots[j].committedAt)
    ensures forall j | 0 <= j < i :: slots[i].committedAt < slots[j].committedAt
  {
    if n == 1 then 0
    else
      var i := StalestTo(slots, n - 1);
      if slots[n - 1].committedAt < slots[i].committedAt then n - 1 else i
  }

  /** One more eligible write: a free slot, or the stalest one. */
  function Keep(slots: seq<CompletedWrite>, w: CompletedWrite, k: nat): (r: seq<CompletedWrite>)
    requires k >= 1 && |slots| <= k
    ensures |r| <= k
  {
    if |slots| < k then slots + [w] else slots[StalestTo(slots, |slots|) := w]
  }

  function Kept(eligible: seq<CompletedWrite>, k: nat): (slots: seq<CompletedWrite>)
    requires k >= 1
    ensures |slots| == if |eligible| <= k then |eligible| else k
  {
    if eligible == [] then [] else Keep(Kept(eligible[..|eligible| - 1], k), eligible[|eligible| - 1], k)
  }

  lemma KeptAppend(eligible: seq<CompletedWrite>, w: CompletedWrite, k: nat)
    requires k >= 1
    ensures Kept(eligible + [w], k) == Keep(Kept(eligible, k), w, k)
  {
    assert (eligible + [w])[..|eligible|] == eligible;
  }

  predicate AnyConsistent(ws: seq<CompletedWrite>, objects: seq<Object>) {
    exists i | 0 <= i < |ws| :: Consistent(ws[i].obj, objects)
  }

  predicate SomeOverlaps(r: CompletedRead, writes: seq<CompletedWrite>) {
    exists i | 0 <= i < |writes| :: writes[i].key == r.key && Overlaps(r, writes[i]) && Consistent(writes[i].obj, r.objects)
  }

  predicate Regular(r: CompletedRead, writes: seq<CompletedWrite>, k: nat)
    requires k >= 1
  {
    SomeOverlaps(r, writes) || AnyConsistent(Kept(EligibleOf(r, writes), k), r.objects)
  }

  method CheckAny(ws: seq<CompletedWrite>, objects: seq<Object>) returns (ok: bool)
    ensures ok == AnyConsistent(ws, objects)
  {
    for i := 0 to |ws|
      invariant forall j | 0 <= j < i :: !Consistent(ws[j].obj, objects)
    {
      ok := IsConsistent(ws[i].obj, objects);
      if ok { return; }
    }
    return false;
  }

  method FindStalest(slots: seq<CompletedWrite>, k: nat) returns (stalest: nat)
    requires 1 <= k == |slots|
    ensures stalest == StalestTo(slots, k)
  {
    stalest := 0;
    for i := 1 to k
      invariant stalest == StalestTo(slots, i)
    {
      if slots[i].committedAt < slots[stalest].committedAt { stalest := i; }
    }
  }

  method IsKRegular(r: CompletedRead, writes: seq<CompletedWrite>, k: nat) returns (ok: bool)
    requires k >= 1
    ensures ok == Regular(r, writes, k)
  {
    var kCandidate, overlapped := [], [];
    hide Consistent, StalestTo;
    for i := 0 to |writes|
      invariant kCandidate == Kept(EligibleOf(r, writes[..i]), k)
      invariant forall w | w in overlapped :: w in writes[..i] && w.key == r.key && Overlaps(r, w)
      invariant forall j | 0 <= j < i && writes[j].key == r.key && Overlaps(r, writes[j]) :: writes[j] in overlapped
    {
      var w := writes[i];
      EligibleStep(r, writes, i);
      if w.key == r.key {
        if Overlaps(r, w) {
          overlapped := overlapped + [w];
        } else if !(w.committedAt > r.startedAt) {
          KeptAppend(EligibleOf(r, writes[..i]), w, k);
          if |kCandidate| < k {
            kCandidate := kCandidate + [w];
          } else {
            var stalest := FindStalest(kCandidate, k);
            kCandidate := kCandidate[stalest := w];
          }
        }
      }
    }
    assert writes[..|writes|] == writes;
    ok := CheckAny(overlapped, r.objects);
    if ok { return; }
    ok := CheckAny(kCandidate, r.objects);
  }

  // ----- what is kept

  lemma {:induction false} EligibleSorted(r: CompletedRead, writes: seq<CompletedWrite>)
    requires ByCommit(writes)
    ensures ByCommit(EligibleOf(r, writes))
    ensures forall w :: w in EligibleOf(r, writes) <==> w in writes && Eligible(r, w)
  {
    if writes != [] {
      var n := |writes| - 1;
      EligibleSorted(r, writes[..n]);
      assert writes == writes[..n] + [writes[n]];
      forall w | w in writes[..n] ensures w.committedAt <= writes[n].committedAt {}
      hide Eligible;
    }
  }

  /** The kept writes are k of the eligible ones, and whatever was discarded committed no later than any of them. */
  predicate LatestOnes(eligible: seq<CompletedWrite>, slots: seq<CompletedWrite>, dropped: multiset<CompletedWrite>) {
    && multiset(slots) + dropped == multiset(eligible)
    && forall d, i | d in dropped && 0 <= i < |slots| :: d.committedAt <= slots[i].committedAt
  }

  lemma ReplaceSlot(slots: seq<CompletedWrite>, i: nat, w: CompletedWrite)
    requires i < |slots|
    ensures multiset(slots[i := w]) == multiset(slots) - multiset{slots[i]} + multiset{w}
    ensures slots[i] in multiset(slots)
  {
    assert slots == slots[..i] + [slots[i]] + slots[i + 1..];
    assert slots[i := w] == slots[..i] + [w] + slots[i + 1..];
  }

  /** A write no earlier than all before it takes the stalest slot. */
  lemma ReplaceKeepsLatest(eligible: seq<CompletedWrite>, slots: seq<CompletedWrite>, dropped: multiset<CompletedWrite>, w: CompletedWrite, i: nat)
    requires LatestOnes(eligible, slots, dropped) && forall x | x in eligible :: x.committedAt <= w.committedAt
    requires i < |slots| && forall j | 0 <= j < |slots| :: slots[i].committedAt <= slots[j].committedAt
    ensures LatestOnes(eligible + [w], slots[i := w], dropped + multiset{slots[i]})
  {
    KeptWithin(eligible, slots, dropped, w);
    ReplaceSlot(slots, i, w);
    var slots', dropped' := slots[i := w], dropped + multiset{slots[i]};
    forall d, j | d in dropped' && 0 <= j < |slots'| ensures d.committedAt <= slots'[j].committedAt {
      assert d in dropped || d == slots[i];
    }
  }

  lemma {:induction false} KeptAreLatest(eligible: seq<CompletedWrite>, k: nat) returns (dropped: multiset<CompletedWrite>)
    requires k >= 1 && ByCommit(eligible)
    ensures LatestOnes(eligible, Kept(eligible, k), dropped)
    decreases eligible
  {
    dropped := multiset{};
    if eligible != [] {
      var n := |eligible| - 1;
      var front, w := eligible[..n], eligible[n];
      assert eligible == front + [w];
      var before := KeptAreLatest(front, k);
      var slots := Kept(front, k);
      KeptAppend(front, w, k);
      forall x | x in front ensures x.committedAt <= w.committedAt {}
      if |slots| == k {
        hide Kept, LatestOnes, ByCommit;
        ReplaceKeepsLatest(front, slots, before, w, StalestTo(slots, k));
        dropped := before + multiset{slots[StalestTo(slots, k)]};
      } else {
        FullOrNothing(front, slots, before);
        hide Kept;
      }
    }
  }

  lemma FullOrNothing(eligible: seq<CompletedWrite>, slots: seq<CompletedWrite>, dropped: multiset<CompletedWrite>)
    requires LatestOnes(eligible, slots, dropped) && |slots| == |eligible|
    ensures dropped == multiset{}
  {
    assert |multiset(slots) + dropped| == |slots| + |dropped|;
  }

  lemma KeptWithin(eligible: seq<CompletedWrite>, slots: seq<CompletedWrite>, dropped: multiset<CompletedWrite>, w: CompletedWrite)
    requires LatestOnes(eligible, slots, dropped) && forall x | x in eligible :: x.committedAt <= w.committedAt
    ensures forall i | 0 <= i < |slots| :: slots[i] in eligible && slots[i].committedAt <= w.committedAt
    ensures forall d | d in dropped :: d in eligible
  {
    forall i | 0 <= i < |slots| ensures slots[i] in eligible {
      assert slots[i] in multiset(slots);
      assert slots[i] in multiset(eligible);
    }
    forall d | d in dropped ensures d in eligible { assert d in multiset(eligible); }
  }

  // ----- when the last k are kept, and when the verdict is monotone in k

  /** The k-th and the (k+1)-th latest write commit at different times, or there are not so many. */
  predicate Apart(eligible: seq<CompletedWrite>, k: nat)
    requires k >= 1
  {
    var n := |eligible|;
    n <= k || eligible[n - k - 1].committedAt < eligible[n - k].committedAt
  }

  /** The last k writes, or all. */
  function Last(ws: seq<CompletedWrite>, k: nat): seq<CompletedWrite> {
    if k <= |ws| then ws[|ws| - k..] else ws
  }

  lemma PartCount<T>(a: multiset<T>, b: multiset<T>)
    requires a <= b
    ensures |a| <= |b|
    ensures |a| == |b| ==> a == b
  {
    assert b == a + (b - a);
  }

  lemma SplitCount(ws: seq<CompletedWrite>, i: nat)
    requires i <= |ws|
    ensures multiset(ws) == multiset(ws[..i]) + multiset(ws[i..])
  {
    assert ws == ws[..i] + ws[i..];
  }

  lemma LastOnes(eligible: seq<CompletedWrite>, k: nat)
    requires 1 <= k <= |eligible| && ByCommit(eligible)
    ensures multiset(Last(eligible, k)) <= multiset(eligible) && |Last(eligible, k)| == k
    ensures forall d | d in multiset(Last(eligible, k)) :: eligible[|eligible| - k].committedAt <= d.committedAt
  {
    SplitCount(eligible, |eligible| - k);
    var last := Last(eligible, k);
    forall d: CompletedWrite | d in multiset(last) ensures eligible[|eligible| - k].committedAt <= d.committedAt {
      var i :| 0 <= i < |last| && last[i] == d;
      assert last[i] == eligible[|eligible| - k + i];
    }
  }

  lemma SlotFloor(eligible: seq<CompletedWrite>, slots: seq<CompletedWrite>, dropped: multiset<CompletedWrite>, k: nat, i: nat)
    requires LatestOnes(eligible, slots, dropped) && 1 <= k == |slots| <= |eligible| && ByCommit(eligible) && i < k
    ensures eligible[|eligible| - k].committedAt <= slots[i].committedAt
  {
    var last := multiset(Last(eligible, k));
    LastOnes(eligible, k);
    hide Last, ByCommit;
    if last <= multiset(slots) {
      PartCount(last, multiset(slots));
      assert slots[i] in last;
    } else {
      var d :| last[d] > multiset(slots)[d];
      assert d in last && d in dropped;
    }
  }

  /** No kept write committed before the k-th latest. */
  lemma KeptFloor(eligible: seq<CompletedWrite>, k: nat, x: CompletedWrite)
    requires 1 <= k <= |eligible| && ByCommit(eligible) && x in Kept(eligible, k)
    ensures eligible[|eligible| - k].committedAt <= x.committedAt
  {
    var dropped := KeptAreLatest(eligible, k);
    var slots := Kept(eligible, k);
    hide Kept, LatestOnes, ByCommit;
    var i :| 0 <= i < |slots| && slots[i] == x;
    SlotFloor(eligible, slots, dropped, k, i);
  }

  lemma NotBefore(eligible: seq<CompletedWrite>, c: nat, x: CompletedWrite)
    requires 1 <= c < |eligible| && ByCommit(eligible) && Apart(eligible, c)
    requires eligible[|eligible| - c].committedAt <= x.committedAt
    ensures multiset(eligible)[x] == multiset(Last(eligible, c))[x]
  {
    var n := |eligible| - c;
    SplitCount(eligible, n);
    forall i | 0 <= i < n ensures eligible[..n][i] != x { assert eligible[i].committedAt <= eligible[n - 1].committedAt; }
    hide ByCommit;
    assert x !in eligible[..n];
  }

  /** Writes no earlier than the c-th latest are among the last c, if that one is apart. */
  lemma AmongLast(eligible: seq<CompletedWrite>, c: nat, part: multiset<CompletedWrite>)
    requires 1 <= c < |eligible| && ByCommit(eligible) && Apart(eligible, c) && part <= multiset(eligible)
    requires forall x | x in part :: eligible[|eligible| - c].committedAt <= x.committedAt
    ensures part <= multiset(Last(eligible, c)) && |part| <= c
  {
    LastOnes(eligible, c);
    hide ByCommit, Apart, Last;
    forall x: CompletedWrite | x in part ensures part[x] <= multiset(Last(eligible, c))[x] { NotBefore(eligible, c, x); }
    PartCount(part, multiset(Last(eligible, c)));
  }

  /** When the k-th latest is apart from the next, exactly the last k are kept. */
  lemma KeptAreLast(eligible: seq<CompletedWrite>, k: nat)
    requires k >= 1 && ByCommit(eligible) && Apart(eligible, k)
    ensures multiset(Kept(eligible, k)) == multiset(Last(eligible, k))
  {
    var dropped := KeptAreLatest(eligible, k);
    var slots := Kept(eligible, k);
    if |eligible| <= k {
      FullOrNothing(eligible, slots, dropped);
    } else {
      forall x: CompletedWrite | x in multiset(slots) ensures eligible[|eligible| - k].committedAt <= x.committedAt { KeptFloor(eligible, k, x); }
      hide Kept;
      AmongLast(eligible, k, multiset(slots));
      PartCount(multiset(slots), multiset(Last(eligible, k)));
    }
  }

  /** More than c writes cannot all be later than what they drop, if that is no earlier than the c-th latest and this one is apart. */
  lemma NoneDropped(eligible: seq<CompletedWrite>, slots: seq<CompletedWrite>, dropped: multiset<CompletedWrite>, c: nat, x: CompletedWrite)
    requires LatestOnes(eligible, slots, dropped) && 1 <= c <= |slots| && c < |eligible| && ByCommit(eligible) && Apart(eligible, c)
    requires eligible[|eligible| - c].committedAt <= x.committedAt
    ensures x !in dropped
  {
    if x in dropped {
      var part := multiset(slots) + multiset{x};
      forall y: CompletedWrite | y in part ensures eligible[|eligible| - c].committedAt <= y.committedAt {
        if y in multiset(slots) { var i :| 0 <= i < |slots| && slots[i] == y; }
      }
      hide LatestOnes, ByCommit, Apart;
      AmongLast(eligible, c, part);
      assert false;
    }
  }

  /** What k slots keep, more slots keep too, when some c between them is apart. */
  lemma KeptReach(eligible: seq<CompletedWrite>, k: nat, c: nat, more: nat, x: CompletedWrite)
    requires 1 <= k <= c <= more && ByCommit(eligible) && Apart(eligible, c) && x in Kept(eligible, k)
    ensures x in Kept(eligible, more)
  {
    hide Kept, LatestOnes, Apart;
    var before := KeptAreLatest(eligible, k);
    var dropped := KeptAreLatest(eligible, more);
    var slots, n := Kept(eligible, more), |eligible|;
    KeptOrDropped(eligible, Kept(eligible, k), before, x);
    KeptOrDropped(eligible, slots, dropped, x);
    if n <= more {
      FullOrNothing(eligible, slots, dropped);
    } else {
      KeptFloor(eligible, k, x);
      assert eligible[n - c].committedAt <= eligible[n - k].committedAt;
      NoneDropped(eligible, slots, dropped, c, x);
    }
  }

  lemma KeptOrDropped(eligible: seq<CompletedWrite>, slots: seq<CompletedWrite>, dropped: multiset<CompletedWrite>, x: CompletedWrite)
    requires LatestOnes(eligible, slots, dropped)
    ensures x in eligible <==> x in slots || x in dropped
  {
    assert x in eligible <==> x in multiset(eligible);
    assert x in slots <==> x in multiset(slots);
  }

  /** The newest write always has a slot, and a single slot holds nothing else. */
  lemma NewestKept(eligible: seq<CompletedWrite>, k: nat)
    requires k >= 1 && eligible != []
    ensures eligible[|eligible| - 1] in Kept(eligible, k)
    ensures Kept(eligible, 1) == [eligible[|eligible| - 1]]
  {
    var n := |eligible| - 1;
    var slots := Kept(eligible[..n], k);
    if |slots| < k {
      assert (slots + [eligible[n]])[|slots|] == eligible[n];
    } else {
      var i := StalestTo(slots, k);
      assert slots[i := eligible[n]][i] == eligible[n];
    }
  }

  /** One slot, or no tie between the k-th latest and the next, or none between that one and the one after. */
  predicate Steady(eligible: seq<CompletedWrite>, k: nat)
    requires k >= 1
  {
    k == 1 || Apart(eligible, k) || Apart(eligible, k + 1)
  }

  lemma KeptNest(eligible: seq<CompletedWrite>, k: nat, more: nat, x: CompletedWrite)
    requires 1 <= k <= more && ByCommit(eligible) && Steady(eligible, k) && x in Kept(eligible, k)
    ensures x in Kept(eligible, more)
  {
    hide Kept;
    if k == 1 {
      assert eligible != [] by { EmptyKept(eligible, k); }
      NewestKept(eligible, more);
    } else if Apart(eligible, k) {
      KeptReach(eligible, k, k, more, x);
    } else if k < more {
      KeptReach(eligible, k, k + 1, more, x);
    }
  }

  lemma EmptyKept(eligible: seq<CompletedWrite>, k: nat)
    requires k >= 1
    ensures eligible == [] ==> Kept(eligible, k) == []
  {
  }

  /** On a steady history a read that is regular for k is regular for every greater k. */
  lemma KMonotone(r: CompletedRead, writes: seq<CompletedWrite>, k: nat, more: nat)
    requires 1 <= k <= more && ByCommit(writes) && Steady(EligibleOf(r, writes), k) && Regular(r, writes, k)
    ensures Regular(r, writes, more)
  {
    if !SomeOverlaps(r, writes) {
      var e := EligibleOf(r, writes);
      EligibleSorted(r, writes);
      var i :| 0 <= i < |Kept(e, k)| && Consistent(Kept(e, k)[i].obj, r.objects);
      hide Consistent;
      KeptNest(e, k, more, Kept(e, k)[i]);
      var j :| 0 <= j < |Kept(e, more)| && Kept(e, more)[j] == Kept(e, k)[i];
    }
  }

  /** In particular distinct commit times make a history steady for every k. */
  lemma DistinctIsSteady(eligible: seq<CompletedWrite>, k: nat)
    requires k >= 1 && ByCommit(eligible)
    requires forall i, j | 0 <= i < j < |eligible| :: eligible[i].committedAt != eligible[j].committedAt
    ensures Steady(eligible, k)
  {
    var n := |eligible|;
    if n > k { assert eligible[n - k - 1].committedAt <= eligible[n - k].committedAt; }
  }

  // ----- ObserveKP

  function KRegularReads(rs: seq<CompletedRead>, writes: seq<CompletedWrite>, k: nat): (n: nat)
    requires k >= 1
    ensures n <= |rs|
  {
    if rs == [] then 0
    else KRegularReads(rs[..|rs| - 1], writes, k) + if Regular(rs[|rs| - 1], writes, k) then 1 else 0
  }

  function KP(rs: seq<CompletedRead>, writes: seq<CompletedWrite>, k: nat): (p: real)
    requires k >= 1
    ensures 0.0 <= p <= 1.0
  {
    if |rs| == 0 then 0.0 else Fraction(KRegularReads(rs, writes, k), |rs|)
  }

  method ObserveKP(rs: seq<CompletedRead>, writes: seq<CompletedWrite>, k: nat) returns (p: real)
    requires k >= 1
    ensures p == KP(rs, writes, k)
  {
    if |rs| == 0 { return 0.0; }
    var consistentCount := 0;
    hide Regular;
    for i := 0 to |rs|
      invariant consistentCount == KRegularReads(rs[..i], writes, k)
    {
      assert rs[..i + 1][..i] == rs[..i];
      var ok := IsKRegular(rs[i], writes, k);
      if ok { consistentCount := consistentCount + 1; }
    }
    assert rs[..|rs|] == rs;
    p := Fraction(consistentCount, |rs|);
  }

  lemma {:induction false} KRegularReadsMonotone(rs: seq<CompletedRead>, writes: seq<CompletedWrite>, k: nat, more: nat)
    requires 1 <= k <= more && ByCommit(writes) && forall i | 0 <= i < |rs| :: Steady(EligibleOf(rs[i], writes), k)
    ensures KRegularReads(rs, writes, k) <= KRegularReads(rs, writes, more)
  {
    if rs != [] {
      var n := |rs| - 1;
      hide Regular, Steady, EligibleOf;
      KRegularReadsMonotone(rs[..n], writes, k, more);
      if Regular(rs[n], writes, k) { KMonotone(rs[n], writes, k, more); }
    }
  }

  lemma KPMonotone(rs: seq<CompletedRead>, writes: seq<CompletedWrite>, k: nat, more: nat)
    requires 1 <= k <= more && ByCommit(writes) && forall i | 0 <= i < |rs| :: Steady(EligibleOf(rs[i], writes), k)
    ensures KP(rs, writes, k) <= KP(rs, writes, more)
  {
    KRegularReadsMonotone(rs, writes, k, more);
    if |rs| > 0 { FractionMonotone(KRegularReads(rs, writes, k), KRegularReads(rs, writes, more), |rs|); }
  }
}
