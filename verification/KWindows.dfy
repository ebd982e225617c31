/**
 k-regularity in commit times (src/kvsrv_eval/observer.go:146-187): which write makes a read k-regular, by how many
 writes of the key had committed later, and the observed probability as a share of the reads.
 */
module KWindows {
  import opened Collector
  import opened Observer
  import opened KRegular
  import opened DeltaWindows

  // ----- counting later commits

  /** How many prior writes committed at this time or later. */
  function Since(r: CompletedRead, writes: seq<CompletedWrite>, t: Time): nat {
    if writes == [] then 0
    else
      var n := |writes| - 1;
      Since(r, writes[..n], t) + if Prior(r, writes[n]) && writes[n].committedAt >= t then 1 else 0
  }

  function CountSince(ws: seq<CompletedWrite>, t: Time): nat {
    if ws == [] then 0
    else
      var n := |ws| - 1;
      CountSince(ws[..n], t) + if ws[n].committedAt >= t then 1 else 0
  }

  lemma EligibleIsPrior(r: CompletedRead, w: CompletedWrite)
    ensures Eligible(r, w) <==> Prior(r, w)
    ensures w.key == r.key ==> (Overlaps(r, w) <==> During(r, w))
  {
  }

  lemma {:induction false} SinceEligible(r: CompletedRead, writes: seq<CompletedWrite>, t: Time)
    ensures CountSince(EligibleOf(r, writes), t) == Since(r, writes, t)
  {
    if writes != [] {
      var n := |writes| - 1;
      SinceEligible(r, writes[..n], t);
      EligibleIsPrior(r, writes[n]);
      var front := EligibleOf(r, writes[..n]);
      hide Eligible, Prior;
      if Eligible(r, writes[n]) { assert (front + [writes[n]])[..|front|] == front; } else { assert front + [] == front; }
    }
  }

  lemma {:induction false} SortedCount(ws: seq<CompletedWrite>, t: Time) returns (m: nat)
    requires ByCommit(ws)
    ensures m <= |ws| && CountSince(ws, t) == |ws| - m
    ensures (forall i | 0 <= i < m :: ws[i].committedAt < t) && forall i | m <= i < |ws| :: ws[i].committedAt >= t
  {
    m := 0;
    if ws != [] {
      var n := |ws| - 1;
      m := SortedCount(ws[..n], t);
      assert forall i | 0 <= i < n :: ws[..n][i] == ws[i];
      if m == n && ws[n].committedAt < t { m := n + 1; }
      if m < n { assert ws[m].committedAt <= ws[n].committedAt; }
    }
  }

  // ----- which writes are kept

  /** A kept write has fewer than k later ones. */
  lemma KeptHasFewLater(eligible: seq<CompletedWrite>, k: nat, x: CompletedWrite)
    requires k >= 1 && ByCommit(eligible) && x in Kept(eligible, k)
    ensures CountSince(eligible, x.committedAt + 1) < k
  {
    var dropped := KeptAreLatest(eligible, k);
    KeptOrDropped(eligible, Kept(eligible, k), dropped, x);
    if |eligible| >= k { KeptFloor(eligible, k, x); }
    hide Kept, LatestOnes;
    var m := SortedCount(eligible, x.committedAt + 1);
    var i :| 0 <= i < |eligible| && eligible[i] == x;
    assert i < m;
  }

  /** A write that is among the k latest whatever the ties is kept. */
  lemma FewSinceIsKept(eligible: seq<CompletedWrite>, k: nat, x: CompletedWrite)
    requires k >= 1 && ByCommit(eligible) && x in eligible && CountSince(eligible, x.committedAt) <= k
    ensures x in Kept(eligible, k)
  {
    var dropped := KeptAreLatest(eligible, k);
    var slots := Kept(eligible, k);
    KeptOrDropped(eligible, slots, dropped, x);
    if |eligible| <= k { FullOrNothing(eligible, slots, dropped); }
    hide Kept, LatestOnes;
    var m := SortedCount(eligible, x.committedAt);
    var i :| 0 <= i < |eligible| && eligible[i] == x;
    if |eligible| > k { NoneDropped(eligible, slots, dropped, |eligible| - m, x); }
  }

  /** Without a tie at the boundary the two counts decide alike. */
  lemma ApartCounts(eligible: seq<CompletedWrite>, k: nat, x: CompletedWrite)
    requires k >= 1 && ByCommit(eligible) && Apart(eligible, k) && x in eligible && CountSince(eligible, x.committedAt + 1) < k
    ensures CountSince(eligible, x.committedAt) <= k
  {
    var m := SortedCount(eligible, x.committedAt);
    var l := SortedCount(eligible, x.committedAt + 1);
    var n := |eligible|;
    if n > k { assert eligible[n - k - 1].committedAt < eligible[n - k].committedAt <= x.committedAt; }
  }

  // ----- what makes a read regular

  /** Write i is consistent with what was returned, and during the read, or prior with fewer than k later. */
  predicate AmongLatest(r: CompletedRead, writes: seq<CompletedWrite>, k: nat, i: nat) {
    && i < |writes| && Consistent(writes[i].obj, r.objects)
    && (During(r, writes[i]) || (Prior(r, writes[i]) && Since(r, writes, writes[i].committedAt + 1) < k))
  }

  /** The same with at most k as late, itself included: among the k latest however ties are broken. */
  predicate SurelyAmongLatest(r: CompletedRead, writes: seq<CompletedWrite>, k: nat, i: nat) {
    && i < |writes| && Consistent(writes[i].obj, r.objects)
    && (During(r, writes[i]) || (Prior(r, writes[i]) && Since(r, writes, writes[i].committedAt) <= k))
  }

  lemma OverlapIsDuring(r: CompletedRead, writes: seq<CompletedWrite>)
    ensures SomeOverlaps(r, writes) <==> exists i: nat :: i < |writes| && During(r, writes[i]) && Consistent(writes[i].obj, r.objects)
  {
    forall w: CompletedWrite ensures w.key == r.key && Overlaps(r, w) <==> During(r, w) { EligibleIsPrior(r, w); }
    hide Consistent, Overlaps, During;
    if SomeOverlaps(r, writes) {
      var i :| 0 <= i < |writes| && writes[i].key == r.key && Overlaps(r, writes[i]) && Consistent(writes[i].obj, r.objects);
    }
  }

  lemma EligibleAt(r: CompletedRead, writes: seq<CompletedWrite>, w: CompletedWrite)
    requires ByCommit(writes)
    ensures w in EligibleOf(r, writes) <==> exists i: nat :: i < |writes| && writes[i] == w && Prior(r, w)
  {
    EligibleSorted(r, writes);
    EligibleIsPrior(r, w);
    hide Eligible, EligibleOf, Prior;
  }

  lemma KeptIsEligible(eligible: seq<CompletedWrite>, k: nat, x: CompletedWrite)
    requires k >= 1 && ByCommit(eligible) && x in Kept(eligible, k)
    ensures x in eligible
  {
    var dropped := KeptAreLatest(eligible, k);
    KeptOrDropped(eligible, Kept(eligible, k), dropped, x);
  }

  lemma EligibleByCommit(r: CompletedRead, writes: seq<CompletedWrite>)
    requires ByCommit(writes)
    ensures ByCommit(EligibleOf(r, writes))
  {
    EligibleSorted(r, writes);
  }

  /** A kept write is among the latest but for ties. */
  lemma KeptIsAmong(r: CompletedRead, writes: seq<CompletedWrite>, k: nat, w: CompletedWrite) returns (i: nat)
    requires k >= 1 && ByCommit(writes) && w in Kept(EligibleOf(r, writes), k) && Consistent(w.obj, r.objects)
    ensures AmongLatest(r, writes, k, i)
  {
    var e := EligibleOf(r, writes);
    hide *;
    EligibleByCommit(r, writes);
    KeptHasFewLater(e, k, w);
    KeptIsEligible(e, k, w);
    EligibleAt(r, writes, w);
    SinceEligible(r, writes, w.committedAt + 1);
    i :| i < |writes| && writes[i] == w && Prior(r, w);
    PriorIsAmong(r, writes, k, i);
  }

  lemma NeedsLatest(r: CompletedRead, writes: seq<CompletedWrite>, k: nat) returns (i: nat)
    requires k >= 1 && ByCommit(writes) && Regular(r, writes, k)
    ensures AmongLatest(r, writes, k, i)
  {
    OverlapIsDuring(r, writes);
    hide Consistent, During, EligibleOf, Kept, AmongLatest, Overlaps, ByCommit;
    if SomeOverlaps(r, writes) {
      hide SomeOverlaps;
      i :| i < |writes| && During(r, writes[i]) && Consistent(writes[i].obj, r.objects);
      OverlapIsAmong(r, writes, k, i);
    } else {
      var slots := Kept(EligibleOf(r, writes), k);
      var j :| 0 <= j < |slots| && Consistent(slots[j].obj, r.objects);
      i := KeptIsAmong(r, writes, k, slots[j]);
    }
  }

  lemma OverlapIsAmong(r: CompletedRead, writes: seq<CompletedWrite>, k: nat, i: nat)
    requires i < |writes| && During(r, writes[i]) && Consistent(writes[i].obj, r.objects)
    ensures AmongLatest(r, writes, k, i)
  {
  }

  lemma PriorIsAmong(r: CompletedRead, writes: seq<CompletedWrite>, k: nat, i: nat)
    requires i < |writes| && Prior(r, writes[i]) && Consistent(writes[i].obj, r.objects)
    requires Since(r, writes, writes[i].committedAt + 1) < k
    ensures AmongLatest(r, writes, k, i)
  {
  }

  lemma SurelyIsEnough(r: CompletedRead, writes: seq<CompletedWrite>, k: nat, i: nat)
    requires k >= 1 && ByCommit(writes) && SurelyAmongLatest(r, writes, k, i)
    ensures Regular(r, writes, k)
  {
    var e := EligibleOf(r, writes);
    OverlapIsDuring(r, writes);
    if !During(r, writes[i]) {
      EligibleAt(r, writes, writes[i]);
      EligibleByCommit(r, writes);
      SinceEligible(r, writes, writes[i].committedAt);
      FewSinceIsKept(e, k, writes[i]);
      hide Consistent, EligibleOf, Kept;
      var j :| 0 <= j < |Kept(e, k)| && Kept(e, k)[j] == writes[i];
    }
  }

  /** Whatever ties there are: surely among the k latest is enough, and among them but for ties is needed. */
  lemma RegularBounds(r: CompletedRead, writes: seq<CompletedWrite>, k: nat)
    requires k >= 1 && ByCommit(writes)
    ensures Regular(r, writes, k) ==> exists i: nat :: AmongLatest(r, writes, k, i)
    ensures (exists i: nat :: SurelyAmongLatest(r, writes, k, i)) ==> Regular(r, writes, k)
  {
    hide Regular, AmongLatest, SurelyAmongLatest;
    if Regular(r, writes, k) { var i := NeedsLatest(r, writes, k); }
    if i: nat :| SurelyAmongLatest(r, writes, k, i) { SurelyIsEnough(r, writes, k, i); }
  }

  /**
   When the k-th and the (k+1)-th latest prior write commit at different times, or there are at most k, a read is
   k-regular exactly when a write consistent with what it returned is during the read, or prior with fewer than k later.
   */
  lemma RegularExactly(r: CompletedRead, writes: seq<CompletedWrite>, k: nat)
    requires k >= 1 && ByCommit(writes) && Apart(EligibleOf(r, writes), k)
    ensures Regular(r, writes, k) <==> exists i: nat :: AmongLatest(r, writes, k, i)
  {
    RegularBounds(r, writes, k);
    var e := EligibleOf(r, writes);
    EligibleByCommit(r, writes);
    hide Regular, Consistent, During, EligibleOf, Prior, Apart;
    if i: nat :| AmongLatest(r, writes, k, i) {
      if !During(r, writes[i]) {
        EligibleAt(r, writes, writes[i]);
        SinceEligible(r, writes, writes[i].committedAt + 1);
        SinceEligible(r, writes, writes[i].committedAt);
        ApartCounts(e, k, writes[i]);
      }
      assert SurelyAmongLatest(r, writes, k, i);
    }
  }

  // ----- the observed probability

  function RegularSet(rs: seq<CompletedRead>, writes: seq<CompletedWrite>, k: nat): set<nat>
    requires k >= 1
  {
    set i: nat | i < |rs| && Regular(rs[i], writes, k)
  }

  lemma RegularStep(rs: seq<CompletedRead>, writes: seq<CompletedWrite>, k: nat)
    requires k >= 1 && rs != []
    ensures var n := |rs| - 1;
      |RegularSet(rs, writes, k)| == |RegularSet(rs[..n], writes, k)| + if Regular(rs[n], writes, k) then 1 else 0
  {
    hide Regular;
    var n := |rs| - 1;
    var before := RegularSet(rs[..n], writes, k);
    assert forall i | 0 <= i < n :: rs[..n][i] == rs[i];
    assert RegularSet(rs, writes, k) == before + if Regular(rs[n], writes, k) then {n} else {};
  }

  lemma {:induction false} RegularReadsCount(rs: seq<CompletedRead>, writes: seq<CompletedWrite>, k: nat)
    requires k >= 1
    ensures KRegularReads(rs, writes, k) == |RegularSet(rs, writes, k)|
  {
    if rs != [] {
      hide Regular, RegularSet;
      RegularReadsCount(rs[..|rs| - 1], writes, k);
      RegularStep(rs, writes, k);
    }
  }

  /** The observed probability is the share of the reads that are k-regular. */
  lemma ShareOfRegular(rs: seq<CompletedRead>, writes: seq<CompletedWrite>, k: nat)
    requires k >= 1 && rs != []
    ensures KP(rs, writes, k) == |RegularSet(rs, writes, k)| as real / |rs| as real
  {
    RegularReadsCount(rs, writes, k);
    hide RegularSet, KRegularReads;
  }
}
