/**
 Why k-regularity is not monotone on every history, and that the condition for it cannot be weakened: whenever the
 k-th, (k+1)-th and (k+2)-th latest commit times are equal, some history with these latest times breaks it.
 */
module KTies {
  import opened VectorClock
  import opened Siblings
  import opened Collector
  import opened Observer
  import opened KRegular

  // ----- which slot is taken

  /** Slot i is the first of the stalest. */
  predicate FirstStalest(slots: seq<CompletedWrite>, i: nat) {
    && i < |slots| && (forall j | 0 <= j < |slots| :: slots[i].committedAt <= slots[j].committedAt)
    && forall j | 0 <= j < i :: slots[i].committedAt < slots[j].committedAt
  }

  lemma Advance(before: seq<CompletedWrite>, k: nat, slots: seq<CompletedWrite>, w: CompletedWrite, i: nat, after: seq<CompletedWrite>, slots': seq<CompletedWrite>)
    requires k >= 1 && Kept(before, k) == slots && |slots| == k && FirstStalest(slots, i)
    requires after == before + [w] && slots' == slots[i := w]
    ensures Kept(after, k) == slots'
  {
    KeptAppend(before, w, k);
    assert StalestTo(slots, k) == i;
  }

  function Copies(n: nat, w: CompletedWrite): seq<CompletedWrite> { seq(n, _ => w) }

  lemma {:induction false} CopiesKept(n: nat, w: CompletedWrite, k: nat)
    requires n <= k && k >= 1
    ensures Kept(Copies(n, w), k) == Copies(n, w)
  {
    if n > 0 {
      CopiesKept(n - 1, w, k);
      assert Copies(n, w) == Copies(n - 1, w) + [w];
      KeptAppend(Copies(n - 1, w), w, k);
    }
  }

  /** All slots equally late: later writes take them from the first on. */
  lemma {:induction false} LaterTake(eligible: seq<CompletedWrite>, k: nat, slots: seq<CompletedWrite>, later: seq<CompletedWrite>, t: Time)
    requires k >= 1 && Kept(eligible, k) == slots && |slots| == k > |later|
    requires (forall s | 0 <= s < k :: slots[s].committedAt == t) && forall s | 0 <= s < |later| :: later[s].committedAt > t
    ensures Kept(eligible + later, k) == later + slots[|later|..]
    decreases later
  {
    hide Kept;
    if later == [] {
      assert eligible + later == eligible && later + slots[0..] == slots;
    } else {
      var n := |later| - 1;
      var front := later[..n];
      LaterTake(eligible, k, slots, front, t);
      Advance(eligible + front, k, front + slots[n..], later[n], n, eligible + later, later + slots[n + 1..]);
    }
  }

  // ----- one slot per write, from a tied group on

  /** k writes, one that is later, and then a group that is later still. */
  ghost predicate Grouped(z: CompletedWrite, y: CompletedWrite, group: seq<CompletedWrite>, t: Time) {
    z.committedAt < y.committedAt < t && forall j | 0 <= j < |group| :: group[j].committedAt == t
  }

  function Prefix(k: nat, z: CompletedWrite, y: CompletedWrite): seq<CompletedWrite> { Copies(k, z) + [y] }

  /** With k slots the later one sits in the first slot, so the group starts at the second. */
  function Shifted(k: nat, z: CompletedWrite, first: CompletedWrite, group: seq<CompletedWrite>, j: nat): seq<CompletedWrite>
    requires j <= |group|
  {
    seq(k, s requires 0 <= s < k => if s == 0 then first else if s <= j then group[s - 1] else z)
  }

  lemma {:induction false} ShiftedKept(k: nat, z: CompletedWrite, y: CompletedWrite, group: seq<CompletedWrite>, t: Time, j: nat)
    requires k >= 2 && Grouped(z, y, group, t) && j < k && j <= |group|
    ensures Kept(Prefix(k, z, y) + group[..j], k) == Shifted(k, z, y, group, j)
    decreases j
  {
    hide Kept;
    var pre := Prefix(k, z, y);
    if j == 0 {
      CopiesKept(k, z, k);
      Advance(Copies(k, z), k, Copies(k, z), y, 0, pre + group[..0], Shifted(k, z, y, group, 0));
    } else {
      ShiftedKept(k, z, y, group, t, j - 1);
      Advance(pre + group[..j - 1], k, Shifted(k, z, y, group, j - 1), group[j - 1], j, pre + group[..j], Shifted(k, z, y, group, j));
    }
  }

  /** Once every slot has a write of the group, the rest of the group passes through the first slot. */
  lemma {:induction false} ShiftedFull(k: nat, z: CompletedWrite, y: CompletedWrite, group: seq<CompletedWrite>, t: Time, j: nat)
    requires k >= 2 && Grouped(z, y, group, t) && k <= j <= |group|
    ensures Kept(Prefix(k, z, y) + group[..j], k) == Shifted(k, z, group[j - 1], group, k - 1)
    decreases j
  {
    hide Kept;
    var pre := Prefix(k, z, y);
    var slots := if j == k then Shifted(k, z, y, group, k - 1) else Shifted(k, z, group[j - 2], group, k - 1);
    if j == k { ShiftedKept(k, z, y, group, t, k - 1); } else { ShiftedFull(k, z, y, group, t, j - 1); }
    Advance(pre + group[..j - 1], k, slots, group[j - 1], 0, pre + group[..j], Shifted(k, z, group[j - 1], group, k - 1));
  }

  /** With k + 1 slots the later one sits in the last slot, so the group starts at the first. */
  function Straight(k: nat, z: CompletedWrite, y: CompletedWrite, group: seq<CompletedWrite>, j: nat): seq<CompletedWrite>
    requires j <= |group|
  {
    seq(k + 1, s requires 0 <= s <= k => if s < j then group[s] else if s < k then z else y)
  }

  lemma PrefixKept(k: nat, z: CompletedWrite, y: CompletedWrite)
    ensures Kept(Prefix(k, z, y), k + 1) == Prefix(k, z, y)
  {
    CopiesKept(k, z, k + 1);
    KeptAppend(Copies(k, z), y, k + 1);
  }

  lemma {:induction false} StraightKept(k: nat, z: CompletedWrite, y: CompletedWrite, group: seq<CompletedWrite>, t: Time, j: nat)
    requires k >= 2 && Grouped(z, y, group, t) && j <= k + 1 && j <= |group|
    ensures Kept(Prefix(k, z, y) + group[..j], k + 1) == Straight(k, z, y, group, j)
    decreases j
  {
    hide Kept;
    var pre := Prefix(k, z, y);
    if j == 0 {
      PrefixKept(k, z, y);
      assert pre + group[..0] == pre;
      assert pre == Straight(k, z, y, group, 0);
    } else {
      StraightKept(k, z, y, group, t, j - 1);
      Advance(pre + group[..j - 1], k + 1, Straight(k, z, y, group, j - 1), group[j - 1], j - 1, pre + group[..j], Straight(k, z, y, group, j));
    }
  }

  lemma StraightFull(k: nat, z: CompletedWrite, y: CompletedWrite, group: seq<CompletedWrite>, t: Time)
    requires k >= 2 && Grouped(z, y, group, t) && |group| == k + 2
    ensures Kept(Prefix(k, z, y) + group, k + 1) == [group[k + 1]] + group[1..k + 1]
  {
    hide Kept;
    StraightKept(k, z, y, group, t, k + 1);
    var pre, slots := Prefix(k, z, y), Straight(k, z, y, group, k + 1);
    Advance(pre + group[..k + 1], k + 1, slots, group[k + 1], 0, pre + group, [group[k + 1]] + group[1..k + 1]);
  }

  // ----- a history that breaks monotonicity

  const SEEN: Object := Object([], Context(map[[1] := 1], 1, []))
  const OTHER: Object := Object([], Context(map[[2] := 1], 1, []))

  lemma OtherIsMissed()
    ensures Consistent(SEEN, [SEEN]) && !Consistent(OTHER, [SEEN])
  {
    assert Version(Clock(OTHER), [2]) == 1 && Version(Clock(SEEN), [2]) == 0;
    assert Version(Clock(OTHER), [1]) == 0 && Version(Clock(SEEN), [1]) == 1;
    assert Cmp(Clock(OTHER), Clock(SEEN)) == Concurrent;
    assert [SEEN][1..] == [];
  }

  function WriteAt(t: Time, obj: Object): CompletedWrite { CompletedWrite([], t, t, obj) }

  /** n tied writes; the read returns the object of the p-th. */
  function Group(n: nat, t: Time, p: nat): (r: seq<CompletedWrite>)
    ensures |r| == n && forall j | 0 <= j < n :: r[j] == WriteAt(t, if j == p then SEEN else OTHER)
  {
    seq(n, j => WriteAt(t, if j == p then SEEN else OTHER))
  }

  function Others(times: seq<Time>): (r: seq<CompletedWrite>)
    ensures |r| == |times| && forall i | 0 <= i < |r| :: r[i] == WriteAt(times[i], OTHER)
  {
    seq(|times|, i requires 0 <= i < |times| => WriteAt(times[i], OTHER))
  }

  /** The tied write that k slots keep and k + 1 drop, with `later` writes behind the group. */
  function Victim(later: nat): nat { if later == 0 then 0 else later - 1 }

  function Before(k: nat, t: Time): seq<CompletedWrite> { Prefix(k, WriteAt(t - 2, OTHER), WriteAt(t - 1, OTHER)) }

  function History(k: nat, t: Time, later: seq<Time>): seq<CompletedWrite> {
    Before(k, t) + Group(k + 2, t, Victim(|later|)) + Others(later)
  }

  lemma GroupGrouped(k: nat, t: Time, p: nat)
    ensures Grouped(WriteAt(t - 2, OTHER), WriteAt(t - 1, OTHER), Group(k + 2, t, p), t)
  {
  }

  /** The k slots after the history: the later writes, then the group from its second slot on. */
  lemma SlotsAfter(k: nat, t: Time, later: seq<Time>, group: seq<CompletedWrite>)
    requires k >= 2 && |later| < k && group == Group(k + 2, t, Victim(|later|)) && forall i | 0 <= i < |later| :: later[i] > t
    ensures Kept(History(k, t, later), k) == Others(later) + Shifted(k, WriteAt(t - 2, OTHER), group[k + 1], group, k - 1)[|later|..]
  {
    hide Kept, Prefix;
    GroupGrouped(k, t, Victim(|later|));
    ShiftedFull(k, WriteAt(t - 2, OTHER), WriteAt(t - 1, OTHER), group, t, k + 2);
    assert group[..k + 2] == group;
    LaterTake(Before(k, t) + group, k, Shifted(k, WriteAt(t - 2, OTHER), group[k + 1], group, k - 1), Others(later), t);
  }

  lemma VictimKept(k: nat, t: Time, later: seq<Time>)
    requires k >= 2 && |later| < k && forall i | 0 <= i < |later| :: later[i] > t
    ensures WriteAt(t, SEEN) in Kept(History(k, t, later), k)
  {
    hide Kept, History;
    var group, p := Group(k + 2, t, Victim(|later|)), Victim(|later|);
    SlotsAfter(k, t, later, group);
    var slots := Shifted(k, WriteAt(t - 2, OTHER), group[k + 1], group, k - 1);
    assert (Others(later) + slots[|later|..])[p + 1] == slots[p + 1] == group[p];
  }

  /** The k + 1 slots after the history: the later writes, then the group from its first slot on, with the last in front. */
  lemma MoreSlotsAfter(k: nat, t: Time, later: seq<Time>, group: seq<CompletedWrite>)
    requires k >= 2 && |later| < k && group == Group(k + 2, t, Victim(|later|)) && forall i | 0 <= i < |later| :: later[i] > t
    ensures Kept(History(k, t, later), k + 1) == Others(later) + ([group[k + 1]] + group[1..k + 1])[|later|..]
  {
    hide Kept, Prefix;
    GroupGrouped(k, t, Victim(|later|));
    StraightFull(k, WriteAt(t - 2, OTHER), WriteAt(t - 1, OTHER), group, t);
    LaterTake(Before(k, t) + group, k + 1, [group[k + 1]] + group[1..k + 1], Others(later), t);
  }

  lemma VictimDropped(k: nat, t: Time, later: seq<Time>, i: nat)
    requires k >= 2 && |later| < k && (forall i | 0 <= i < |later| :: later[i] > t) && i < k + 1
    ensures |Kept(History(k, t, later), k + 1)| == k + 1 && Kept(History(k, t, later), k + 1)[i].obj == OTHER
  {
    hide Kept, History;
    var group := Group(k + 2, t, Victim(|later|));
    MoreSlotsAfter(k, t, later, group);
    var slots := [group[k + 1]] + group[1..k + 1];
    assert i >= |later| ==> (Others(later) + slots[|later|..])[i] == slots[i];
    assert i >= 1 ==> slots[i] == group[i];
  }

  lemma {:induction false} AllEligible(r: CompletedRead, writes: seq<CompletedWrite>)
    requires forall i | 0 <= i < |writes| :: Eligible(r, writes[i])
    ensures EligibleOf(r, writes) == writes
  {
    if writes != [] {
      var n := |writes| - 1;
      AllEligible(r, writes[..n]);
      assert writes == writes[..n] + [writes[n]];
    }
  }

  /** The read begins with the last commit. */
  function ReadOf(t: Time, later: seq<Time>): CompletedRead {
    var now := if later == [] then t else later[|later| - 1];
    CompletedRead([], now, now, [SEEN])
  }

  /** Commit times of a history, place by place. */
  lemma HistoryTimes(k: nat, t: Time, later: seq<Time>, i: nat)
    requires i < 2 * k + 3 + |later|
    ensures |History(k, t, later)| == 2 * k + 3 + |later|
    ensures var w := History(k, t, later)[i];
      && w.key == [] && w.startedAt == w.committedAt
      && w.committedAt == if i < k then t - 2 else if i == k then t - 1 else if i < 2 * k + 3 then t else later[i - (2 * k + 3)]
  {
    var pre, group, rest := Before(k, t), Group(k + 2, t, Victim(|later|)), Others(later);
    assert i < k ==> pre[i] == WriteAt(t - 2, OTHER);
    assert k < i < 2 * k + 3 ==> (pre + group + rest)[i] == group[i - (k + 1)];
    assert 2 * k + 3 <= i ==> (pre + group + rest)[i] == rest[i - (2 * k + 3)];
  }

  lemma HistoryGood(k: nat, t: Time, later: seq<Time>)
    requires Ascending(later) && forall i | 0 <= i < |later| :: later[i] > t
    ensures ByCommit(History(k, t, later)) && EligibleOf(ReadOf(t, later), History(k, t, later)) == History(k, t, later)
    ensures !SomeOverlaps(ReadOf(t, later), History(k, t, later))
  {
    var r, writes := ReadOf(t, later), History(k, t, later);
    HistoryTimes(k, t, later, 0);
    hide History, Consistent;
    forall i, j | 0 <= i < j < |writes| ensures writes[i].committedAt <= writes[j].committedAt {
      HistoryTimes(k, t, later, i);
      HistoryTimes(k, t, later, j);
    }
    forall i | 0 <= i < |writes| ensures Eligible(r, writes[i]) { HistoryTimes(k, t, later, i); }
    AllEligible(r, writes);
  }

  lemma HistoryBreaks(k: nat, t: Time, later: seq<Time>)
    requires k >= 2 && |later| < k && Ascending(later) && forall i | 0 <= i < |later| :: later[i] > t
    ensures Regular(ReadOf(t, later), History(k, t, later), k) && !Regular(ReadOf(t, later), History(k, t, later), k + 1)
  {
    var r, writes := ReadOf(t, later), History(k, t, later);
    HistoryGood(k, t, later);
    OtherIsMissed();
    VictimKept(k, t, later);
    hide Kept, EligibleOf, History, SomeOverlaps, Consistent;
    var i :| 0 <= i < |Kept(writes, k)| && Kept(writes, k)[i] == WriteAt(t, SEEN);
    assert Consistent(Kept(writes, k)[i].obj, r.objects);
    var slots := Kept(writes, k + 1);
    forall j | 0 <= j < |slots| ensures !Consistent(slots[j].obj, r.objects) { VictimDropped(k, t, later, j); }
  }

  // ----- the exact condition

  /** The n latest commit times. */
  predicate LatestTimes(eligible: seq<CompletedWrite>, times: seq<Time>) {
    |eligible| >= |times| && CommitTimes(Last(eligible, |times|)) == times
  }

  /** On every history with these latest commit times, regularity for k implies it for every greater k. */
  ghost predicate MonotoneFor(times: seq<Time>, k: nat)
    requires k >= 1
  {
    forall r: CompletedRead, writes: seq<CompletedWrite>, more: nat
      | ByCommit(writes) && LatestTimes(EligibleOf(r, writes), times) && k <= more && Regular(r, writes, k)
      :: Regular(r, writes, more)
  }

  lemma LatestAt(eligible: seq<CompletedWrite>, times: seq<Time>, i: nat)
    requires LatestTimes(eligible, times) && i < |times|
    ensures eligible[|eligible| - |times| + i].committedAt == times[i]
  {
    assert CommitTimes(Last(eligible, |times|))[i] == Last(eligible, |times|)[i].committedAt;
  }

  lemma SteadyTimes(eligible: seq<CompletedWrite>, times: seq<Time>, k: nat)
    requires k >= 1 && |times| == k + 2 && LatestTimes(eligible, times)
    requires k == 1 || times[0] < times[1] || times[1] < times[2]
    ensures Steady(eligible, k)
  {
    LatestAt(eligible, times, 0);
    LatestAt(eligible, times, 1);
    LatestAt(eligible, times, 2);
  }

  /** Where the times rise above the first. */
  function Rise(times: seq<Time>, t: Time): (m: nat)
    requires Ascending(times)
    ensures m <= |times| && (forall i | 0 <= i < m :: times[i] <= t) && forall i | m <= i < |times| :: times[i] > t
  {
    if times == [] || times[|times| - 1] <= t then |times| else Rise(times[..|times| - 1], t)
  }

  lemma HistoryLatest(k: nat, times: seq<Time>, m: nat)
    requires |times| == k + 2 && 1 <= m <= |times| && forall i | 0 <= i < m :: times[i] == times[0]
    ensures LatestTimes(History(k, times[0], times[m..]), times)
  {
    var t, later := times[0], times[m..];
    var writes, n := History(k, t, later), |times|;
    HistoryTimes(k, t, later, 0);
    hide History;
    var last := Last(writes, n);
    forall i | 0 <= i < n ensures CommitTimes(last)[i] == times[i] {
      HistoryTimes(k, t, later, |writes| - n + i);
      assert last[i] == writes[|writes| - n + i];
    }
  }

  lemma TieBreaks(times: seq<Time>, k: nat)
    requires k >= 2 && |times| == k + 2 && Ascending(times) && times[0] == times[1] == times[2]
    ensures !MonotoneFor(times, k)
  {
    var t, m := times[0], Rise(times, times[0]);
    var later := times[m..];
    assert m >= 3;
    HistoryLatest(k, times, m);
    HistoryGood(k, t, later);
    HistoryBreaks(k, t, later);
    hide Regular, History, EligibleOf, LatestTimes, ByCommit;
    assert !Regular(ReadOf(t, later), History(k, t, later), k + 1);
  }

  /**
   Looking at the k + 2 latest commit times before the read: regularity is monotone from k on, for all histories that
   end so, exactly when k is 1 or the first three of these times are not all equal.
   */
  lemma KMonotoneExactly(times: seq<Time>, k: nat)
    requires k >= 1 && |times| == k + 2 && Ascending(times)
    ensures MonotoneFor(times, k) <==> k == 1 || times[0] < times[1] || times[1] < times[2]
  {
    if k == 1 || times[0] < times[1] || times[1] < times[2] {
      forall r: CompletedRead, writes: seq<CompletedWrite>, more: nat
        | ByCommit(writes) && LatestTimes(EligibleOf(r, writes), times) && k <= more && Regular(r, writes, k)
        ensures Regular(r, writes, more)
      {
        SteadyTimes(EligibleOf(r, writes), times, k);
        KMonotone(r, writes, k, more);
      }
    } else {
      TieBreaks(times, k);
    }
  }

  /** For instance with four latest writes at one time a read can be regular for k = 2 and not for k = 3. */
  lemma TiesBreakMonotonicity() returns (r: CompletedRead, writes: seq<CompletedWrite>)
    ensures ByCommit(writes) && Regular(r, writes, 2) && !Regular(r, writes, 3)
  {
    r, writes := ReadOf(2, []), History(2, 2, []);
    HistoryGood(2, 2, []);
    HistoryBreaks(2, 2, []);
  }
}
