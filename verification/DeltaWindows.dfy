/**
 Delta-regularity in times (src/kvsrv_eval/observer.go:107-144): which write makes a read regular, the least delta for
 which it is, and the observed curve as the distribution of that least delta.
 */
module DeltaWindows {
  import opened Base
  import opened VectorClock
  import opened Siblings
  import opened Collector
  import opened Observer

  // ----- in times

  predicate During(r: CompletedRead, w: CompletedWrite) {
    w.key == r.key && w.startedAt < r.returnedAt && r.startedAt < w.committedAt
  }

  /** The write is on the read's key and had committed when it started. */
  predicate Prior(r: CompletedRead, w: CompletedWrite) { w.key == r.key && w.committedAt <= r.startedAt }

  /** How long before the read's start the write had committed. */
  function Age(r: CompletedRead, w: CompletedWrite): int { r.startedAt - w.committedAt }

  /** Of the prior writes that are older than delta, write i is the first of the latest. The code's start value is the zero time. */
  predicate LatestOlder(r: CompletedRead, writes: seq<CompletedWrite>, delta: int, i: nat) {
    && i < |writes| && Prior(r, writes[i]) && Age(r, writes[i]) > delta && writes[i].committedAt > ZERO_TIME
    && forall j | 0 <= j < |writes| && Prior(r, writes[j]) && Age(r, writes[j]) > delta ::
         writes[j].committedAt <= writes[i].committedAt && (j < i ==> writes[j].committedAt < writes[i].committedAt)
  }

  predicate NoneOlder(r: CompletedRead, writes: seq<CompletedWrite>, delta: int) {
    forall j | 0 <= j < |writes| && Prior(r, writes[j]) && Age(r, writes[j]) > delta :: writes[j].committedAt <= ZERO_TIME
  }

  /** Write i is consistent with what was returned, and during the read, prior and no older than delta, or the latest older one. */
  predicate Excuses(r: CompletedRead, writes: seq<CompletedWrite>, delta: int, i: nat) {
    && i < |writes| && Consistent(writes[i].obj, r.objects)
    && (During(r, writes[i]) || (Prior(r, writes[i]) && Age(r, writes[i]) <= delta) || LatestOlder(r, writes, delta, i))
  }

  lemma WindowIs(r: CompletedRead, w: CompletedWrite, delta: int)
    ensures InWindow(r, w, r.startedAt - delta) <==> During(r, w) || (Prior(r, w) && Age(r, w) <= delta)
    ensures w.key == r.key ==> (BeforeWindow(r, w, r.startedAt - delta) <==> Prior(r, w) && Age(r, w) > delta)
    ensures BeforeWindow(r, w, r.startedAt - delta) ==> w.key == r.key
  {
  }

  lemma {:induction false} LatestIs(r: CompletedRead, writes: seq<CompletedWrite>, delta: int) returns (i: nat)
    ensures var l := Latest(r, writes, r.startedAt - delta);
      (NoneOlder(r, writes, delta) && l == NoWrite(r.key)) || (LatestOlder(r, writes, delta, i) && l == writes[i])
  {
    i := 0;
    if writes != [] {
      var n := |writes| - 1;
      i := LatestIs(r, writes[..n], delta);
      WindowIs(r, writes[n], delta);
      assert forall j | 0 <= j < n :: writes[..n][j] == writes[j];
      hide BeforeWindow, Prior;
      if BeforeWindow(r, writes[n], r.startedAt - delta) && writes[n].committedAt > Latest(r, writes[..n], r.startedAt - delta).committedAt { i := n; }
    }
  }

  lemma LatestUnique(r: CompletedRead, writes: seq<CompletedWrite>, delta: int, i: nat, j: nat)
    requires LatestOlder(r, writes, delta, i) && LatestOlder(r, writes, delta, j)
    ensures i == j
  {
    hide Prior;
  }

  /** With no earlier write known, any returned object passes. */
  lemma NoWriteConsistent(key: Str, objects: seq<Object>)
    ensures Consistent(NoWrite(key).obj, objects) <==> objects != []
  {
    if objects != [] { assert Leq(Clock(NoWrite(key).obj), Clock(objects[0])); }
  }

  /**
   A read is delta-regular exactly when some write of its key that is consistent with what it returned is during the
   read, or had committed by its start and no more than delta earlier, or is the first of the latest among those that
   had committed more than delta earlier; or there is none of these last and it returned anything at all.
   */
  lemma DeltaRegularExactly(r: CompletedRead, writes: seq<CompletedWrite>, delta: int)
    ensures DeltaRegular(r, writes, delta) <==>
      (exists i: nat :: Excuses(r, writes, delta, i)) || (NoneOlder(r, writes, delta) && r.objects != [])
  {
    var cutoff := r.startedAt - delta;
    NoWriteConsistent(r.key, r.objects);
    var l := LatestIs(r, writes, delta);
    forall w: CompletedWrite ensures InWindow(r, w, cutoff) <==> During(r, w) || (Prior(r, w) && Age(r, w) <= delta) { WindowIs(r, w, delta); }
    hide Consistent, InWindow, During, Prior, Latest;
    if i: nat :| Excuses(r, writes, delta, i) {
      if LatestOlder(r, writes, delta, i) {
        assert !NoneOlder(r, writes, delta);
        LatestUnique(r, writes, delta, i, l);
      } else {
        assert SomeInWindow(r, writes, cutoff);
      }
    } else if DeltaRegular(r, writes, delta) {
      if SomeInWindow(r, writes, cutoff) {
        var i: nat :| i < |writes| && InWindow(r, writes[i], cutoff) && Consistent(writes[i].obj, r.objects);
        assert Excuses(r, writes, delta, i);
      } else {
        assert !Excuses(r, writes, delta, l);
      }
    }
  }

  // ----- the least delta

  /** How long before the read's start something committed later than this had replaced it; 0 if nothing had. */
  function ReplacedFor(r: CompletedRead, writes: seq<CompletedWrite>, since: Time): nat {
    if writes == [] then 0
    else
      var n := |writes| - 1;
      var d := ReplacedFor(r, writes[..n], since);
      if Prior(r, writes[n]) && writes[n].committedAt > since && Age(r, writes[n]) > d then Age(r, writes[n]) else d
  }

  /** No write of the key before position i committed at the same time. */
  predicate FirstOfTime(r: CompletedRead, writes: seq<CompletedWrite>, i: nat)
    requires i < |writes|
  {
    forall j | 0 <= j < i :: Prior(r, writes[j]) ==> writes[j].committedAt != writes[i].committedAt
  }

  /** The least delta for which write i makes the read regular, if it can. */
  function NeededFor(r: CompletedRead, writes: seq<CompletedWrite>, i: nat): Option<nat>
    requires i < |writes|
  {
    if !Consistent(writes[i].obj, r.objects) then None
    else if During(r, writes[i]) then Some(0)
    else if !Prior(r, writes[i]) then None
    else if writes[i].committedAt > ZERO_TIME && FirstOfTime(r, writes, i) then Some(ReplacedFor(r, writes, writes[i].committedAt))
    else Some(Age(r, writes[i]))
  }

  /** The least of what the first n writes need, or of nothing having been written that long. */
  function LeastOf(r: CompletedRead, writes: seq<CompletedWrite>, n: nat): nat
    requires n <= |writes|
  {
    if n == 0 then ReplacedFor(r, writes, ZERO_TIME)
    else
      var d := LeastOf(r, writes, n - 1);
      match NeededFor(r, writes, n - 1)
      case Some(e) => if e < d then e else d
      case None => d
  }

  function Staleness(r: CompletedRead, writes: seq<CompletedWrite>): nat { LeastOf(r, writes, |writes|) }

  predicate LaterWithin(r: CompletedRead, writes: seq<CompletedWrite>, since: Time, delta: int) {
    forall j | 0 <= j < |writes| && Prior(r, writes[j]) && writes[j].committedAt > since :: Age(r, writes[j]) <= delta
  }

  lemma {:induction false} ReplacedWithin(r: CompletedRead, writes: seq<CompletedWrite>, since: Time, delta: nat)
    ensures ReplacedFor(r, writes, since) <= delta <==> LaterWithin(r, writes, since, delta)
  {
    if writes != [] {
      var n := |writes| - 1;
      ReplacedWithin(r, writes[..n], since, delta);
      assert forall j | 0 <= j < n :: writes[..n][j] == writes[j];
      hide Prior, ReplacedFor;
      var lastWithin := Prior(r, writes[n]) && writes[n].committedAt > since ==> Age(r, writes[n]) <= delta;
      assert LaterWithin(r, writes, since, delta) <==> LaterWithin(r, writes[..n], since, delta) && lastWithin;
      NextReplaced(r, writes, since);
    }
  }

  lemma NextReplaced(r: CompletedRead, writes: seq<CompletedWrite>, since: Time)
    requires writes != []
    ensures var n := |writes| - 1; var d := ReplacedFor(r, writes[..n], since);
      ReplacedFor(r, writes, since) == if Prior(r, writes[n]) && writes[n].committedAt > since && Age(r, writes[n]) > d then Age(r, writes[n]) else d
  {
  }

  /** Write i excuses the read for some delta up to this one exactly when this one is at least what i needs. */
  predicate Suffices(r: CompletedRead, writes: seq<CompletedWrite>, delta: nat, i: nat) {
    && i < |writes| && Consistent(writes[i].obj, r.objects)
    && (During(r, writes[i]) || (Prior(r, writes[i]) && Age(r, writes[i]) <= delta)
      || (Prior(r, writes[i]) && writes[i].committedAt > ZERO_TIME && FirstOfTime(r, writes, i) && LaterWithin(r, writes, writes[i].committedAt, delta)))
  }

  lemma NeededSuffices(r: CompletedRead, writes: seq<CompletedWrite>, delta: nat, i: nat)
    requires i < |writes|
    ensures Suffices(r, writes, delta, i) <==> NeededFor(r, writes, i).Some? && NeededFor(r, writes, i).value <= delta
  {
    ReplacedWithin(r, writes, writes[i].committedAt, delta);
    hide Consistent, ReplacedFor;
  }

  /** The latest older write is the first of its time, and was replaced within delta. */
  lemma ExcusesSuffices(r: CompletedRead, writes: seq<CompletedWrite>, delta: nat, i: nat)
    ensures Excuses(r, writes, delta, i) <==> Suffices(r, writes, delta, i)
  {
    hide Consistent, During;
    if Suffices(r, writes, delta, i) && !During(r, writes[i]) && Age(r, writes[i]) > delta {
      forall j | 0 <= j < |writes| && Prior(r, writes[j]) && Age(r, writes[j]) > delta
        ensures writes[j].committedAt <= writes[i].committedAt && (j < i ==> writes[j].committedAt < writes[i].committedAt)
      {
      }
      assert LatestOlder(r, writes, delta, i);
    }
  }

  lemma {:induction false} LeastOfWithin(r: CompletedRead, writes: seq<CompletedWrite>, n: nat, delta: nat)
    requires n <= |writes|
    ensures LeastOf(r, writes, n) <= delta <==>
      LaterWithin(r, writes, ZERO_TIME, delta) || exists i: nat :: i < n && Suffices(r, writes, delta, i)
  {
    if n == 0 {
      ReplacedWithin(r, writes, ZERO_TIME, delta);
    } else {
      LeastOfWithin(r, writes, n - 1, delta);
      NeededSuffices(r, writes, delta, n - 1);
      hide Suffices, NeededFor, LaterWithin;
    }
  }

  /**
   A read that returned something is delta-regular exactly from its staleness on: the least, over the consistent writes,
   of how long before the read's start that write had been replaced. One that returned nothing never is.
   */
  lemma StalenessIsLeast(r: CompletedRead, writes: seq<CompletedWrite>, delta: nat)
    ensures DeltaRegular(r, writes, delta) <==> r.objects != [] && Staleness(r, writes) <= delta
  {
    DeltaRegularExactly(r, writes, delta);
    LeastOfWithin(r, writes, |writes|, delta);
    assert NoneOlder(r, writes, delta) <==> LaterWithin(r, writes, ZERO_TIME, delta);
    forall i: nat ensures Excuses(r, writes, delta, i) <==> Suffices(r, writes, delta, i) { ExcusesSuffices(r, writes, delta, i); }
    assert forall i: nat :: Suffices(r, writes, delta, i) ==> i < |writes| && r.objects != [];
    hide DeltaRegular, Excuses, Suffices, NoneOlder, LaterWithin, LeastOf;
  }

  predicate InTime(r: CompletedRead, writes: seq<CompletedWrite>, delta: nat) { r.objects != [] && Staleness(r, writes) <= delta }

  /** The reads with no more than this staleness. */
  function Timely(rs: seq<CompletedRead>, writes: seq<CompletedWrite>, delta: nat): set<nat> {
    set i: nat | i < |rs| && InTime(rs[i], writes, delta)
  }

  lemma TimelyStep(rs: seq<CompletedRead>, writes: seq<CompletedWrite>, delta: nat)
    requires rs != []
    ensures var n := |rs| - 1;
      |Timely(rs, writes, delta)| == |Timely(rs[..n], writes, delta)| + if InTime(rs[n], writes, delta) then 1 else 0
  {
    hide InTime;
    var n := |rs| - 1;
    var before := Timely(rs[..n], writes, delta);
    assert forall i | 0 <= i < n :: rs[..n][i] == rs[i];
    assert Timely(rs, writes, delta) == before + if InTime(rs[n], writes, delta) then {n} else {};
  }

  lemma {:induction false} TimelyCount(rs: seq<CompletedRead>, writes: seq<CompletedWrite>, delta: nat)
    ensures RegularReads(rs, writes, delta) == |Timely(rs, writes, delta)|
  {
    if rs != [] {
      var n := |rs| - 1;
      TimelyCount(rs[..n], writes, delta);
      StalenessIsLeast(rs[n], writes, delta);
      assert InTime(rs[n], writes, delta) <==> DeltaRegular(rs[n], writes, delta);
      hide DeltaRegular, InTime, Timely;
      TimelyStep(rs, writes, delta);
    }
  }

  /** The observed curve is the distribution function of the staleness: the share of reads with at most that much. */
  lemma CurveIsDistribution(rs: seq<CompletedRead>, writes: seq<CompletedWrite>, delta: nat)
    requires rs != []
    ensures DeltaP(rs, writes, delta) == |Timely(rs, writes, delta)| as real / |rs| as real
  {
    TimelyCount(rs, writes, delta);
    hide RegularReads;
  }
}
