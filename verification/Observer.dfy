/** Staleness of observed reads (src/kvsrv_eval/observer.go): consistency of one read, and delta-regularity. */
module Observer {
  import opened Base
  import opened VectorClock
  import opened Siblings
  import opened Collector

  // ----- IsConsistent

  /** The first returned object that is comparable with the write decides. */
  predicate Consistent(w: Object, objects: seq<Object>)
    decreases objects
  {
    objects != []
    && match Cmp(Clock(w), Clock(objects[0]))
       case After => false
       case Concurrent => Consistent(w, objects[1..])
       case _ => true
  }

  method IsConsistent(w: Object, objects: seq<Object>) returns (r: bool)
    ensures r == Consistent(w, objects)
    ensures Antichain(objects) ==> (r <==> Covers(objects, Clock(w)))
  {
    if Antichain(objects) { EarlyExitsHarmless(w, objects); }
    for i := 0 to |objects|
      invariant Consistent(w, objects) == Consistent(w, objects[i..])
    {
      assert objects[i..][0] == objects[i] && objects[i..][1..] == objects[i + 1..];
      var cmp := Compare(Clock(w), Clock(objects[i]));
      if cmp == After { return false; }
      if cmp == Equal || cmp == Before { return true; }
    }
    return false;
  }

  /** Object i is comparable with the write, and none before it is. */
  predicate Decides(w: Object, objects: seq<Object>, i: nat) {
    i < |objects| && Cmp(Clock(w), Clock(objects[i])) != Concurrent
    && forall j | 0 <= j < i :: Cmp(Clock(w), Clock(objects[j])) == Concurrent
  }

  /** On any list: the verdict is true exactly when the first comparable object is equal to or after the write. */
  lemma {:induction false} ConsistentExactly(w: Object, objects: seq<Object>)
    ensures Consistent(w, objects) <==> exists i: nat :: Decides(w, objects, i) && Leq(Clock(w), Clock(objects[i]))
    decreases objects
  {
    if objects != [] {
      var rest := objects[1..];
      ConsistentExactly(w, rest);
      hide Leq;
      if Cmp(Clock(w), Clock(objects[0])) == Concurrent {
        forall i: nat ensures Decides(w, rest, i) <==> Decides(w, objects, i + 1) {
          assert i < |rest| ==> rest[i] == objects[i + 1];
          if Decides(w, rest, i) {
            forall j | 0 <= j < i + 1 ensures Cmp(Clock(w), Clock(objects[j])) == Concurrent {
              if j > 0 { assert rest[j - 1] == objects[j]; }
            }
          }
          if Decides(w, objects, i + 1) {
            forall j | 0 <= j < i ensures Cmp(Clock(w), Clock(rest[j])) == Concurrent { assert rest[j] == objects[j + 1]; }
          }
        }
        if exists i: nat :: Decides(w, objects, i) && Leq(Clock(w), Clock(objects[i])) {
          var i: nat :| Decides(w, objects, i) && Leq(Clock(w), Clock(objects[i]));
          assert i > 0 && Decides(w, rest, i - 1) && rest[i - 1] == objects[i];
        }
        if exists i: nat :: Decides(w, rest, i) && Leq(Clock(w), Clock(rest[i])) {
          var i: nat :| Decides(w, rest, i) && Leq(Clock(w), Clock(rest[i]));
          assert Decides(w, objects, i + 1) && rest[i] == objects[i + 1];
        }
      } else {
        assert Decides(w, objects, 0);
      }
    }
  }

  /** The read returned an object strictly before the write. */
  predicate ReturnedOlder(w: Object, objects: seq<Object>) {
    exists i | 0 <= i < |objects| :: Cmp(Clock(w), Clock(objects[i])) == After
  }

  /** In whatever order the objects are listed, the verdict is whether the write is covered. */
  ghost predicate OrderIrrelevant(w: Object, objects: seq<Object>) {
    forall p: seq<Object> | multiset(p) == multiset(objects) :: Consistent(w, p) <==> Covers(p, Clock(w))
  }

  lemma {:induction false} CoveredWithoutOlder(w: Object, objects: seq<Object>)
    requires Covers(objects, Clock(w)) && !ReturnedOlder(w, objects)
    ensures Consistent(w, objects)
    decreases objects
  {
    assert Cmp(Clock(w), Clock(objects[0])) != After;
    if Cmp(Clock(w), Clock(objects[0])) == Concurrent {
      var rest := objects[1..];
      var i :| 0 <= i < |objects| && Leq(Clock(w), Clock(objects[i]));
      assert rest[i - 1] == objects[i];
      forall j | 0 <= j < |rest| ensures Cmp(Clock(w), Clock(rest[j])) != After { assert rest[j] == objects[j + 1]; }
      hide Cmp;
      CoveredWithoutOlder(w, rest);
    }
  }

  lemma SameObjects(p: seq<Object>, q: seq<Object>, w: Object)
    requires multiset(p) == multiset(q)
    ensures ReturnedOlder(w, p) ==> ReturnedOlder(w, q)
    ensures Covers(p, Clock(w)) ==> Covers(q, Clock(w))
  {
    forall x | x in p ensures x in q { assert x in multiset(q); }
    if ReturnedOlder(w, p) {
      var i :| 0 <= i < |p| && Cmp(Clock(w), Clock(p[i])) == After;
      assert p[i] in q;
      var j :| 0 <= j < |q| && q[j] == p[i];
    }
    if Covers(p, Clock(w)) {
      var i :| 0 <= i < |p| && Leq(Clock(w), Clock(p[i]));
      assert p[i] in q;
      CoversMember(q, p[i]);
      CoversDown(q, Clock(w), Clock(p[i]));
    }
  }

  lemma MovedToFront(objects: seq<Object>, i: nat)
    requires i < |objects|
    ensures multiset([objects[i]] + objects[..i] + objects[i + 1..]) == multiset(objects)
  {
    assert objects == objects[..i] + [objects[i]] + objects[i + 1..];
  }

  /** The order is irrelevant exactly when the read did not return both something strictly before the write and something at or after it. */
  lemma OrderIrrelevantExactly(w: Object, objects: seq<Object>)
    ensures OrderIrrelevant(w, objects) <==> !(ReturnedOlder(w, objects) && Covers(objects, Clock(w)))
  {
    if ReturnedOlder(w, objects) && Covers(objects, Clock(w)) {
      var i :| 0 <= i < |objects| && Cmp(Clock(w), Clock(objects[i])) == After;
      var p := [objects[i]] + objects[..i] + objects[i + 1..];
      MovedToFront(objects, i);
      SameObjects(objects, p, w);
      assert p[0] == objects[i] && !Consistent(w, p);
    } else {
      forall p: seq<Object> | multiset(p) == multiset(objects) ensures Consistent(w, p) <==> Covers(p, Clock(w)) {
        SameObjects(p, objects, w);
        ConsistentExactly(w, p);
        if Covers(p, Clock(w)) { CoveredWithoutOlder(w, p); }
      }
    }
  }

  lemma NotBetween(w: VClock, older: VClock, newer: VClock)
    requires older == newer || !Leq(older, newer)
    ensures !(Cmp(w, older) == After && Leq(w, newer))
  {
    if Leq(older, w) && Leq(w, newer) { LeqTransitive(older, w, newer); }
  }

  /** Objects of an antichain cannot disagree, so for every ordering of the list the verdict is whether the write is covered. */
  lemma EarlyExitsHarmless(w: Object, objects: seq<Object>)
    requires Antichain(objects)
    ensures OrderIrrelevant(w, objects) && (Consistent(w, objects) <==> Covers(objects, Clock(w)))
  {
    OrderIrrelevantExactly(w, objects);
    forall i, j | 0 <= i < |objects| && 0 <= j < |objects|
      ensures !(Cmp(Clock(w), Clock(objects[i])) == After && Leq(Clock(w), Clock(objects[j])))
    {
      NotBetween(Clock(w), Clock(objects[i]), Clock(objects[j]));
    }
  }

  const OLD: Object := Object([], Context(map[[1] := 1], 1, []))
  const MIDDLE: Object := Object([], Context(map[[1] := 2], 2, []))
  const NEW: Object := Object([], Context(map[[1] := 3], 3, []))

  /** Without the antichain the order of the list matters: the read returned something newer, and one of two orders is called stale. */
  lemma OrderMattersOtherwise()
    ensures Covers([OLD, NEW], Clock(MIDDLE)) && !Consistent(MIDDLE, [OLD, NEW]) && Consistent(MIDDLE, [NEW, OLD])
  {
    assert Version(Clock(OLD), [1]) == 1 && Version(Clock(MIDDLE), [1]) == 2 && Version(Clock(NEW), [1]) == 3;
    assert Cmp(Clock(MIDDLE), Clock(OLD)) == After;
    assert Cmp(Clock(MIDDLE), Clock(NEW)) == Before;
    assert Leq(Clock(MIDDLE), Clock([OLD, NEW][1]));
  }

  // ----- delta-regularity

  predicate Overlaps(r: CompletedRead, w: CompletedWrite) {
    w.startedAt < r.returnedAt && w.committedAt > r.startedAt
  }

  /** The write began only after the read had returned. */
  predicate TooLate(r: CompletedRead, w: CompletedWrite) {
    w.committedAt > r.startedAt && !(w.startedAt < r.returnedAt)
  }

  /** The write is on the read's key and was before it. */
  predicate Precedes(r: CompletedRead, w: CompletedWrite) {
    w.key == r.key && !Overlaps(r, w) && !TooLate(r, w)
  }

  /** The write may be returned by a delta-regular read: it overlaps the read, or committed at the cutoff or later. */
  predicate InWindow(r: CompletedRead, w: CompletedWrite, cutoff: Time) {
    w.key == r.key && (Overlaps(r, w) || (Precedes(r, w) && !(w.committedAt < cutoff)))
  }

  predicate BeforeWindow(r: CompletedRead, w: CompletedWrite, cutoff: Time) {
    Precedes(r, w) && w.committedAt < cutoff
  }

  function NoWrite(key: Str): CompletedWrite {
    CompletedWrite(key, ZERO_TIME, ZERO_TIME, Object([], Context(map[], 0, [])))
  }

  /** The last write before the window: the first of those with the greatest commit time, or none. */
  function Latest(r: CompletedRead, writes: seq<CompletedWrite>, cutoff: Time): CompletedWrite {
    if writes == [] then NoWrite(r.key)
    else
      var n := |writes| - 1;
      var l := Latest(r, writes[..n], cutoff);
      if BeforeWindow(r, writes[n], cutoff) && writes[n].committedAt > l.committedAt then writes[n] else l
  }

  predicate SomeInWindow(r: CompletedRead, writes: seq<CompletedWrite>, cutoff: Time) {
    exists i | 0 <= i < |writes| :: InWindow(r, writes[i], cutoff) && Consistent(writes[i].obj, r.objects)
  }

  predicate DeltaRegular(r: CompletedRead, writes: seq<CompletedWrite>, delta: int) {
    SomeInWindow(r, writes, r.startedAt - delta) || Consistent(Latest(r, writes, r.startedAt - delta).obj, r.objects)
  }

  method IsDeltaRegular(r: CompletedRead, writes: seq<CompletedWrite>, delta: int) returns (ok: bool)
    ensures ok == DeltaRegular(r, writes, delta)
  {
    var cutoff := r.startedAt - delta;
    var latest := NoWrite(r.key);
    hide Consistent;
    for i := 0 to |writes|
      invariant latest == Latest(r, writes[..i], cutoff)
      invariant forall k | 0 <= k < i :: !(InWindow(r, writes[k], cutoff) && Consistent(writes[k].obj, r.objects))
    {
      var w := writes[i];
      assert writes[..i + 1][..i] == writes[..i];
      if w.key != r.key {
      } else if Overlaps(r, w) {
        var c := IsConsistent(w.obj, r.objects);
        if c { return true; }
      } else if w.committedAt > r.startedAt && !(w.startedAt < r.returnedAt) {
      } else if w.committedAt < cutoff {
        if w.committedAt > latest.committedAt { latest := w; }
      } else {
        var c := IsConsistent(w.obj, r.objects);
        if c { return true; }
      }
    }
    assert writes[..|writes|] == writes;
    ok := IsConsistent(latest.obj, r.objects);
  }

  /** A shorter window ends later: what is before the wider window is before the narrower one. */
  lemma WindowsNest(r: CompletedRead, w: CompletedWrite, wide: Time, narrow: Time)
    requires wide <= narrow
    ensures InWindow(r, w, narrow) ==> InWindow(r, w, wide)
    ensures BeforeWindow(r, w, wide) ==> BeforeWindow(r, w, narrow)
    ensures BeforeWindow(r, w, narrow) && !BeforeWindow(r, w, wide) ==> InWindow(r, w, wide)
  {
  }

  /** The latest write before the narrower window is also the latest before the wider one, unless it has moved into it. */
  lemma {:induction false} LatestMoves(r: CompletedRead, writes: seq<CompletedWrite>, wide: Time, narrow: Time)
    requires wide <= narrow
    ensures Latest(r, writes, wide).committedAt <= Latest(r, writes, narrow).committedAt
    ensures Latest(r, writes, narrow) == Latest(r, writes, wide)
      || (Latest(r, writes, narrow) in writes && InWindow(r, Latest(r, writes, narrow), wide))
  {
    if writes != [] {
      var n := |writes| - 1;
      LatestMoves(r, writes[..n], wide, narrow);
      WindowsNest(r, writes[n], wide, narrow);
      assert writes == writes[..n] + [writes[n]];
      hide InWindow;
    }
  }

  /** A read that is regular for one delta is regular for every greater one, whatever the history. */
  lemma DeltaMonotone(r: CompletedRead, writes: seq<CompletedWrite>, delta: int, more: int)
    requires delta <= more && DeltaRegular(r, writes, delta)
    ensures DeltaRegular(r, writes, more)
  {
    var narrow, wide := r.startedAt - delta, r.startedAt - more;
    hide Consistent, InWindow;
    if SomeInWindow(r, writes, narrow) {
      var i :| 0 <= i < |writes| && InWindow(r, writes[i], narrow) && Consistent(writes[i].obj, r.objects);
      WindowsNest(r, writes[i], wide, narrow);
    } else {
      LatestMoves(r, writes, wide, narrow);
      var l := Latest(r, writes, narrow);
      if l != Latest(r, writes, wide) {
        var i :| 0 <= i < |writes| && writes[i] == l;
      }
    }
  }

  // ----- the observed probability

  function RegularReads(rs: seq<CompletedRead>, writes: seq<CompletedWrite>, delta: int): (n: nat)
    ensures n <= |rs|
  {
    if rs == [] then 0
    else RegularReads(rs[..|rs| - 1], writes, delta) + if DeltaRegular(rs[|rs| - 1], writes, delta) then 1 else 0
  }

  /** ObserveDeltaP. */
  function DeltaP(rs: seq<CompletedRead>, writes: seq<CompletedWrite>, delta: int): (p: real)
    ensures 0.0 <= p <= 1.0
  {
    if |rs| == 0 then 0.0 else Fraction(RegularReads(rs, writes, delta), |rs|)
  }

  function Fraction(n: nat, of: nat): (p: real)
    requires n <= of && of > 0
    ensures 0.0 <= p <= 1.0
  {
    ShareOf(n, of);
    n as real / of as real
  }

  lemma FractionMonotone(n: nat, m: nat, of: nat)
    requires n <= m <= of && of > 0
    ensures Fraction(n, of) <= Fraction(m, of)
  {
    assert Fraction(m, of) - Fraction(n, of) == (m - n) as real / of as real;
    ShareOf(m - n, of);
  }

  method ObserveDeltaP(rs: seq<CompletedRead>, writes: seq<CompletedWrite>, delta: int) returns (p: real)
    ensures p == DeltaP(rs, writes, delta)
  {
    if |rs| == 0 { return 0.0; }
    var consistentCount := 0;
    hide DeltaRegular;
    for i := 0 to |rs|
      invariant consistentCount == RegularReads(rs[..i], writes, delta)
    {
      assert rs[..i + 1][..i] == rs[..i];
      var ok := IsDeltaRegular(rs[i], writes, delta);
      if ok { consistentCount := consistentCount + 1; }
    }
    assert rs[..|rs|] == rs;
    p := Fraction(consistentCount, |rs|);
  }

  lemma {:induction false} RegularReadsMonotone(rs: seq<CompletedRead>, writes: seq<CompletedWrite>, delta: int, more: int)
    requires delta <= more
    ensures RegularReads(rs, writes, delta) <= RegularReads(rs, writes, more)
  {
    if rs != [] {
      var n := |rs| - 1;
      RegularReadsMonotone(rs[..n], writes, delta, more);
      if DeltaRegular(rs[n], writes, delta) { DeltaMonotone(rs[n], writes, delta, more); }
      hide DeltaRegular;
    }
  }

  /** The observed curve never falls: a greater delta tolerates at least as many reads. */
  lemma DeltaPMonotone(rs: seq<CompletedRead>, writes: seq<CompletedWrite>, delta: int, more: int)
    requires delta <= more
    ensures DeltaP(rs, writes, delta) <= DeltaP(rs, writes, more)
  {
    RegularReadsMonotone(rs, writes, delta, more);
    if |rs| > 0 { FractionMonotone(RegularReads(rs, writes, delta), RegularReads(rs, writes, more), |rs|); }
  }
}
