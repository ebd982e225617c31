/** What a read repair decides and what it achieves (src/kvsrv/readrepair.go:116-203). */
module ReadRepair {
  import opened Base
  import opened VectorClock
  import opened Siblings
  import opened SiblingAlgebra
  import opened Replica
  import opened Coordinator
  import KVServer

  /** One forwarded get's result; a failed call has no answer. */
  datatype Result = Result(server: Str, answer: Option<GetAnswer>)

  predicate HasContext(s: seq<Object>, c: Context) {
    exists i | 0 <= i < |s| :: SameContext(c, s[i].context)
  }

  /** IsSameSiblings: as many objects, and each of the first has an equal in the second. */
  predicate SameSiblings(s: seq<Object>, t: seq<Object>) {
    |s| == |t| && forall i | 0 <= i < |s| :: HasContext(t, s[i].context)
  }

  method IsSameSiblings(siblings: seq<Object>, other: seq<Object>) returns (same: bool)
    ensures same == SameSiblings(siblings, other)
  {
    if |siblings| != |other| { return false; }
    for i := 0 to |siblings|
      invariant forall k | 0 <= k < i :: HasContext(other, siblings[k].context)
    {
      var found, j := false, 0;
      while j < |other| && !found
        invariant j <= |other|
        invariant found ==> HasContext(other, siblings[i].context)
        invariant !found ==> forall k | 0 <= k < j :: !SameContext(siblings[i].context, other[k].context)
        decreases |other| - j, !found
      {
        var same := SameContextTest(siblings[i].context, other[j].context);
        if same { found := true; } else { j := j + 1; }
      }
      if !found { return false; }
    }
    return true;
  }

  /** Context.IsEqual, by the clocks' comparison. */
  method SameContextTest(a: Context, b: Context) returns (same: bool)
    ensures same == SameContext(a, b)
  {
    var order := Compare(a.vc, b.vc);
    return order == Equal && a.timestamp == b.timestamp && a.etag == b.etag;
  }

  /** f gives each object of the first list an equal partner in the second. */
  predicate ArePartners(s: seq<Object>, t: seq<Object>, f: seq<nat>) {
    |f| == |s| && forall i | 0 <= i < |s| :: f[i] < |t| && SameContext(s[i].context, t[f[i]].context)
  }

  lemma {:induction false} Partners(s: seq<Object>, t: seq<Object>) returns (f: seq<nat>)
    requires forall i | 0 <= i < |s| :: HasContext(t, s[i].context)
    ensures ArePartners(s, t, f)
    decreases s
  {
    if s == [] {
      f := [];
    } else {
      var n := |s| - 1;
      var g := Partners(s[..n], t);
      assert HasContext(t, s[n].context);
      var j :| 0 <= j < |t| && SameContext(s[n].context, t[j].context);
      f := g + [j];
    }
  }

  lemma SameClockFromBoth(a: VClock, b: VClock, c: VClock)
    requires SameClock(a, c) && SameClock(b, c)
    ensures SameClock(a, b)
  {
    LeqTransitive(a, c, b);
    LeqTransitive(b, c, a);
  }

  lemma PartnersDistinct(s: seq<Object>, t: seq<Object>, f: seq<nat>)
    requires Antichain(s) && ArePartners(s, t, f)
    ensures Distinct(f)
  {
    forall i, j | 0 <= i < j < |f| ensures f[i] != f[j] {
      if f[i] == f[j] {
        SameClockFromBoth(Clock(s[i]), Clock(s[j]), Clock(t[f[i]]));
      }
    }
  }

  lemma PartnersEqual(s: seq<Object>, t: seq<Object>, f: seq<nat>, i: nat)
    requires ArePartners(s, t, f) && i < |s|
    ensures f[i] < |t| && HasContext(s, t[f[i]].context) && HasClock(s, Clock(t[f[i]])) && HasClock(t, Clock(s[i]))
  {
    assert SameContext(t[f[i]].context, s[i].context) && SameClock(Clock(t[f[i]]), Clock(s[i]));
  }

  /** On an antichain the one-sided test is symmetric. */
  lemma SameSiblingsBothWays(s: seq<Object>, t: seq<Object>)
    requires Antichain(s) && SameSiblings(s, t)
    ensures SameSiblings(t, s) && SameClocks(s, t)
  {
    var f := Partners(s, t);
    PartnersDistinct(s, t, f);
    assert |f| == |t| && forall i | 0 <= i < |f| :: f[i] < |t|;
    hide Antichain, HasContext, HasClock, ArePartners;
    Onto(f, |t|);
    forall j: nat | j < |t| ensures HasContext(s, t[j].context) && HasClock(s, Clock(t[j])) {
      assert j in f;
      var i :| 0 <= i < |f| && f[i] == j;
      PartnersEqual(s, t, f, i);
    }
    forall i: nat | i < |s| ensures HasClock(t, Clock(s[i])) {
      PartnersEqual(s, t, f, i);
    }
  }

  /** Each object of the first list has an equal in the second. */
  predicate AllIn(s: seq<Object>, t: seq<Object>) { forall i | 0 <= i < |s| :: HasContext(t, s[i].context) }

  lemma NoMoreThan(s: seq<Object>, t: seq<Object>)
    requires Antichain(s) && AllIn(s, t)
    ensures |s| <= |t|
  {
    var f := Partners(s, t);
    PartnersDistinct(s, t, f);
    assert forall i | 0 <= i < |f| :: f[i] in Below(|t|);
    hide Antichain, HasContext, ArePartners;
    DistinctCount(f);
    SubsetCount(Elements(f), Below(|t|));
  }

  /** On antichains the test says that both hold equal objects, in whatever order: a replica that is up to date is not repaired. */
  lemma SameSiblingsExactly(s: seq<Object>, t: seq<Object>)
    requires Antichain(s) && Antichain(t)
    ensures SameSiblings(s, t) <==> AllIn(s, t) && AllIn(t, s)
  {
    if SameSiblings(s, t) {
      SameSiblingsBothWays(s, t);
    } else if AllIn(s, t) && AllIn(t, s) {
      NoMoreThan(s, t);
      NoMoreThan(t, s);
    }
    hide HasContext, Antichain;
  }

  // ----- stale replicas

  predicate Stale(canonical: seq<Object>, r: Result) {
    r.answer.Some? && (r.answer.value.err != OK || !SameSiblings(canonical, r.answer.value.objects))
  }

  method FindStaleReplicas(canonical: seq<Object>, results: seq<Result>) returns (stale: seq<Str>)
    ensures forall r | r in results && Stale(canonical, r) :: r.server in stale
    ensures forall x | x in stale :: exists r :: r in results && r.server == x && Stale(canonical, r)
  {
    stale := [];
    for i := 0 to |results|
      invariant forall k | 0 <= k < i && Stale(canonical, results[k]) :: results[k].server in stale
      invariant forall x | x in stale :: exists r :: r in results && r.server == x && Stale(canonical, r)
    {
      var r := results[i];
      if r.answer.Some? {
        if r.answer.value.err != OK {
          assert r in results && Stale(canonical, r);
          stale := stale + [r.server];
        } else {
          var same := IsSameSiblings(canonical, r.answer.value.objects);
          if !same {
            assert r in results && Stale(canonical, r);
            stale := stale + [r.server];
          }
        }
      }
    }
  }

  // ----- collecting the rest

  /** The canonical siblings after the remaining results have been merged in. */
  function Canonical(canonical: seq<Object>, rest: seq<Result>): seq<Object>
    decreases rest
  {
    if rest == [] then canonical
    else
      var r := rest[0].answer;
      Canonical(if r.Some? && r.value.err == OK then Merge(canonical, r.value.objects) else canonical, rest[1..])
  }

  /** It knows exactly what it started from and what the OK answers know. */
  lemma {:induction false} CanonicalCovers(canonical: seq<Object>, rest: seq<Result>, v: VClock)
    ensures Covers(Canonical(canonical, rest), v) <==> Covers(canonical, v) || exists i | 0 <= i < |rest| :: KnownTo(rest[i], v)
    decreases rest
  {
    if rest != [] {
      var r := rest[0].answer;
      var merged := if r.Some? && r.value.err == OK then Merge(canonical, r.value.objects) else canonical;
      if r.Some? && r.value.err == OK { MergeCovers(canonical, r.value.objects, v); }
      assert Covers(merged, v) <==> Covers(canonical, v) || KnownTo(rest[0], v);
      CanonicalCovers(merged, rest[1..], v);
      hide Covers, Merge, KnownTo;
      if exists i | 0 <= i < |rest| :: KnownTo(rest[i], v) {
        var i :| 0 <= i < |rest| && KnownTo(rest[i], v);
        if i > 0 { assert KnownTo(rest[1..][i - 1], v); }
      }
      if exists i | 0 <= i < |rest[1..]| :: KnownTo(rest[1..][i], v) {
        var i :| 0 <= i < |rest[1..]| && KnownTo(rest[1..][i], v);
        assert KnownTo(rest[i + 1], v);
      }
    }
  }

  /** The answer held a version at or after the clock. */
  predicate KnownTo(r: Result, v: VClock) {
    r.answer.Some? && r.answer.value.err == OK && Covers(r.answer.value.objects, v)
  }

  lemma {:induction false} CanonicalKeeps(canonical: seq<Object>, rest: seq<Result>)
    requires Antichain(canonical)
    ensures Antichain(Canonical(canonical, rest))
    decreases rest
  {
    if rest != [] {
      var r := rest[0].answer;
      if r.Some? && r.value.err == OK {
        MergeKeeps(canonical, r.value.objects);
        CanonicalKeeps(Merge(canonical, r.value.objects), rest[1..]);
      } else {
        CanonicalKeeps(canonical, rest[1..]);
      }
    }
  }

  /** finishCoordGetReadRepair up to the repairs it sends: `rest` are the results still to come, in order of arrival. */
  method FinishCoordGetReadRepair(canonical: seq<Object>, results: seq<Result>, rest: seq<Result>) returns (merged: seq<Object>, stale: seq<Str>)
    requires Antichain(canonical)
    ensures merged == Canonical(canonical, rest) && Antichain(merged)
    ensures merged == [] ==> stale == []
    ensures merged != [] ==> forall r | r in results + rest && Stale(merged, r) :: r.server in stale
    ensures forall x | x in stale :: exists r :: r in results + rest && r.server == x && Stale(merged, r)
  {
    merged := canonical;
    for i := 0 to |rest|
      invariant Canonical(canonical, rest) == Canonical(merged, rest[i..])
    {
      assert rest[i..][0] == rest[i] && rest[i..][1..] == rest[i + 1..];
      if rest[i].answer.Some? && rest[i].answer.value.err == OK {
        var changed;
        merged, changed := KVServer.FoldObjects(merged, rest[i].answer.value.objects);
      }
    }
    CanonicalKeeps(canonical, rest);
    if merged == [] { return merged, []; }
    stale := FindStaleReplicas(merged, results + rest);
  }

  // ----- what the repairs achieve

  /** The servers' stores after every stale one has merged the canonical siblings. */
  function Repaired(at: Placement, s: Server, key: Str, canonical: seq<Object>, isStale: bool): Server {
    if isStale then Merged(at, s, key, canonical) else s
  }

  /**
   Once its repair arrives, a server that answered holds every version the canonical siblings know:
   a stale one because it merged them, any other because what it answered was already the same.
   */
  lemma RepairUpToDate(at: Placement, s: Server, key: Str, canonical: seq<Object>, r: Result, v: VClock)
    requires Antichain(canonical) && r.answer.Some?
    requires r.answer.value.err == OK ==> forall u: VClock :: Covers(r.answer.value.objects, u) ==> Covers(Stored(s, key), u)
    requires Covers(canonical, v)
    ensures Covers(Stored(Repaired(at, s, key, canonical, Stale(canonical, r)), key), v)
  {
    if Stale(canonical, r) {
      MergedCovers(at, s, key, canonical, key, v);
    } else {
      SameSiblingsBothWays(canonical, r.answer.value.objects);
      ClocksGiveCover(canonical, r.answer.value.objects, v);
    }
  }

  /** So nothing that any answering server knew is missing at another that answered, for a job whose canonical siblings know its results. */
  lemma RepairSpreads(at: Placement, s: Server, key: Str, canonical: seq<Object>, results: seq<Result>, rest: seq<Result>, r: Result, q: Result, v: VClock)
    requires Antichain(canonical) && forall x, u: VClock | x in results && KnownTo(x, u) :: Covers(canonical, u)
    requires q in results + rest && KnownTo(q, v)
    requires r in results + rest && r.answer.Some?
    requires r.answer.value.err == OK ==> forall u: VClock :: Covers(r.answer.value.objects, u) ==> Covers(Stored(s, key), u)
    ensures var merged := Canonical(canonical, rest);
      Covers(Stored(Repaired(at, s, key, merged, Stale(merged, r)), key), v)
  {
    CanonicalKeeps(canonical, rest);
    CanonicalCovers(canonical, rest, v);
    if q in results {
      assert Covers(canonical, v);
    } else {
      assert q in rest;
      var i :| 0 <= i < |rest| && rest[i] == q;
      assert KnownTo(rest[i], v);
    }
    hide Covers;
    RepairUpToDate(at, s, key, Canonical(canonical, rest), r, v);
  }
}
