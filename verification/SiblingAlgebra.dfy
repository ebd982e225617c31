/**
 The guarded fold of src/kvsrv/server.go:672-681 as an algebra: it keeps exactly the maximal
 clocks of everything it has seen, so on clocks it is a semilattice join.
 */
module SiblingAlgebra {
  import opened Base
  import opened VectorClock
  import opened Siblings

  /** The lists know the same clocks. */
  ghost predicate SameCover(s: seq<Object>, t: seq<Object>) {
    forall v: VClock :: Covers(s, v) <==> Covers(t, v)
  }

  predicate HasClock(s: seq<Object>, v: VClock) {
    exists i | 0 <= i < |s| :: SameClock(v, Clock(s[i]))
  }

  /** Equal as sets of clocks. */
  predicate SameClocks(s: seq<Object>, t: seq<Object>) {
    && (forall i | 0 <= i < |s| :: HasClock(t, Clock(s[i])))
    && (forall i | 0 <= i < |t| :: HasClock(s, Clock(t[i])))
  }

  /** No object of the list is strictly after `x`. */
  predicate Maximal(x: Object, s: seq<Object>) {
    forall i | 0 <= i < |s| :: Leq(Clock(x), Clock(s[i])) ==> Leq(Clock(s[i]), Clock(x))
  }

  /** Objects with equal clocks are equal. */
  predicate Coherent(s: seq<Object>) {
    forall x, y | x in s && y in s :: SameClock(Clock(x), Clock(y)) ==> x == y
  }

  lemma AddIfNewCovers(s: seq<Object>, c: Object, v: VClock)
    ensures Covers(AddIfNew(s, c), v) <==> Covers(s, v) || Leq(v, Clock(c))
  {
    if CanBeAdded(c, s) {
      AddCovers(s, c, v);
    } else if Leq(v, Clock(c)) {
      assert Covers(s, Clock(c));
      CoversDown(s, v, Clock(c));
    }
  }

  /** A merge knows exactly what the two sides knew. */
  lemma {:induction false} MergeCovers(s: seq<Object>, incoming: seq<Object>, v: VClock)
    ensures Covers(Merge(s, incoming), v) <==> Covers(s, v) || Covers(incoming, v)
    decreases incoming
  {
    if incoming != [] {
      var c, rest := incoming[0], incoming[1..];
      assert incoming == [c] + rest;
      CoversConcat([c], rest, v);
      CoversOne(c, v);
      AddIfNewCovers(s, c, v);
      MergeCovers(AddIfNew(s, c), rest, v);
    }
  }

  lemma {:induction false} MergeKeeps(s: seq<Object>, incoming: seq<Object>)
    ensures Antichain(s) ==> Antichain(Merge(s, incoming))
    ensures SortedByTime(s) ==> SortedByTime(Merge(s, incoming))
    ensures s != [] || incoming != [] ==> Merge(s, incoming) != []
    decreases incoming
  {
    if incoming != [] {
      var c := incoming[0];
      if CanBeAdded(c, s) {
        AddKeeps(s, c);
        AddMembers(s, c, c);
      }
      MergeKeeps(AddIfNew(s, c), incoming[1..]);
    }
  }

  lemma {:induction false} MergeMembers(s: seq<Object>, incoming: seq<Object>, x: Object)
    requires x in Merge(s, incoming)
    ensures x in s + incoming
    decreases incoming
  {
    if incoming != [] {
      var c := incoming[0];
      MergeMembers(AddIfNew(s, c), incoming[1..], x);
      if CanBeAdded(c, s) { AddMembers(s, c, x); }
    }
  }

  /** The fold keeps exactly the maximal clocks of existing and incoming objects. */
  lemma MergeIsMaximal(s: seq<Object>, incoming: seq<Object>)
    requires Antichain(s)
    ensures Antichain(Merge(s, incoming))
    ensures forall x | x in Merge(s, incoming) :: x in s + incoming && Maximal(x, s + incoming)
    ensures forall y | y in s + incoming && Maximal(y, s + incoming) :: HasClock(Merge(s, incoming), Clock(y))
  {
    var m, all := Merge(s, incoming), s + incoming;
    MergeKeeps(s, incoming);
    forall x | x in m ensures x in all && Maximal(x, all) {
      MergeMembers(s, incoming, x);
      var a :| 0 <= a < |m| && m[a] == x;
      forall i | 0 <= i < |all| && Leq(Clock(x), Clock(all[i])) ensures Leq(Clock(all[i]), Clock(x)) {
        var b := CoveredBy(s, incoming, all[i]);
        LeqTransitive(Clock(x), Clock(all[i]), Clock(m[b]));
        assert a == b;
      }
    }
    forall y | y in all && Maximal(y, all) ensures HasClock(m, Clock(y)) {
      var b := CoveredBy(s, incoming, y);
      MergeMembers(s, incoming, m[b]);
      assert SameClock(Clock(y), Clock(m[b]));
    }
  }

  lemma CoveredBy(s: seq<Object>, incoming: seq<Object>, y: Object) returns (b: nat)
    requires y in s + incoming
    ensures b < |Merge(s, incoming)| && Leq(Clock(y), Clock(Merge(s, incoming)[b]))
  {
    CoversMember(s + incoming, y);
    CoversConcat(s, incoming, Clock(y));
    MergeCovers(s, incoming, Clock(y));
    var i :| 0 <= i < |Merge(s, incoming)| && Leq(Clock(y), Clock(Merge(s, incoming)[i]));
    b := i;
  }

  lemma CoverGivesClock(s: seq<Object>, t: seq<Object>, i: nat)
    requires Antichain(s) && SameCover(s, t) && i < |s|
    ensures HasClock(t, Clock(s[i]))
  {
    CoversMember(s, s[i]);
    assert Covers(t, Clock(s[i]));
    var j :| 0 <= j < |t| && Leq(Clock(s[i]), Clock(t[j]));
    CoversMember(t, t[j]);
    assert Covers(s, Clock(t[j]));
    var k :| 0 <= k < |s| && Leq(Clock(t[j]), Clock(s[k]));
    LeqTransitive(Clock(s[i]), Clock(t[j]), Clock(s[k]));
    assert k == i;
    assert SameClock(Clock(s[i]), Clock(t[j]));
  }

  /** An antichain is determined by its cover: this is what makes the laws below hold. */
  lemma AntichainDeterminedByCover(s: seq<Object>, t: seq<Object>)
    requires Antichain(s) && Antichain(t)
    ensures SameCover(s, t) <==> SameClocks(s, t)
  {
    if SameCover(s, t) {
      forall i | 0 <= i < |s| ensures HasClock(t, Clock(s[i])) { CoverGivesClock(s, t, i); }
      forall i | 0 <= i < |t| ensures HasClock(s, Clock(t[i])) { CoverGivesClock(t, s, i); }
    }
    if SameClocks(s, t) {
      forall v: VClock ensures Covers(s, v) <==> Covers(t, v) {
        ClocksGiveCover(s, t, v);
        ClocksGiveCover(t, s, v);
      }
    }
  }

  lemma ClocksGiveCover(s: seq<Object>, t: seq<Object>, v: VClock)
    requires SameClocks(s, t)
    ensures Covers(s, v) ==> Covers(t, v)
  {
    if Covers(s, v) {
      var i :| 0 <= i < |s| && Leq(v, Clock(s[i]));
      assert HasClock(t, Clock(s[i]));
      var j :| 0 <= j < |t| && SameClock(Clock(s[i]), Clock(t[j]));
      LeqTransitive(v, Clock(s[i]), Clock(t[j]));
    }
  }

  lemma MergeCommutes(s: seq<Object>, t: seq<Object>)
    requires Antichain(s) && Antichain(t)
    ensures SameClocks(Merge(s, t), Merge(t, s))
  {
    hide Merge, Antichain, Covers, SortedByTime;
    MergeKeeps(s, t);
    MergeKeeps(t, s);
    forall v: VClock ensures Covers(Merge(s, t), v) <==> Covers(Merge(t, s), v) {
      MergeCovers(s, t, v);
      MergeCovers(t, s, v);
    }
    AntichainDeterminedByCover(Merge(s, t), Merge(t, s));
  }

  lemma MergeAssociates(s: seq<Object>, t: seq<Object>, u: seq<Object>)
    requires Antichain(s) && Antichain(t)
    ensures SameClocks(Merge(Merge(s, t), u), Merge(s, Merge(t, u)))
  {
    var a, b := Merge(Merge(s, t), u), Merge(s, Merge(t, u));
    hide Merge, Antichain, Covers, SortedByTime;
    MergeKeeps(s, t);
    MergeKeeps(Merge(s, t), u);
    MergeKeeps(s, Merge(t, u));
    forall v: VClock ensures Covers(a, v) <==> Covers(b, v) {
      MergeCovers(s, t, v);
      MergeCovers(Merge(s, t), u, v);
      MergeCovers(t, u, v);
      MergeCovers(s, Merge(t, u), v);
    }
    AntichainDeterminedByCover(a, b);
  }

  lemma MergeIdempotent(s: seq<Object>, t: seq<Object>)
    ensures Merge(Merge(s, t), t) == Merge(s, t)
    ensures Merge(s, s) == s
  {
    forall o | o in s ensures Covers(s, Clock(o)) { CoversMember(s, o); }
    MergeKnown(s, s);
    forall o | o in t ensures Covers(Merge(s, t), Clock(o)) {
      CoversMember(t, o);
      MergeCovers(s, t, Clock(o));
    }
    MergeKnown(Merge(s, t), t);
  }

  /** Nothing changes when every incoming object is already covered. */
  lemma {:induction false} MergeKnown(s: seq<Object>, incoming: seq<Object>)
    requires forall o | o in incoming :: Covers(s, Clock(o))
    ensures Merge(s, incoming) == s
  {
    if incoming != [] {
      assert incoming[0] in incoming;
      MergeKnown(s, incoming[1..]);
    }
  }

  /** Order and duplication of the incoming objects do not matter. */
  lemma MergeOrderIrrelevant(s: seq<Object>, a: seq<Object>, b: seq<Object>)
    requires Antichain(s) && Elements(a) == Elements(b)
    ensures SameClocks(Merge(s, a), Merge(s, b))
  {
    MergeKeeps(s, a); MergeKeeps(s, b);
    forall v: VClock ensures Covers(Merge(s, a), v) <==> Covers(Merge(s, b), v) {
      MergeCovers(s, a, v); MergeCovers(s, b, v);
      SubsetCovers(a, b, v); SubsetCovers(b, a, v);
    }
    AntichainDeterminedByCover(Merge(s, a), Merge(s, b));
  }

  lemma SubsetCovers(a: seq<Object>, b: seq<Object>, v: VClock)
    requires Elements(a) <= Elements(b)
    ensures Covers(a, v) ==> Covers(b, v)
  {
    if Covers(a, v) {
      var i :| 0 <= i < |a| && Leq(v, Clock(a[i]));
      assert a[i] in Elements(a);
      var j :| 0 <= j < |b| && b[j] == a[i];
    }
  }

  lemma CoherentMember(s: seq<Object>, t: seq<Object>, x: Object)
    requires SameClocks(s, t) && Coherent(s + t) && x in s
    ensures x in t
  {
    var i :| 0 <= i < |s| && s[i] == x;
    assert HasClock(t, Clock(s[i]));
    var j :| 0 <= j < |t| && SameClock(Clock(s[i]), Clock(t[j]));
    assert t[j] in s + t && x in s + t;
  }

  /** Where equal clocks mean equal objects, equal clocks mean equal sets of whole objects. */
  lemma CoherentClocksAreObjects(s: seq<Object>, t: seq<Object>)
    requires SameClocks(s, t) && Coherent(s + t)
    ensures Elements(s) == Elements(t)
  {
    assert Coherent(t + s) by { assert forall x :: x in t + s <==> x in s + t; }
    forall x | x in s ensures x in t { CoherentMember(s, t, x); }
    forall x | x in t ensures x in s { CoherentMember(t, s, x); }
  }

  /** The laws on whole objects, when equal clocks mean equal objects. */
  lemma MergeLawsOnObjects(s: seq<Object>, t: seq<Object>, u: seq<Object>)
    requires Antichain(s) && Antichain(t) && Coherent(s + t + u)
    ensures Elements(Merge(s, t)) == Elements(Merge(t, s))
    ensures Elements(Merge(Merge(s, t), u)) == Elements(Merge(s, Merge(t, u)))
  {
    MergeCommutes(s, t);
    forall x | x in Merge(s, t) + Merge(t, s) ensures x in s + t + u {
      if x in Merge(s, t) { MergeMembers(s, t, x); } else { MergeMembers(t, s, x); }
    }
    CoherentClocksAreObjects(Merge(s, t), Merge(t, s));
    MergeAssociates(s, t, u);
    forall x | x in Merge(Merge(s, t), u) + Merge(s, Merge(t, u)) ensures x in s + t + u {
      if x in Merge(Merge(s, t), u) {
        MergeMembers(Merge(s, t), u, x);
        if x in Merge(s, t) { MergeMembers(s, t, x); }
      } else {
        MergeMembers(s, Merge(t, u), x);
        if x in Merge(t, u) { MergeMembers(t, u, x); }
      }
    }
    CoherentClocksAreObjects(Merge(Merge(s, t), u), Merge(s, Merge(t, u)));
  }

  /** On whole objects, when equal clocks mean equal objects: the merge holds exactly the maximal ones. */
  lemma MergeIsMaximalObjects(s: seq<Object>, incoming: seq<Object>, x: Object)
    requires Antichain(s) && Coherent(s + incoming)
    ensures x in Merge(s, incoming) <==> x in s + incoming && Maximal(x, s + incoming)
  {
    MergeIsMaximal(s, incoming);
    var m := Merge(s, incoming);
    if x in s + incoming && Maximal(x, s + incoming) {
      var i :| 0 <= i < |m| && SameClock(Clock(x), Clock(m[i]));
      assert m[i] in s + incoming;
    }
  }

  lemma SameElementsMaximal(a: seq<Object>, b: seq<Object>, x: Object)
    requires Elements(a) == Elements(b) && Maximal(x, a)
    ensures Maximal(x, b)
  {
    forall i | 0 <= i < |b| && Leq(Clock(x), Clock(b[i])) ensures Leq(Clock(b[i]), Clock(x)) {
      assert b[i] in Elements(a);
      var j :| 0 <= j < |a| && a[j] == b[i];
    }
  }

  /** Under the same condition order and duplication of the incoming objects do not matter for whole objects either. */
  lemma MergeOrderOnObjects(s: seq<Object>, a: seq<Object>, b: seq<Object>)
    requires Antichain(s) && Coherent(s + a) && Elements(a) == Elements(b)
    ensures Elements(Merge(s, a)) == Elements(Merge(s, b))
  {
    assert forall x :: x in a <==> x in Elements(a);
    assert forall x :: x in b <==> x in Elements(b);
    assert Elements(s + a) == Elements(s + b);
    assert forall x :: x in s + a <==> x in s + b;
    assert Coherent(s + b);
    hide Coherent, Maximal, Antichain, Merge;
    forall x: Object ensures x in Merge(s, a) <==> x in Merge(s, b) {
      MergeIsMaximalObjects(s, a, x);
      MergeIsMaximalObjects(s, b, x);
      if Maximal(x, s + a) { SameElementsMaximal(s + a, s + b, x); }
      if Maximal(x, s + b) { SameElementsMaximal(s + b, s + a, x); }
    }
  }
}
