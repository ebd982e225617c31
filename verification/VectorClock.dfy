/** Vector clocks (src/kvsrv/vclock/vclock.go): maps in which a missing node counts as version 0. */
module VectorClock {
  import opened Base

  type VClock = map<Str, nat>

  datatype Order = Equal | Before | After | Concurrent

  function Version(v: VClock, node: Str): nat {
    if node in v then v[node] else 0
  }

  /** `a` is equal to or before `b`. */
  predicate Leq(a: VClock, b: VClock) {
    forall n | n in a :: a[n] <= Version(b, n)
  }

  /** The two clocks are equal up to entries of version 0. */
  predicate SameClock(a: VClock, b: VClock) {
    Leq(a, b) && Leq(b, a)
  }

  /** The order in which `a` stands to `b`, from the two halves of the partial order. */
  function Cmp(a: VClock, b: VClock): Order {
    if Leq(a, b) then (if Leq(b, a) then Equal else Before)
    else if Leq(b, a) then After
    else Concurrent
  }

  /** Every version is 0. */
  predicate IsZero(v: VClock) {
    forall n | n in v :: v[n] == 0
  }

  lemma LeqTransitive(a: VClock, b: VClock, c: VClock)
    requires Leq(a, b) && Leq(b, c)
    ensures Leq(a, c)
  {
    forall n | n in a ensures a[n] <= Version(c, n) {
      assert n in b ==> b[n] <= Version(c, n);
    }
  }

  lemma SameClockVersions(a: VClock, b: VClock)
    ensures SameClock(a, b) <==> forall n: Str :: Version(a, n) == Version(b, n)
  {
    if forall n: Str :: Version(a, n) == Version(b, n) {
      forall n | n in a ensures a[n] <= Version(b, n) { assert Version(a, n) == Version(b, n); }
      forall n | n in b ensures b[n] <= Version(a, n) { assert Version(a, n) == Version(b, n); }
    }
  }

  function Increment(v: VClock, node: Str): VClock {
    v[node := Version(v, node) + 1]
  }

  lemma IncrementIsAfter(v: VClock, node: Str)
    ensures Cmp(v, Increment(v, node)) == Before
    ensures forall n: Str :: n != node ==> Version(Increment(v, node), n) == Version(v, n)
  {
    assert !Leq(Increment(v, node), v) by { assert node in Increment(v, node); }
  }

  /** VClock.IsInitial: stops at the first version that is not 0. */
  method IsInitial(v: VClock) returns (initial: bool)
    ensures initial == IsZero(v)
    ensures initial <==> forall other: VClock :: Leq(v, other)
  {
    var nodes := v.Keys;
    while nodes != {}
      invariant nodes <= v.Keys
      invariant forall n | n in v.Keys - nodes :: v[n] == 0
      decreases |nodes|
    {
      var n :| n in nodes;
      if v[n] != 0 {
        assert !Leq(v, map[]);
        return false;
      }
      nodes := nodes - {n};
    }
    return true;
  }

  /** VClock.Compare: visits the nodes of both clocks in any order, with the early exit. */
  method Compare(v: VClock, other: VClock) returns (r: Order)
    ensures r == Cmp(v, other)
  {
    var hasBefore, hasAfter := false, false;
    var nodes := v.Keys + other.Keys;
    while nodes != {}
      invariant !(hasBefore && hasAfter)
      invariant hasBefore ==> !Leq(other, v)
      invariant hasAfter ==> !Leq(v, other)
      invariant !hasBefore ==> forall n | n in other && n !in nodes :: other[n] <= Version(v, n)
      invariant !hasAfter ==> forall n | n in v && n !in nodes :: v[n] <= Version(other, n)
      decreases |nodes|
    {
      var n :| n in nodes;
      nodes := nodes - {n};
      if Version(v, n) < Version(other, n) {
        hasBefore := true;
      } else if Version(v, n) > Version(other, n) {
        hasAfter := true;
      }
      if hasBefore && hasAfter {
        return Concurrent;
      }
    }
    if hasBefore { return Before; }
    if hasAfter { return After; }
    return Equal;
  }

  function Max(a: nat, b: nat): nat {
    if a > b then a else b
  }

  /** VClock.Merge: overwrites each node's version with the larger of the two. */
  method MergeClocks(v: VClock, other: VClock) returns (r: VClock)
    ensures IsJoin(r, v, other)
  {
    var nodes := v.Keys + other.Keys;
    r := v;
    while nodes != {}
      invariant nodes <= v.Keys + other.Keys
      invariant forall n: Str | n in nodes :: Version(r, n) == Version(v, n)
      invariant forall n: Str | n !in nodes :: Version(r, n) == Max(Version(v, n), Version(other, n))
      decreases |nodes|
    {
      var n :| n in nodes;
      nodes := nodes - {n};
      r := r[n := Max(Version(r, n), Version(other, n))];
    }
  }

  /** Pointwise maximum. */
  ghost predicate IsJoin(r: VClock, v: VClock, other: VClock) {
    forall n: Str :: Version(r, n) == Max(Version(v, n), Version(other, n))
  }

  /** A pointwise maximum is exactly a least upper bound in the causal order. */
  lemma JoinIsLeastUpperBound(r: VClock, v: VClock, other: VClock, u: VClock)
    requires IsJoin(r, v, other)
    ensures Leq(r, u) <==> Leq(v, u) && Leq(other, u)
  {
    if Leq(r, u) {
      forall n | n in v ensures v[n] <= Version(u, n) { assert Version(r, n) >= Version(v, n); }
      forall n | n in other ensures other[n] <= Version(u, n) { assert Version(r, n) >= Version(other, n); }
    }
    if Leq(v, u) && Leq(other, u) {
      forall n | n in r ensures r[n] <= Version(u, n) {
        assert Version(v, n) <= Version(u, n) && Version(other, n) <= Version(u, n);
      }
    }
  }
}
