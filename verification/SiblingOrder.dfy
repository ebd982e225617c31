/** The canonical order in which siblings are hashed (src/kvsrv/rpc/object.go:95-126, src/kvsrv/merkle.go:51-53). */
module SiblingOrder {
  import opened VectorClock
  import opened Siblings

  /** SortObjects' test for exchanging a later object `b` with an earlier object `a`. */
  predicate MustPrecede(b: Object, a: Object) {
    match Cmp(Clock(b), Clock(a))
    case Before => true
    case After => false
    case _ => Stamp(b) < Stamp(a)
  }

  function Swap(s: seq<Object>, i: nat, j: nat): (r: seq<Object>)
    requires i < j < |s|
    ensures |r| == |s|
  {
    s[i := s[j]][j := s[i]]
  }

  /** The inner loop of SortObjects from index `j` on. */
  function InnerPass(s: seq<Object>, i: nat, j: nat): (r: seq<Object>)
    requires i < j <= |s|
    ensures |r| == |s|
    decreases |s| - j
  {
    if j == |s| then s
    else InnerPass(if MustPrecede(s[j], s[i]) then Swap(s, i, j) else s, i, j + 1)
  }

  /** The outer loop of SortObjects from index `i` on. */
  function OuterPass(s: seq<Object>, i: nat): (r: seq<Object>)
    requires i <= |s|
    ensures |r| == |s|
    decreases |s| - i
  {
    if i == |s| then s else OuterPass(InnerPass(s, i, i + 1), i + 1)
  }

  lemma SwapPermutes(s: seq<Object>, i: nat, j: nat)
    requires i < j < |s|
    ensures multiset(Swap(s, i, j)) == multiset(s) && Swap(s, i, j)[..i] == s[..i]
  {
  }

  lemma {:induction false} InnerPermutes(s: seq<Object>, i: nat, j: nat)
    requires i < j <= |s|
    ensures multiset(InnerPass(s, i, j)) == multiset(s) && InnerPass(s, i, j)[..i] == s[..i]
    decreases |s| - j
  {
    hide MustPrecede, Swap;
    if j < |s| {
      SwapPermutes(s, i, j);
      InnerPermutes(if MustPrecede(s[j], s[i]) then Swap(s, i, j) else s, i, j + 1);
    }
  }

  lemma {:induction false} OuterPermutes(s: seq<Object>, i: nat)
    requires i <= |s|
    ensures multiset(OuterPass(s, i)) == multiset(s)
    decreases |s| - i
  {
    hide InnerPass;
    if i < |s| {
      InnerPermutes(s, i, i + 1);
      OuterPermutes(InnerPass(s, i, i + 1), i + 1);
    }
  }

  /** One round of the outer loop: the inner loop over the objects behind `i`. */
  method ExchangeInto(s: seq<Object>, i: nat) returns (copied: seq<Object>)
    requires i < |s|
    ensures copied == InnerPass(s, i, i + 1)
    ensures multiset(copied) == multiset(s) && copied[..i] == s[..i]
    ensures Antichain(s) ==> Least(copied, i, |s|)
  {
    InnerPermutes(s, i, i + 1);
    if Antichain(s) { InnerSelects(s, i, i + 1); }
    hide Cmp, Antichain, Least;
    copied := s;
    for j := i + 1 to |s|
      invariant |copied| == |s|
      invariant InnerPass(copied, i, j) == InnerPass(s, i, i + 1)
    {
      var cmp := VectorClock.Compare(Clock(copied[j]), Clock(copied[i]));
      var exchange := cmp == Before || (cmp != After && Stamp(copied[j]) < Stamp(copied[i]));
      assert exchange == MustPrecede(copied[j], copied[i]);
      if exchange {
        copied := Swap(copied, i, j);
      }
    }
  }

  method SortObjects(siblings: seq<Object>) returns (copied: seq<Object>)
    ensures copied == OuterPass(siblings, 0)
    ensures multiset(copied) == multiset(siblings)
    ensures Antichain(siblings) ==> SortedByTime(copied)
  {
    copied := siblings;
    for i := 0 to |siblings|
      invariant |copied| == |siblings|
      invariant OuterPass(copied, i) == OuterPass(siblings, 0)
    {
      copied := ExchangeInto(copied, i);
    }
    OuterPermutes(siblings, 0);
    if Antichain(siblings) { OuterSorts(siblings, 0); }
  }

  /** Neighbours in strictly increasing timestamp order, none causally after the next. */
  predicate Ordered(s: seq<Object>) {
    forall i | 1 <= i < |s| :: Cmp(Clock(s[i - 1]), Clock(s[i])) != After && Stamp(s[i - 1]) < Stamp(s[i])
  }

  method IsOrdered(siblings: seq<Object>) returns (r: bool)
    ensures r == Ordered(siblings)
  {
    hide Leq;
    var i := 1;
    while i < |siblings|
      invariant 1 <= i
      invariant forall k | 1 <= k < i && k < |siblings| ::
          Cmp(Clock(siblings[k - 1]), Clock(siblings[k])) != After && Stamp(siblings[k - 1]) < Stamp(siblings[k])
    {
      var cmp := VectorClock.Compare(Clock(siblings[i - 1]), Clock(siblings[i]));
      if cmp == After { return false; }
      if !(Stamp(siblings[i - 1]) < Stamp(siblings[i])) { return false; }
      i := i + 1;
    }
    return true;
  }

  /** The order in which writeKVPair serializes the siblings of a key. */
  function Canonical(s: seq<Object>): (r: seq<Object>)
    ensures |r| == |s|
  {
    if Ordered(s) then s else OuterPass(s, 0)
  }

  lemma CanonicalPermutes(s: seq<Object>)
    ensures multiset(Canonical(s)) == multiset(s)
  {
    OuterPermutes(s, 0);
  }

  lemma SwapAntichain(s: seq<Object>, i: nat, j: nat)
    requires i < j < |s| && Antichain(s)
    ensures Antichain(Swap(s, i, j))
  {
    var r := Swap(s, i, j);
    forall a, b | 0 <= a < |r| && 0 <= b < |r| && a != b ensures !Leq(Clock(r[a]), Clock(r[b])) {
      var a' := if a == i then j else if a == j then i else a;
      var b' := if b == i then j else if b == j then i else b;
      assert r[a] == s[a'] && r[b] == s[b'] && a' != b';
    }
  }

  lemma {:induction false} InnerAntichain(s: seq<Object>, i: nat, j: nat)
    requires i < j <= |s| && Antichain(s)
    ensures Antichain(InnerPass(s, i, j))
    decreases |s| - j
  {
    hide Antichain, MustPrecede;
    if j < |s| {
      if MustPrecede(s[j], s[i]) {
        SwapAntichain(s, i, j);
        InnerAntichain(Swap(s, i, j), i, j + 1);
      } else {
        InnerAntichain(s, i, j + 1);
      }
    }
  }

  lemma ConcurrentByTime(s: seq<Object>, i: nat, j: nat)
    requires i < j < |s| && Antichain(s)
    ensures MustPrecede(s[j], s[i]) == (Stamp(s[j]) < Stamp(s[i]))
  {
  }

  ghost predicate Least(s: seq<Object>, i: nat, j: nat) {
    i < j <= |s| && forall k | i <= k < j :: Stamp(s[i]) <= Stamp(s[k])
  }

  lemma {:induction false} InnerSelects(s: seq<Object>, i: nat, j: nat)
    requires i < j <= |s| && Antichain(s) && Least(s, i, j)
    ensures Least(InnerPass(s, i, j), i, |s|)
    decreases |s| - j
  {
    hide Antichain, MustPrecede;
    if j < |s| {
      ConcurrentByTime(s, i, j);
      var next := if MustPrecede(s[j], s[i]) then Swap(s, i, j) else s;
      assert Least(next, i, j + 1);
      assert Antichain(next) by { if MustPrecede(s[j], s[i]) { SwapAntichain(s, i, j); } }
      InnerSelects(next, i, j + 1);
    }
  }

  ghost predicate SortedPrefix(s: seq<Object>, i: nat) {
    forall a, b | 0 <= a < b < |s| && a < i :: Stamp(s[a]) <= Stamp(s[b])
  }

  /** On an antichain the exchange sort orders by timestamp. */
  lemma {:induction false} OuterSorts(s: seq<Object>, i: nat)
    requires i <= |s| && Antichain(s) && SortedPrefix(s, i)
    ensures SortedByTime(OuterPass(s, i))
    decreases |s| - i
  {
    hide Antichain, InnerPass;
    if i < |s| {
      var p := InnerPass(s, i, i + 1);
      InnerPermutes(s, i, i + 1);
      InnerAntichain(s, i, i + 1);
      InnerSelects(s, i, i + 1);
      forall a, b | 0 <= a < b < |p| && a < i + 1 ensures Stamp(p[a]) <= Stamp(p[b]) {
        if a < i {
          assert p[a] == p[..i][a] == s[..i][a];
          if b < i { assert p[b] == p[..i][b] == s[..i][b]; }
          else { PermutedTail(s, p, i, b); }
        }
      }
      OuterSorts(p, i + 1);
    }
  }

  lemma TailMultiset(s: seq<Object>, i: nat)
    requires i <= |s|
    ensures multiset(s[i..]) == multiset(s) - multiset(s[..i])
  {
    assert s == s[..i] + s[i..];
  }

  /** If a permutation leaves a prefix alone, its tail is a permutation of the tail. */
  lemma PermutedTail(s: seq<Object>, p: seq<Object>, i: nat, b: nat)
    requires |s| == |p| && multiset(s) == multiset(p) && i <= b < |s| && s[..i] == p[..i]
    ensures exists k :: i <= k < |s| && s[k] == p[b]
  {
    TailMultiset(s, i);
    TailMultiset(p, i);
    assert p[b] == p[i..][b - i];
    assert p[b] in multiset(s[i..]);
    var k :| 0 <= k < |s[i..]| && s[i..][k] == p[b];
    assert s[i + k] == p[b];
  }

  /** Different siblings have different timestamps. */
  predicate TimesIdentify(m: multiset<Object>) {
    forall x, y | x in m && y in m :: Stamp(x) == Stamp(y) ==> x == y
  }

  lemma OrderedIsSorted(s: seq<Object>, i: nat, j: nat)
    requires Ordered(s) && i <= j < |s|
    ensures i < j ==> Stamp(s[i]) < Stamp(s[j])
    decreases j - i
  {
    if i < j { OrderedIsSorted(s, i, j - 1); }
  }

  lemma CanonicalSorted(s: seq<Object>)
    requires Antichain(s)
    ensures SortedByTime(Canonical(s))
  {
    if Ordered(s) {
      forall i, j | 0 <= i < j < |s| ensures Stamp(s[i]) <= Stamp(s[j]) { OrderedIsSorted(s, i, j); }
    } else {
      OuterSorts(s, 0);
    }
  }

  lemma SameLast(s: seq<Object>, t: seq<Object>)
    requires SortedByTime(s) && SortedByTime(t) && multiset(s) == multiset(t) && TimesIdentify(multiset(s)) && s != []
    ensures t != [] && s[|s| - 1] == t[|t| - 1]
  {
    assert |multiset(s)| == |s| && |multiset(t)| == |t|;
    hide SortedByTime;
    var last, other := s[|s| - 1], t[|t| - 1];
    assert last in multiset(t) && other in multiset(s);
    NotAfterLast(t, last);
    NotAfterLast(s, other);
  }

  lemma NotAfterLast(s: seq<Object>, x: Object)
    requires SortedByTime(s) && x in s
    ensures Stamp(x) <= Stamp(s[|s| - 1])
  {
    var i :| 0 <= i < |s| && s[i] == x;
  }

  lemma DropLast(s: seq<Object>) returns (front: seq<Object>)
    requires s != []
    ensures s == front + [s[|s| - 1]]
    ensures multiset(s) == multiset(front) + multiset{s[|s| - 1]}
    ensures SortedByTime(s) ==> SortedByTime(front)
    ensures TimesIdentify(multiset(s)) ==> TimesIdentify(multiset(front))
  {
    front := s[..|s| - 1];
    assert s == front + [s[|s| - 1]];
  }

  lemma Cancel(a: multiset<Object>, b: multiset<Object>, x: Object)
    requires a + multiset{x} == b + multiset{x}
    ensures a == b
  {
    assert a == a + multiset{x} - multiset{x} && b == b + multiset{x} - multiset{x};
  }

  lemma {:induction false} SortedUnique(s: seq<Object>, t: seq<Object>)
    requires SortedByTime(s) && SortedByTime(t) && multiset(s) == multiset(t) && TimesIdentify(multiset(s))
    ensures s == t
    decreases |s|
  {
    if s == [] {
      assert |multiset(t)| == |t|;
    } else {
      SameLast(s, t);
      var s' := DropLast(s);
      var t' := DropLast(t);
      Cancel(multiset(s'), multiset(t'), s[|s| - 1]);
      SortedUnique(s', t');
    }
  }

  /** Replicas that hold the same siblings serialize them alike, however they store them, if timestamps differ. */
  lemma CanonicalUnique(s: seq<Object>, t: seq<Object>)
    requires Antichain(s) && Antichain(t) && multiset(s) == multiset(t) && TimesIdentify(multiset(s))
    ensures Canonical(s) == Canonical(t)
  {
    CanonicalSorted(s);
    CanonicalSorted(t);
    CanonicalPermutes(s);
    CanonicalPermutes(t);
    SortedUnique(Canonical(s), Canonical(t));
  }
}
