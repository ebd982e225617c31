/** The closed form for k-staleness (src/kvsrv_eval/stimulator.go:156-191), over the reals. */
module Combinatorics {
  import opened Base

  /** Pascal's triangle. */
  function Binomial(n: nat, k: nat): nat {
    if k == 0 then 1 else if n == 0 then 0 else Binomial(n - 1, k) + Binomial(n - 1, k - 1)
  }

  lemma {:induction false} BinomialZero(n: nat, k: nat)
    ensures k > n ==> Binomial(n, k) == 0
    ensures k <= n ==> Binomial(n, k) > 0
    decreases n
  {
    if k > 0 && n > 0 {
      BinomialZero(n - 1, k);
      BinomialZero(n - 1, k - 1);
    }
  }

  lemma {:induction false} BinomialAll(n: nat)
    ensures Binomial(n, n) == 1
  {
    if n > 0 {
      BinomialAll(n - 1);
      BinomialZero(n - 1, n);
    }
  }

  lemma AbsorptionArithmetic(k: int, m: int, a: int, b: int, p: int, q: int)
    requires k * a == m * p && (k - 1) * b == m * q && b == p + q
    ensures k * (a + b) == (m + 1) * b
  {
    assert k * (a + b) == k * a + ((k - 1) * b + b);
    assert m * (p + q) == m * p + m * q;
    assert (m + 1) * b == m * b + b;
  }

  /** k * C(n, k) == n * C(n - 1, k - 1) */
  lemma {:induction false} Absorption(n: nat, k: nat)
    requires n >= 1 && k >= 1
    ensures k * Binomial(n, k) == n * Binomial(n - 1, k - 1)
    decreases n
  {
    var m := n - 1;
    if m == 0 {
      BinomialZero(0, k);
      BinomialZero(0, k - 1);
    } else {
      Absorption(m, k);
      var a, b, p := Binomial(m, k), Binomial(m, k - 1), Binomial(m - 1, k - 1);
      assert Binomial(n, k) == a + b;
      if k >= 2 {
        Absorption(m, k - 1);
        var q := Binomial(m - 1, k - 2);
        assert b == p + q;
        hide Binomial;
        AbsorptionArithmetic(k, m, a, b, p, q);
      } else {
        assert b == 1;
      }
    }
  }

  lemma {:induction false} Symmetry(n: nat, k: nat)
    requires k <= n
    ensures Binomial(n, k) == Binomial(n, n - k)
    decreases n
  {
    if k == 0 || k == n {
      BinomialAll(n);
    } else {
      Symmetry(n - 1, k);
      Symmetry(n - 1, k - 1);
    }
  }

  /** The loop multiplies up C(n - k + i, i). */
  method Combination(n: int, k: int) returns (result: real)
    ensures result == if 0 <= k <= n then Binomial(n, k) as real else 0.0
  {
    if k < 0 || k > n { return 0.0; }
    if k == 0 || k == n {
      BinomialAll(n);
      return 1.0;
    }
    var k := k;
    Symmetry(n, k);
    if k > n - k { k := n - k; }
    result := 1.0;
    var i := 1;
    while i <= k
      invariant 1 <= i <= k + 1
      invariant result == Binomial(n - k + i - 1, i - 1) as real
    {
      CombinationStep(n - k + i, i);
      result := result * ((n - k + i) as real / i as real);
      i := i + 1;
    }
  }

  lemma CombinationStep(n: nat, k: nat)
    requires n >= 1 && k >= 1
    ensures Binomial(n - 1, k - 1) as real * (n as real / k as real) == Binomial(n, k) as real
  {
    Absorption(n, k);
    hide Binomial;
    Scaled(k, Binomial(n, k), n, Binomial(n - 1, k - 1));
  }

  lemma Scaled(k: nat, b: nat, n: nat, a: nat)
    requires k >= 1 && k * b == n * a
    ensures a as real * (n as real / k as real) == b as real
  {
    CastProduct(k, b);
    CastProduct(n, a);
    MulDiv(a as real, n as real, k as real, b as real);
  }

  lemma CastProduct(a: nat, b: nat)
    ensures (a * b) as real == a as real * b as real
  {
  }

  lemma MulDiv(a: real, n: real, k: real, b: real)
    requires k > 0.0 && k * b == n * a
    ensures a * (n / k) == b
  {
    var q := n / k;
    assert q * k == n;
    assert k * b == q * k * a == k * (a * q);
    assert k * (b - a * q) == 0.0;
  }

  // ----- what the numbers count

  function With(s: set<set<nat>>, x: nat): set<set<nat>> { set q | q in s :: q + {x} }

  /** The ways to choose k of n replicas. */
  function Choose(n: nat, k: nat): set<set<nat>> {
    if k == 0 then {{}} else if n == 0 then {} else Choose(n - 1, k) + With(Choose(n - 1, k - 1), n - 1)
  }

  /** q is k of the n replicas. */
  predicate IsChoice(q: set<nat>, n: nat, k: nat) { |q| == k && forall x | x in q :: x < n }

  lemma InWith(s: set<set<nat>>, x: nat, q: set<nat>)
    requires forall p | p in s :: x !in p
    ensures q in With(s, x) <==> x in q && q - {x} in s
  {
    if q in With(s, x) {
      var p :| p in s && q == p + {x};
      assert q - {x} == p;
    }
    if x in q && q - {x} in s { assert q == q - {x} + {x}; }
  }

  lemma DropLast(q: set<nat>, n: nat, k: nat)
    requires n >= 1 && k >= 1
    ensures n - 1 in q ==> (IsChoice(q, n, k) <==> IsChoice(q - {n - 1}, n - 1, k - 1))
    ensures n - 1 !in q ==> (IsChoice(q, n, k) <==> IsChoice(q, n - 1, k))
  {
    if n - 1 in q {
      assert |q - {n - 1}| == |q| - 1;
      assert forall x | x in q :: x == n - 1 || x in q - {n - 1};
    }
  }

  lemma ChoosePascal(n: nat, k: nat)
    requires n >= 1 && k >= 1
    ensures Choose(n, k) == Choose(n - 1, k) + With(Choose(n - 1, k - 1), n - 1)
  {
    hide With;
  }

  lemma ChooseBase(n: nat, k: nat)
    requires n == 0 || k == 0
    ensures Choose(n, k) == if k == 0 then {{}} else {}
  {
    hide With;
  }

  lemma ChoiceBase(n: nat, k: nat, q: set<nat>)
    requires n == 0 || k == 0
    ensures IsChoice(q, n, k) <==> k == 0 && q == {}
  {
    if q != {} { var x :| x in q; assert |q - {x}| == |q| - 1; }
  }

  lemma ChoiceSplit(n: nat, k: nat, q: set<nat>)
    requires n >= 1 && k >= 1
    ensures IsChoice(q, n, k) <==> if n - 1 in q then IsChoice(q - {n - 1}, n - 1, k - 1) else IsChoice(q, n - 1, k)
    ensures n - 1 in q ==> !IsChoice(q, n - 1, k) && !IsChoice(q, n - 1, k - 1)
  {
    DropLast(q, n, k);
  }

  lemma {:induction false} ChooseAre(n: nat, k: nat, q: set<nat>)
    ensures q in Choose(n, k) <==> IsChoice(q, n, k)
    decreases n
  {
    hide With, Choose, IsChoice;
    if n == 0 || k == 0 {
      ChooseBase(n, k);
      ChoiceBase(n, k, q);
    } else {
      var x, smaller := n - 1, Choose(n - 1, k - 1);
      ChoosePascal(n, k);
      ChooseAre(n - 1, k, q);
      ChooseAre(n - 1, k - 1, q - {x});
      forall p | p in smaller ensures x !in p {
        ChooseAre(n - 1, k - 1, p);
        ChoiceSplit(n, k, p);
      }
      InWith(smaller, x, q);
      ChoiceSplit(n, k, q);
    }
  }

  lemma WithOne(s: set<set<nat>>, x: nat, p: set<nat>)
    requires p in s && forall q | q in s :: x !in q
    ensures With(s, x) == With(s - {p}, x) + {p + {x}} && p + {x} !in With(s - {p}, x)
  {
    InWith(s - {p}, x, p + {x});
    assert p + {x} - {x} == p;
    forall q ensures q in With(s, x) <==> q in With(s - {p}, x) || q == p + {x} {
      InWith(s, x, q);
      InWith(s - {p}, x, q);
      if x in q { assert q == q - {x} + {x}; }
      hide With;
    }
  }

  lemma {:induction false} WithCount(s: set<set<nat>>, x: nat)
    requires forall q | q in s :: x !in q
    ensures |With(s, x)| == |s|
    decreases s
  {
    if s != {} {
      var p :| p in s;
      var rest := s - {p};
      hide With;
      WithCount(rest, x);
      WithOne(s, x, p);
      assert |s| == |rest| + 1;
    } else {
      assert With(s, x) == {};
    }
  }

  lemma PascalParts(n: nat, k: nat)
    requires n >= 1 && k >= 1
    ensures |Choose(n, k)| == |Choose(n - 1, k)| + |Choose(n - 1, k - 1)|
  {
    var x, without, smaller := n - 1, Choose(n - 1, k), Choose(n - 1, k - 1);
    ChoosePascal(n, k);
    hide Choose, With;
    forall q | q in smaller ensures x !in q { ChooseAre(n - 1, k - 1, q); }
    WithCount(smaller, x);
    forall q | q in without ensures q !in With(smaller, x) {
      ChooseAre(n - 1, k, q);
      InWith(smaller, x, q);
    }
    assert without !! With(smaller, x);
  }

  /** C(n, k) is the number of ways to choose k of n. */
  lemma {:induction false} ChooseCount(n: nat, k: nat)
    ensures |Choose(n, k)| == Binomial(n, k)
    decreases n
  {
    hide Choose;
    if n == 0 || k == 0 {
      ChooseBase(n, k);
    } else {
      ChooseCount(n - 1, k);
      ChooseCount(n - 1, k - 1);
      PascalParts(n, k);
    }
  }

  /** The write is at the last w of n replicas. */
  function Written(n: nat, w: nat): set<nat>
    requires w <= n
  {
    Below(n) - Below(n - w)
  }

  lemma WrittenAre(n: nat, w: nat)
    requires w <= n
    ensures |Written(n, w)| == w && forall x :: x in Written(n, w) <==> n - w <= x < n
  {
    assert Below(n) == Below(n - w) + Written(n, w);
  }

  /** The read quorums that miss the write. */
  function Missing(n: nat, w: nat, r: nat): set<set<nat>>
    requires w <= n
  {
    set q | q in Choose(n, r) && q !! Written(n, w)
  }

  /** The read quorums that miss a write are the choices among the replicas it did not reach. */
  lemma MissingQuorums(n: nat, w: nat, r: nat)
    requires w <= n
    ensures |Written(n, w)| == w && Missing(n, w, r) == Choose(n - w, r)
  {
    hide Written, Choose;
    WrittenAre(n, w);
    forall q: set<nat> ensures q in Missing(n, w, r) <==> q in Choose(n - w, r) {
      ChooseAre(n, r, q);
      ChooseAre(n - w, r, q);
    }
  }

  // ----- EvaluateKP

  /** The fraction of read quorums that miss one write. */
  function Miss(n: nat, w: nat, r: nat): (p: real)
    requires w <= n && r <= n
    ensures 0.0 <= p <= 1.0
  {
    MissBounds(n, w, r);
    |Missing(n, w, r)| as real / |Choose(n, r)| as real
  }

  lemma MissBounds(n: nat, w: nat, r: nat)
    requires w <= n && r <= n
    ensures |Choose(n, r)| > 0
    ensures 0.0 <= |Missing(n, w, r)| as real / |Choose(n, r)| as real <= 1.0
  {
    ChooseCount(n, r);
    BinomialZero(n, r);
    SubsetCount(Missing(n, w, r), Choose(n, r));
    ShareOf(|Missing(n, w, r)|, |Choose(n, r)|);
  }

  function Power(x: real, k: nat): real { if k == 0 then 1.0 else x * Power(x, k - 1) }

  /** math.Pow for a natural exponent. */
  method Pow(x: real, k: nat) returns (r: real)
    ensures r == Power(x, k)
  {
    r := 1.0;
    for i := 0 to k
      invariant r == Power(x, i)
    {
      r := x * r;
    }
  }

  /** The probability that a read quorum meets one of the last k writes, each at w random replicas. */
  method EvaluateKP(n: nat, w: nat, r: nat, k: nat) returns (probability: real)
    requires w <= n && r <= n
    ensures probability == 1.0 - Power(Miss(n, w, r), k)
  {
    var some := Combination(n - w, r);
    var all := Combination(n, r);
    ChooseCount(n, r);
    BinomialZero(n, r);
    BinomialZero(n - w, r);
    ChooseCount(n - w, r);
    MissingQuorums(n, w, r);
    var power := Pow(some / all, k);
    probability := 1.0 - power;
  }

  lemma PowerStep(x: real, k: nat)
    ensures Power(x, k + 1) == x * Power(x, k)
  {
  }

  lemma {:induction false} PowerInUnit(x: real, k: nat)
    requires 0.0 <= x <= 1.0
    ensures 0.0 <= Power(x, k) <= 1.0
  {
    if k > 0 {
      PowerInUnit(x, k - 1);
      PowerStep(x, k - 1);
      hide Power;
      Shrinks(x, Power(x, k - 1));
    }
  }

  lemma {:induction false} PowerBounds(x: real, k: nat, more: nat)
    requires 0.0 <= x <= 1.0 && k <= more
    ensures 0.0 <= Power(x, more) <= Power(x, k) <= 1.0
    decreases more
  {
    hide Power;
    PowerInUnit(x, more);
    PowerInUnit(x, k);
    if k < more {
      PowerInUnit(x, more - 1);
      PowerStep(x, more - 1);
      Shrinks(x, Power(x, more - 1));
      PowerBounds(x, k, more - 1);
    }
  }

  lemma Shrinks(x: real, y: real)
    requires 0.0 <= x <= 1.0 && 0.0 <= y <= 1.0
    ensures 0.0 <= x * y <= y
  {
    Product(x, y);
    Product(1.0 - x, y);
    assert (1.0 - x) * y == y - x * y;
  }

  lemma Product(x: real, y: real)
    requires x >= 0.0 && y >= 0.0
    ensures x * y >= 0.0
  {
  }

  /** It is a probability, and it never falls as k grows. */
  lemma KPMonotone(n: nat, w: nat, r: nat, k: nat, more: nat)
    requires w <= n && r <= n && k <= more
    ensures 0.0 <= 1.0 - Power(Miss(n, w, r), k) <= 1.0 - Power(Miss(n, w, r), more) <= 1.0
  {
    PowerBounds(Miss(n, w, r), k, more);
  }

  lemma RatioZero(a: nat, b: nat)
    requires b > 0
    ensures a as real / b as real == 0.0 <==> a == 0
  {
    var p := a as real / b as real;
    assert p * b as real == a as real;
  }

  lemma MissZero(n: nat, w: nat, r: nat)
    requires w <= n && r <= n
    ensures Miss(n, w, r) == 0.0 <==> r + w > n
  {
    hide Choose, Missing, Binomial;
    MissingQuorums(n, w, r);
    ChooseCount(n - w, r);
    BinomialZero(n - w, r);
    MissBounds(n, w, r);
    RatioZero(|Missing(n, w, r)|, |Choose(n, r)|);
  }

  /** It is 1 exactly when the quorums must overlap. */
  lemma CertainIffOverlap(n: nat, w: nat, r: nat, k: nat)
    requires w <= n && r <= n && k >= 1
    ensures 1.0 - Power(Miss(n, w, r), k) == 1.0 <==> r + w > n
  {
    MissZero(n, w, r);
    PowerZero(Miss(n, w, r), k);
    hide Miss, Power;
  }

  lemma {:induction false} PowerZero(x: real, k: nat)
    requires k >= 1 && x >= 0.0
    ensures Power(x, k) == 0.0 <==> x == 0.0
  {
    if k == 1 {
      assert Power(x, 0) == 1.0;
    } else {
      PowerZero(x, k - 1);
      assert Power(x, k) == x * Power(x, k - 1);
    }
  }
}
