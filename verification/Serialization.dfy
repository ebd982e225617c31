/**
 The byte streams that are hashed into Merkle nodes (src/kvsrv/merkle.go:14-57, 204-251).

 Every writer is self-delimiting: a stream that starts with one encoded value cannot also start
 with another one. From this follows that a leaf stream determines the bucket's contents.
 */
module Serialization {
  import opened Base
  import opened VectorClock
  import opened Siblings
  import opened SiblingOrder

  const UINT64: nat := 0x1_0000_0000_0000_0000

  /** The `n` low bytes of `x`, least significant first. */
  function LittleEndian(x: nat, n: nat): (r: Str)
    ensures |r| == n
  {
    if n == 0 then [] else [x % 256] + LittleEndian(x / 256, n - 1)
  }

  function Uint64Bytes(x: nat): Str { LittleEndian(x, 8) }

  /** writeString and writeBytes: the length, then the contents. */
  function StringBytes(s: Str): Str { Uint64Bytes(|s|) + s }

  /** The bytes of "empty". */
  const EMPTY: Str := [101, 109, 112, 116, 121]

  // ----- the sorted listing of a set of names, as produced by sorting the keys of a map

  predicate StrictlySorted(s: seq<Str>) {
    forall i, j | 0 <= i < j < |s| :: Less(s[i], s[j])
  }

  function InsertName(s: seq<Str>, x: Str): seq<Str> {
    if s == [] || !Less(s[0], x) then [x] + s else [s[0]] + InsertName(s[1..], x)
  }

  /** Insertion of the elements one by one; stands for slices.Sort. */
  function SortNames(s: seq<Str>): seq<Str> {
    if s == [] then [] else InsertName(SortNames(s[1..]), s[0])
  }

  lemma {:induction false} InsertNameMembers(s: seq<Str>, x: Str)
    ensures multiset(InsertName(s, x)) == multiset(s) + multiset{x}
  {
    if s != [] {
      assert s == [s[0]] + s[1..];
      InsertNameMembers(s[1..], x);
    }
  }

  lemma StrictlySortedCons(x: Str, s: seq<Str>)
    requires StrictlySorted(s) && forall y | y in s :: Less(x, y)
    ensures StrictlySorted([x] + s)
  {
  }

  lemma {:induction false} InsertNameKeeps(s: seq<Str>, x: Str)
    requires StrictlySorted(s) && x !in s
    ensures StrictlySorted(InsertName(s, x))
    ensures multiset(InsertName(s, x)) == multiset(s) + multiset{x}
  {
    InsertNameMembers(s, x);
    if s != [] {
      LessTotal(s[0], x);
      if Less(s[0], x) {
        InsertNameKeeps(s[1..], x);
        var r := InsertName(s[1..], x);
        forall y | y in r ensures Less(s[0], y) {
          assert y in multiset(r);
          if y != x { var i :| 0 <= i < |s[1..]| && s[1..][i] == y; assert s[i + 1] == y; }
        }
        StrictlySortedCons(s[0], r);
      } else {
        forall y | y in s ensures Less(x, y) {
          if y != s[0] { LessTransitive(x, s[0], y); }
        }
        StrictlySortedCons(x, s);
      }
    }
  }

  lemma {:induction false} SortNamesSorts(s: seq<Str>)
    requires Distinct(s)
    ensures StrictlySorted(SortNames(s)) && multiset(SortNames(s)) == multiset(s)
  {
    if s != [] {
      assert s == [s[0]] + s[1..];
      SortNamesSorts(s[1..]);
      assert s[0] !in multiset(s[1..]);
      assert s[0] !in SortNames(s[1..]);
      InsertNameKeeps(SortNames(s[1..]), s[0]);
    }
  }

  lemma {:induction false} StrictlySortedUnique(s: seq<Str>, t: seq<Str>)
    requires StrictlySorted(s) && StrictlySorted(t) && Elements(s) == Elements(t)
    ensures s == t
  {
    if s != [] { assert s[0] in Elements(t); }
    if t != [] { assert t[0] in Elements(s); }
    if s != [] {
      LessTotal(s[0], t[0]);
      assert s[0] == t[0];
      assert s == [s[0]] + s[1..] && t == [t[0]] + t[1..];
      LessTotal(s[0], s[0]);
      assert Elements(s[1..]) == Elements(s) - {s[0]};
      assert Elements(t[1..]) == Elements(t) - {t[0]};
      StrictlySortedUnique(s[1..], t[1..]);
    }
  }

  lemma {:induction false} ListingExists(names: set<Str>)
    ensures exists l :: StrictlySorted(l) && Elements(l) == names
  {
    if names == {} {
      assert Elements<Str>([]) == {};
    } else {
      var x :| x in names;
      ListingExists(names - {x});
      var l :| StrictlySorted(l) && Elements(l) == names - {x};
      assert x !in Elements(l);
      InsertNameKeeps(l, x);
      forall y ensures y in InsertName(l, x) <==> y in names {
        assert y in InsertName(l, x) <==> y in multiset(InsertName(l, x));
        assert y in l <==> y in Elements(l);
      }
      assert Elements(InsertName(l, x)) == names;
    }
  }

  /** The names in increasing order. */
  ghost function Listing(names: set<Str>): (l: seq<Str>)
    ensures StrictlySorted(l) && Elements(l) == names
  {
    ListingExists(names);
    var l :| StrictlySorted(l) && Elements(l) == names;
    l
  }

  /** Sorting a list without repeats gives the listing of its elements. */
  lemma SortNamesListing(names: seq<Str>)
    requires Distinct(names)
    ensures SortNames(names) == Listing(Elements(names))
  {
    SortNamesSorts(names);
    forall x ensures x in SortNames(names) <==> x in names {
      assert x in SortNames(names) <==> x in multiset(SortNames(names));
      assert x in names <==> x in multiset(names);
    }
    StrictlySortedUnique(SortNames(names), Listing(Elements(names)));
  }

  // ----- the writers

  ghost function EntriesBytes(nodes: seq<Str>, vc: VClock): Str {
    if nodes == [] then []
    else StringBytes(nodes[0]) + Uint64Bytes(Version(vc, nodes[0])) + EntriesBytes(nodes[1..], vc)
  }

  /** writeObject: value, timestamp and clock; the value hash is not written. */
  ghost function ObjectBytes(o: Object): Str {
    StringBytes(o.value) + Uint64Bytes(Stamp(o)) + Uint64Bytes(|Clock(o)|)
    + EntriesBytes(Listing(Clock(o).Keys), Clock(o))
  }

  ghost function ObjectsBytes(s: seq<Object>): Str {
    if s == [] then [] else ObjectBytes(s[0]) + ObjectsBytes(s[1..])
  }

  /** writeKVPair. */
  ghost function PairBytes(key: Str, s: seq<Object>): Str {
    StringBytes(key) + Uint64Bytes(|s|) + ObjectsBytes(Canonical(s))
  }

  /** What a missing key of the snapshot reads as. */
  function SiblingsOf(kv: map<Str, seq<Object>>, key: Str): seq<Object> {
    if key in kv then kv[key] else []
  }

  ghost function PairsBytes(keys: seq<Str>, kv: map<Str, seq<Object>>): Str {
    if keys == [] then [] else PairBytes(keys[0], SiblingsOf(kv, keys[0])) + PairsBytes(keys[1..], kv)
  }

  /** The stream of a bucket that holds the keys, in sorted order. */
  ghost function LeafBytes(keys: seq<Str>, kv: map<Str, seq<Object>>): Str {
    Uint64Bytes(|keys|) + PairsBytes(keys, kv) + StringBytes(EMPTY) + StringBytes(EMPTY)
  }

  /** The stream of an internal node; `right` is None for the last node of an odd level. */
  function InternalBytes(left: Str, right: Option<Str>): Str {
    StringBytes(left) + StringBytes(if right.Some? then right.value else EMPTY)
  }

  /** What of an object its stream records. */
  function WithoutETag(o: Object): Object {
    o.(context := o.context.(etag := []))
  }

  /** The Go types' own ranges: 64-bit counters and lengths. */
  predicate Fits(o: Object) {
    && |o.value| < UINT64 && Stamp(o) < UINT64 && |Clock(o)| < UINT64
    && forall n | n in Clock(o) :: |n| < UINT64 && Clock(o)[n] < UINT64
  }

  predicate AllFit(s: seq<Object>) {
    |s| < UINT64 && forall i | 0 <= i < |s| :: Fits(s[i])
  }

  predicate BucketFits(keys: seq<Str>, kv: map<Str, seq<Object>>) {
    |keys| < UINT64 && forall i | 0 <= i < |keys| :: |keys[i]| < UINT64 && AllFit(SiblingsOf(kv, keys[i]))
  }

  // ----- self-delimiting writers

  function Pow256(n: nat): nat { if n == 0 then 1 else 256 * Pow256(n - 1) }

  lemma {:induction false} LittleEndianInjective(x: nat, y: nat, n: nat)
    requires x < Pow256(n) && y < Pow256(n) && LittleEndian(x, n) == LittleEndian(y, n)
    ensures x == y
  {
    if n > 0 {
      var a, b := LittleEndian(x, n), LittleEndian(y, n);
      assert x % 256 == a[0] && y % 256 == b[0];
      assert a[1..] == LittleEndian(x / 256, n - 1) && b[1..] == LittleEndian(y / 256, n - 1);
      LittleEndianInjective(x / 256, y / 256, n - 1);
    }
  }

  lemma SplitAt(p: Str, a: Str, q: Str, b: Str)
    requires |p| == |q| && p + a == q + b
    ensures p == q && a == b
  {
    assert p == (p + a)[..|p|] && q == (q + b)[..|q|];
    assert a == (p + a)[|p|..] && b == (q + b)[|q|..];
  }

  lemma Regroup(a: Str, b: Str, c: Str, d: Str, e: Str)
    ensures a + b + c == a + (b + c)
    ensures a + b + c + d == a + (b + (c + d))
    ensures a + b + c + d + e == a + (b + (c + (d + e)))
  {
  }

  lemma Uint64Delimits(x: nat, a: Str, y: nat, b: Str)
    requires x < UINT64 && y < UINT64 && Uint64Bytes(x) + a == Uint64Bytes(y) + b
    ensures x == y && a == b
  {
    SplitAt(Uint64Bytes(x), a, Uint64Bytes(y), b);
    assert Pow256(8) == UINT64;
    LittleEndianInjective(x, y, 8);
  }

  lemma StringDelimits(s: Str, a: Str, t: Str, b: Str)
    requires |s| < UINT64 && |t| < UINT64 && StringBytes(s) + a == StringBytes(t) + b
    ensures s == t && a == b
  {
    Regroup(Uint64Bytes(|s|), s, a, [], []);
    Regroup(Uint64Bytes(|t|), t, b, [], []);
    Uint64Delimits(|s|, s + a, |t|, t + b);
    SplitAt(s, a, t, b);
  }

  lemma {:induction false} EntriesDelimit(ns: seq<Str>, v: VClock, a: Str, ms: seq<Str>, w: VClock, b: Str)
    requires |ns| == |ms| && EntriesBytes(ns, v) + a == EntriesBytes(ms, w) + b
    requires forall i | 0 <= i < |ns| :: |ns[i]| < UINT64 && Version(v, ns[i]) < UINT64
    requires forall i | 0 <= i < |ms| :: |ms[i]| < UINT64 && Version(w, ms[i]) < UINT64
    ensures ns == ms && a == b && forall i | 0 <= i < |ns| :: Version(v, ns[i]) == Version(w, ns[i])
  {
    if ns == [] {
      assert [] + a == a && [] + b == b;
    } else {
      var n, m := ns[0], ms[0];
      var restN, restM := EntriesBytes(ns[1..], v) + a, EntriesBytes(ms[1..], w) + b;
      Regroup(StringBytes(n), Uint64Bytes(Version(v, n)), EntriesBytes(ns[1..], v), a, []);
      Regroup(StringBytes(m), Uint64Bytes(Version(w, m)), EntriesBytes(ms[1..], w), b, []);
      StringDelimits(n, Uint64Bytes(Version(v, n)) + restN, m, Uint64Bytes(Version(w, m)) + restM);
      Uint64Delimits(Version(v, n), restN, Version(w, m), restM);
      EntriesDelimit(ns[1..], v, a, ms[1..], w, b);
      assert ns == [n] + ns[1..] && ms == [m] + ms[1..];
    }
  }

  lemma ClockDelimits(v: VClock, a: Str, w: VClock, b: Str)
    requires |v| < UINT64 && |w| < UINT64
    requires forall n | n in v :: |n| < UINT64 && v[n] < UINT64
    requires forall n | n in w :: |n| < UINT64 && w[n] < UINT64
    requires Uint64Bytes(|v|) + (EntriesBytes(Listing(v.Keys), v) + a) == Uint64Bytes(|w|) + (EntriesBytes(Listing(w.Keys), w) + b)
    ensures v == w && a == b
  {
    var ns, ms := Listing(v.Keys), Listing(w.Keys);
    Uint64Delimits(|v|, EntriesBytes(ns, v) + a, |w|, EntriesBytes(ms, w) + b);
    ListingLength(v.Keys);
    ListingLength(w.Keys);
    assert forall i | 0 <= i < |ns| :: ns[i] in Elements(ns);
    assert forall i | 0 <= i < |ms| :: ms[i] in Elements(ms);
    EntriesDelimit(ns, v, a, ms, w, b);
    ClockFromEntries(v, w);
  }

  lemma ClockFromEntries(v: VClock, w: VClock)
    requires Listing(v.Keys) == Listing(w.Keys)
    requires forall i | 0 <= i < |Listing(v.Keys)| :: Version(v, Listing(v.Keys)[i]) == Version(w, Listing(v.Keys)[i])
    ensures v == w
  {
    var ns := Listing(v.Keys);
    assert v.Keys == w.Keys == Elements(ns);
    forall n | n in v ensures v[n] == w[n] {
      assert n in Elements(ns);
      var i :| 0 <= i < |ns| && ns[i] == n;
      assert Version(v, ns[i]) == Version(w, ns[i]);
    }
  }

  lemma ListingLength(names: set<Str>)
    ensures |Listing(names)| == |names|
  {
    var l := Listing(names);
    forall i, j | 0 <= i < j < |l| ensures l[i] != l[j] { LessTotal(l[i], l[j]); }
    DistinctCount(l);
  }

  lemma ObjectDelimits(o: Object, a: Str, p: Object, b: Str)
    requires Fits(o) && Fits(p) && ObjectBytes(o) + a == ObjectBytes(p) + b
    ensures WithoutETag(o) == WithoutETag(p) && a == b
  {
    var eo, ep := EntriesBytes(Listing(Clock(o).Keys), Clock(o)) + a, EntriesBytes(Listing(Clock(p).Keys), Clock(p)) + b;
    var co, cp := Uint64Bytes(|Clock(o)|) + eo, Uint64Bytes(|Clock(p)|) + ep;
    Regroup(StringBytes(o.value), Uint64Bytes(Stamp(o)), Uint64Bytes(|Clock(o)|), EntriesBytes(Listing(Clock(o).Keys), Clock(o)), a);
    Regroup(StringBytes(p.value), Uint64Bytes(Stamp(p)), Uint64Bytes(|Clock(p)|), EntriesBytes(Listing(Clock(p).Keys), Clock(p)), b);
    StringDelimits(o.value, Uint64Bytes(Stamp(o)) + co, p.value, Uint64Bytes(Stamp(p)) + cp);
    Uint64Delimits(Stamp(o), co, Stamp(p), cp);
    ClockDelimits(Clock(o), a, Clock(p), b);
  }

  /** The two lists agree in everything that is written. */
  predicate SameWire(s: seq<Object>, t: seq<Object>) {
    |s| == |t| && forall i | 0 <= i < |s| :: WithoutETag(s[i]) == WithoutETag(t[i])
  }

  lemma {:induction false} ObjectsDelimit(s: seq<Object>, a: Str, t: seq<Object>, b: Str)
    requires |s| == |t| && AllFit(s) && AllFit(t) && ObjectsBytes(s) + a == ObjectsBytes(t) + b
    ensures SameWire(s, t) && a == b
  {
    hide Fits, ObjectBytes, WithoutETag, SameWire;
    if s == [] {
      assert [] + a == a && [] + b == b;
      SameWireEmpty();
    } else {
      var x, y := ObjectsBytes(s[1..]) + a, ObjectsBytes(t[1..]) + b;
      Regroup(ObjectBytes(s[0]), ObjectsBytes(s[1..]), a, [], []);
      Regroup(ObjectBytes(t[0]), ObjectsBytes(t[1..]), b, [], []);
      ObjectDelimits(s[0], x, t[0], y);
      ObjectsDelimit(s[1..], a, t[1..], b);
      SameWireCons(s, t);
    }
  }

  lemma SameWireEmpty()
    ensures SameWire([], [])
  {
  }

  lemma SameWireCons(s: seq<Object>, t: seq<Object>)
    requires s != [] && t != [] && WithoutETag(s[0]) == WithoutETag(t[0]) && SameWire(s[1..], t[1..])
    ensures SameWire(s, t)
  {
    forall i | 0 <= i < |s| ensures WithoutETag(s[i]) == WithoutETag(t[i]) {
      if i > 0 { assert s[i] == s[1..][i - 1] && t[i] == t[1..][i - 1]; }
    }
  }

  lemma CanonicalFits(s: seq<Object>)
    requires AllFit(s)
    ensures AllFit(Canonical(s))
  {
    CanonicalPermutes(s);
    forall i | 0 <= i < |Canonical(s)| ensures Fits(Canonical(s)[i]) {
      assert Canonical(s)[i] in multiset(s);
    }
  }

  lemma PairDelimits(k: Str, s: seq<Object>, a: Str, l: Str, t: seq<Object>, b: Str)
    requires |k| < UINT64 && |l| < UINT64 && AllFit(s) && AllFit(t) && PairBytes(k, s) + a == PairBytes(l, t) + b
    ensures k == l && SameWire(Canonical(s), Canonical(t)) && a == b
  {
    var x, y := ObjectsBytes(Canonical(s)) + a, ObjectsBytes(Canonical(t)) + b;
    Regroup(StringBytes(k), Uint64Bytes(|s|), ObjectsBytes(Canonical(s)), a, []);
    Regroup(StringBytes(l), Uint64Bytes(|t|), ObjectsBytes(Canonical(t)), b, []);
    StringDelimits(k, Uint64Bytes(|s|) + x, l, Uint64Bytes(|t|) + y);
    Uint64Delimits(|s|, x, |t|, y);
    CanonicalFits(s);
    CanonicalFits(t);
    ObjectsDelimit(Canonical(s), a, Canonical(t), b);
  }

  /** Per listed key, the two stores write the same objects. */
  predicate SameContents(ks: seq<Str>, kv: map<Str, seq<Object>>, lv: map<Str, seq<Object>>) {
    forall k | k in ks :: SameWire(Canonical(SiblingsOf(kv, k)), Canonical(SiblingsOf(lv, k)))
  }

  lemma BucketHeads(ks: seq<Str>, kv: map<Str, seq<Object>>)
    requires BucketFits(ks, kv)
    ensures ks != [] ==> |ks[0]| < UINT64 && AllFit(SiblingsOf(kv, ks[0]))
  {
  }

  lemma BucketFitsTail(ks: seq<Str>, kv: map<Str, seq<Object>>)
    requires ks != [] && BucketFits(ks, kv)
    ensures BucketFits(ks[1..], kv)
  {
  }

  lemma PairsUnfold(ks: seq<Str>, kv: map<Str, seq<Object>>, a: Str)
    requires ks != []
    ensures PairsBytes(ks, kv) + a == PairBytes(ks[0], SiblingsOf(kv, ks[0])) + (PairsBytes(ks[1..], kv) + a)
  {
    Regroup(PairBytes(ks[0], SiblingsOf(kv, ks[0])), PairsBytes(ks[1..], kv), a, [], []);
  }

  lemma {:induction false} PairsDelimit(ks: seq<Str>, kv: map<Str, seq<Object>>, a: Str, ls: seq<Str>, lv: map<Str, seq<Object>>, b: Str)
    requires |ks| == |ls| && BucketFits(ks, kv) && BucketFits(ls, lv) && PairsBytes(ks, kv) + a == PairsBytes(ls, lv) + b
    ensures ks == ls && a == b && SameContents(ks, kv, lv)
  {
    BucketHeads(ks, kv);
    BucketHeads(ls, lv);
    hide BucketFits, PairBytes, AllFit, SameWire, Canonical;
    if ks == [] {
      assert [] + a == a && [] + b == b;
    } else {
      var x, y := PairsBytes(ks[1..], kv) + a, PairsBytes(ls[1..], lv) + b;
      PairsUnfold(ks, kv, a);
      PairsUnfold(ls, lv, b);
      hide PairsBytes;
      PairDelimits(ks[0], SiblingsOf(kv, ks[0]), x, ls[0], SiblingsOf(lv, ls[0]), y);
      BucketFitsTail(ks, kv);
      BucketFitsTail(ls, lv);
      PairsDelimit(ks[1..], kv, a, ls[1..], lv, b);
      assert ks == [ks[0]] + ks[1..] && ls == [ls[0]] + ls[1..];
    }
  }

  /** Equal leaf streams: equal key lists and, per key, equal values, timestamps and clocks in canonical order. */
  lemma LeafBytesDecodable(ks: seq<Str>, kv: map<Str, seq<Object>>, ls: seq<Str>, lv: map<Str, seq<Object>>)
    requires BucketFits(ks, kv) && BucketFits(ls, lv) && LeafBytes(ks, kv) == LeafBytes(ls, lv)
    ensures ks == ls && SameContents(ks, kv, lv)
  {
    var e := StringBytes(EMPTY) + StringBytes(EMPTY);
    Regroup(Uint64Bytes(|ks|), PairsBytes(ks, kv), StringBytes(EMPTY), StringBytes(EMPTY), []);
    Regroup(Uint64Bytes(|ls|), PairsBytes(ls, lv), StringBytes(EMPTY), StringBytes(EMPTY), []);
    Uint64Delimits(|ks|, PairsBytes(ks, kv) + e, |ls|, PairsBytes(ls, lv) + e);
    PairsDelimit(ks, kv, e, ls, lv, e);
  }

  lemma {:induction false} PairsAreLong(ks: seq<Str>, kv: map<Str, seq<Object>>)
    ensures |PairsBytes(ks, kv)| >= 16 * |ks|
  {
    if ks != [] { PairsAreLong(ks[1..], kv); }
  }

  /** A leaf stream is never an internal node's stream, not even when its key count equals a digest's length. */
  lemma LeafIsNotInternal(ks: seq<Str>, kv: map<Str, seq<Object>>, left: Str, right: Option<Str>)
    requires |ks| < UINT64 && |left| == 32 && (right.Some? ==> |right.value| == 32)
    ensures LeafBytes(ks, kv) != InternalBytes(left, right)
  {
    if LeafBytes(ks, kv) == InternalBytes(left, right) {
      var e := PairsBytes(ks, kv) + (StringBytes(EMPTY) + StringBytes(EMPTY));
      var f := left + StringBytes(if right.Some? then right.value else EMPTY);
      Regroup(Uint64Bytes(|ks|), PairsBytes(ks, kv), StringBytes(EMPTY), StringBytes(EMPTY), []);
      Regroup(Uint64Bytes(32), left, StringBytes(if right.Some? then right.value else EMPTY), [], []);
      Uint64Delimits(|ks|, e, 32, f);
      PairsAreLong(ks, kv);
      assert false;
    }
  }

  lemma InternalBytesDecodable(l: Str, r: Option<Str>, l': Str, r': Option<Str>)
    requires |l| == |l'| == 32 && (r.Some? ==> |r.value| == 32) && (r'.Some? ==> |r'.value| == 32)
    requires InternalBytes(l, r) == InternalBytes(l', r')
    ensures l == l' && r == r'
  {
    var x := if r.Some? then r.value else EMPTY;
    var y := if r'.Some? then r'.value else EMPTY;
    StringDelimits(l, StringBytes(x), l', StringBytes(y));
    assert StringBytes(x) + [] == StringBytes(x) && StringBytes(y) + [] == StringBytes(y);
    StringDelimits(x, [], y, []);
  }
}
