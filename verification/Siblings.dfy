/**
 Versioned objects and sibling lists (src/kvsrv/rpc/context.go, src/kvsrv/rpc/object.go).

 A key holds a list of siblings. What the list knows is its cover: the clocks that are at or
 before some sibling. Adding an object adds exactly its own clock to the cover, and an antichain
 is determined, up to equal clocks, by its cover.
 */
module Siblings {
  import opened Base
  import opened VectorClock

  datatype Context = Context(vc: VClock, timestamp: nat, etag: Str)

  datatype Object = Object(value: Str, context: Context)

  /** The empty key: no clock entry and no value hash. */
  predicate IsInitialContext(c: Context) {
    IsZero(c.vc) && c.etag == []
  }

  /** Context.IsEqual: equal clocks, timestamps and value hashes. */
  predicate SameContext(a: Context, b: Context) {
    SameClock(a.vc, b.vc) && a.timestamp == b.timestamp && a.etag == b.etag
  }

  /** Context.Update on a copied clock; `etag` is the hash of the new value, `now` the time. */
  function Updated(c: Context, node: Str, now: nat, etag: Str): Context {
    Context(Increment(c.vc, node), now, etag)
  }

  function Clock(o: Object): VClock { o.context.vc }

  function Stamp(o: Object): nat { o.context.timestamp }

  /** Object.CanBeAddedTo: the object is neither equal to nor before any of the others. */
  predicate CanBeAdded(o: Object, others: seq<Object>) {
    forall i | 0 <= i < |others| :: !Leq(Clock(o), Clock(others[i]))
  }

  /** Some sibling is at or after the clock. */
  predicate Covers(s: seq<Object>, v: VClock) {
    exists i | 0 <= i < |s| :: Leq(v, Clock(s[i]))
  }

  predicate Antichain(s: seq<Object>) {
    forall i, j | 0 <= i < |s| && 0 <= j < |s| && i != j :: !Leq(Clock(s[i]), Clock(s[j]))
  }

  predicate SortedByTime(s: seq<Object>) {
    forall i, j | 0 <= i < j < |s| :: Stamp(s[i]) <= Stamp(s[j])
  }

  /** What AddObject's loop appends for one sibling, and its new `added` flag. */
  function AddStep(h: Object, c: Object, added: bool): (seq<Object>, bool) {
    match Cmp(Clock(c), Clock(h))
    case After => ([], added)
    case Equal => ([h], true)
    case Before => if added then ([h], true) else ([c, h], true)
    case Concurrent => if !added && Stamp(c) < Stamp(h) then ([c, h], true) else ([h], added)
  }

  /** What the loop still appends, given the siblings not yet visited. */
  function AddFrom(s: seq<Object>, c: Object, added: bool): seq<Object> {
    if s == [] then (if added then [] else [c])
    else
      var step := AddStep(s[0], c, added);
      step.0 + AddFrom(s[1..], c, step.1)
  }

  function Add(s: seq<Object>, c: Object): seq<Object> { AddFrom(s, c, false) }

  /** The guarded step shared by merges, coordinator reads and read repair. */
  function AddIfNew(s: seq<Object>, c: Object): seq<Object> {
    if CanBeAdded(c, s) then Add(s, c) else s
  }

  /** Fold of the guarded step over incoming objects, first to last. */
  function Merge(s: seq<Object>, incoming: seq<Object>): seq<Object>
    decreases incoming
  {
    if incoming == [] then s else Merge(AddIfNew(s, incoming[0]), incoming[1..])
  }

  // ----- the loops of object.go, proved against the functions above

  method CanBeAddedTo(o: Object, others: seq<Object>) returns (r: bool)
    ensures r == CanBeAdded(o, others)
  {
    for i := 0 to |others|
      invariant forall k | 0 <= k < i :: !Leq(Clock(o), Clock(others[k]))
    {
      var cmp := VectorClock.Compare(Clock(o), Clock(others[i]));
      if cmp == Before || cmp == Equal { return false; }
    }
    return true;
  }

  lemma AddFromUnfold(s: seq<Object>, i: nat, c: Object, added: bool, kept: seq<Object>)
    requires i < |s|
    ensures kept + AddFrom(s[i..], c, added)
         == kept + AddStep(s[i], c, added).0 + AddFrom(s[i + 1..], c, AddStep(s[i], c, added).1)
  {
    assert s[i..][1..] == s[i + 1..];
  }

  method AddObject(siblings: seq<Object>, candidate: Object) returns (kept: seq<Object>)
    ensures kept == Add(siblings, candidate)
  {
    kept := [];
    var added := false;
    for i := 0 to |siblings|
      invariant kept + AddFrom(siblings[i..], candidate, added) == Add(siblings, candidate)
    {
      var sibling := siblings[i];
      var cmp := VectorClock.Compare(Clock(candidate), Clock(sibling));
      ghost var kept0, step := kept, AddStep(sibling, candidate, added);
      AddFromUnfold(siblings, i, candidate, added, kept);
      if cmp == After {
      } else if cmp == Equal {
        kept := kept + [sibling];
        added := true;
      } else {
        if !added && (cmp == Before || (cmp == Concurrent && Stamp(candidate) < Stamp(sibling))) {
          kept := kept + [candidate];
          added := true;
        }
        kept := kept + [sibling];
      }
      assert kept == kept0 + step.0 && added == step.1;
    }
    if !added {
      kept := kept + [candidate];
    }
  }

  // ----- one addition

  lemma CoversMember(s: seq<Object>, o: Object)
    requires o in s
    ensures Covers(s, Clock(o))
  {
    var i :| 0 <= i < |s| && s[i] == o;
    assert Leq(Clock(o), Clock(s[i]));
  }

  lemma CoversConcat(a: seq<Object>, b: seq<Object>, v: VClock)
    ensures Covers(a + b, v) <==> Covers(a, v) || Covers(b, v)
  {
    if Covers(a, v) {
      var i :| 0 <= i < |a| && Leq(v, Clock(a[i]));
      assert (a + b)[i] == a[i];
    }
    if Covers(b, v) {
      var i :| 0 <= i < |b| && Leq(v, Clock(b[i]));
      assert (a + b)[|a| + i] == b[i];
    }
  }

  lemma CoversDown(s: seq<Object>, u: VClock, v: VClock)
    requires Covers(s, v) && Leq(u, v)
    ensures Covers(s, u)
  {
    var i :| 0 <= i < |s| && Leq(v, Clock(s[i]));
    LeqTransitive(u, v, Clock(s[i]));
  }

  /** AddObject loses no covered clock and invents none, whatever the candidate is. */
  lemma {:induction false} AddFromCovers(s: seq<Object>, c: Object, added: bool, v: VClock)
    ensures Covers(AddFrom(s, c, added), v) ==> Covers(s, v) || Leq(v, Clock(c))
    ensures Covers(s, v) ==> Covers(AddFrom(s, c, added), v) || Leq(v, Clock(c))
    ensures !added && Leq(v, Clock(c)) ==> Covers(AddFrom(s, c, added), v)
  {
    CoversOne(c, v);
    if s != [] {
      var h := s[0];
      var step := AddStep(h, c, added);
      assert s == [h] + s[1..];
      CoversOne(h, v);
      CoversConcat([h], s[1..], v);
      AddFromCovers(s[1..], c, step.1, v);
      CoversConcat(step.0, AddFrom(s[1..], c, step.1), v);
      assert [c, h] == [c] + [h];
      CoversConcat([c], [h], v);
      if Leq(v, Clock(h)) && Leq(Clock(h), Clock(c)) { LeqTransitive(v, Clock(h), Clock(c)); }
      if Leq(v, Clock(c)) && Leq(Clock(c), Clock(h)) { LeqTransitive(v, Clock(c), Clock(h)); }
    }
  }

  lemma CoversOne(o: Object, v: VClock)
    ensures Covers([o], v) <==> Leq(v, Clock(o))
  {
    if Leq(v, Clock(o)) { assert Leq(v, Clock([o][0])); }
  }

  lemma AddCovers(s: seq<Object>, c: Object, v: VClock)
    ensures Covers(Add(s, c), v) <==> Covers(s, v) || Leq(v, Clock(c))
  {
    AddFromCovers(s, c, false, v);
  }

  /** The siblings that a new object does not supersede. */
  function Survivors(s: seq<Object>, c: Object): seq<Object> {
    if s == [] then []
    else (if Leq(Clock(s[0]), Clock(c)) then [] else [s[0]]) + Survivors(s[1..], c)
  }

  lemma {:induction false} SurvivorsMembers(s: seq<Object>, c: Object, x: Object)
    ensures x in Survivors(s, c) <==> x in s && !Leq(Clock(x), Clock(c))
  {
    if s != [] {
      assert s == [s[0]] + s[1..];
      SurvivorsMembers(s[1..], c, x);
    }
  }

  lemma {:induction false} SurvivorsAntichain(s: seq<Object>, c: Object)
    requires Antichain(s)
    ensures Antichain(Survivors(s, c))
  {
    if s != [] {
      var h, t := s[0], s[1..];
      SurvivorsAntichain(t, c);
      forall x | x in Survivors(t, c) ensures !Leq(Clock(h), Clock(x)) && !Leq(Clock(x), Clock(h)) {
        SurvivorsMembers(t, c, x);
        var i :| 0 <= i < |t| && t[i] == x;
        assert s[i + 1] == x && s[0] == h;
      }
      AntichainCons(h, Survivors(t, c));
    }
  }

  lemma {:induction false} SurvivorsSorted(s: seq<Object>, c: Object)
    requires SortedByTime(s)
    ensures SortedByTime(Survivors(s, c))
  {
    if s != [] {
      var h, t := s[0], s[1..];
      SurvivorsSorted(t, c);
      forall x | x in Survivors(t, c) ensures Stamp(h) <= Stamp(x) {
        SurvivorsMembers(t, c, x);
        var i :| 0 <= i < |t| && t[i] == x;
        assert s[i + 1] == x && s[0] == h;
      }
    }
  }

  lemma AntichainCons(h: Object, t: seq<Object>)
    requires Antichain(t)
    requires forall x | x in t :: !Leq(Clock(h), Clock(x)) && !Leq(Clock(x), Clock(h))
    ensures Antichain([h] + t)
  {
    var s := [h] + t;
    forall i, j | 0 <= i < |s| && 0 <= j < |s| && i != j ensures !Leq(Clock(s[i]), Clock(s[j])) {
      if i > 0 && j > 0 { assert s[i] == t[i - 1] && s[j] == t[j - 1]; }
      else if i == 0 { assert s[j] == t[j - 1]; }
      else { assert s[i] == t[i - 1]; }
    }
  }

  lemma AddFromHead(s: seq<Object>, c: Object, added: bool)
    requires s != [] && !Leq(Clock(c), Clock(s[0]))
    ensures AddFrom(s, c, added) ==
      if Leq(Clock(s[0]), Clock(c)) then AddFrom(s[1..], c, added)
      else if !added && Stamp(c) < Stamp(s[0]) then [c, s[0]] + AddFrom(s[1..], c, true)
      else [s[0]] + AddFrom(s[1..], c, added)
  {
    hide Leq;
  }

  /** Behind the objects that are not younger, in front of the rest. */
  function InsertByTime(k: seq<Object>, c: Object): seq<Object> {
    if k == [] || Stamp(c) < Stamp(k[0]) then [c] + k else [k[0]] + InsertByTime(k[1..], c)
  }

  /** On an addable object, AddObject drops what the object supersedes and inserts it by time. */
  lemma {:induction false} AddIsInsert(s: seq<Object>, c: Object)
    requires CanBeAdded(c, s)
    ensures AddFrom(s, c, true) == Survivors(s, c)
    ensures Add(s, c) == InsertByTime(Survivors(s, c), c)
  {
    if s != [] {
      AddIsInsert(s[1..], c);
      AddFromHead(s, c, true);
      AddFromHead(s, c, false);
      hide Leq, AddFrom;
      assert !Leq(Clock(s[0]), Clock(c)) ==> Survivors(s, c)[1..] == Survivors(s[1..], c);
    }
  }

  lemma {:induction false} InsertMembers(k: seq<Object>, c: Object, x: Object)
    ensures x in InsertByTime(k, c) <==> x == c || x in k
  {
    if k != [] {
      assert k == [k[0]] + k[1..];
      InsertMembers(k[1..], c, x);
    }
  }

  lemma {:induction false} InsertAntichain(k: seq<Object>, c: Object)
    requires Antichain(k)
    requires forall x | x in k :: !Leq(Clock(c), Clock(x)) && !Leq(Clock(x), Clock(c))
    ensures Antichain(InsertByTime(k, c))
  {
    hide Leq;
    if k == [] || Stamp(c) < Stamp(k[0]) {
      AntichainCons(c, k);
    } else {
      InsertAntichain(k[1..], c);
      forall x | x in InsertByTime(k[1..], c) ensures !Leq(Clock(k[0]), Clock(x)) && !Leq(Clock(x), Clock(k[0])) {
        InsertMembers(k[1..], c, x);
        if x in k[1..] {
          var i :| 0 <= i < |k[1..]| && k[1..][i] == x;
          assert k[i + 1] == x;
        }
      }
      AntichainCons(k[0], InsertByTime(k[1..], c));
    }
  }

  lemma {:induction false} InsertSorted(k: seq<Object>, c: Object)
    requires SortedByTime(k)
    ensures SortedByTime(InsertByTime(k, c))
  {
    if k != [] && Stamp(k[0]) <= Stamp(c) {
      InsertSorted(k[1..], c);
      forall x | x in InsertByTime(k[1..], c) ensures Stamp(k[0]) <= Stamp(x) {
        InsertMembers(k[1..], c, x);
      }
    }
  }

  /** The candidate replaces exactly the siblings it supersedes. */
  lemma AddMembers(s: seq<Object>, c: Object, x: Object)
    requires CanBeAdded(c, s)
    ensures x in Add(s, c) <==> x == c || (x in s && !Leq(Clock(x), Clock(c)))
  {
    AddIsInsert(s, c);
    InsertMembers(Survivors(s, c), c, x);
    SurvivorsMembers(s, c, x);
  }

  /** An addable object keeps a timestamp-sorted antichain one. */
  lemma AddKeeps(s: seq<Object>, c: Object)
    requires CanBeAdded(c, s)
    ensures Antichain(s) ==> Antichain(Add(s, c))
    ensures SortedByTime(s) ==> SortedByTime(Add(s, c))
  {
    var k := Survivors(s, c);
    AddIsInsert(s, c);
    if Antichain(s) {
      SurvivorsAntichain(s, c);
      forall x | x in k ensures !Leq(Clock(c), Clock(x)) && !Leq(Clock(x), Clock(c)) {
        SurvivorsMembers(s, c, x);
      }
      InsertAntichain(k, c);
    }
    if SortedByTime(s) {
      SurvivorsSorted(s, c);
      InsertSorted(k, c);
    }
  }
}
