/**
 What becomes of hints (src/kvsrv/hinted_handoff.go:42-61, 99-116): a replay that the target accepts takes one away, a
 hint whose base the target's store already covers is never taken away again, and so exactly when a hint can still go.
 */
module HintReplay {
  import opened Base
  import opened VectorClock
  import opened Siblings
  import opened RingState
  import opened Replica
  import opened Membership
  import opened Coordinator
  import opened Cluster
  import opened ClusterInvariant
  import opened ClusterSteps
  import opened LaterReads

  function HintsAt(s: State, holder: Str, target: Str): seq<PutArgs> {
    if holder in s.servers then HintsFor(s.servers[holder], target) else []
  }

  /** An acknowledged replay takes one equivalent hint away, in place; every other hint and every store stays. */
  lemma AcknowledgedReplay(c: Config, s: State, id: nat)
    requires Enabled(c, s, FinishReplay(id, true)) && s.replays[id].executed == Some(OK)
    requires HasHint(HintsAt(s, s.replays[id].holder, s.replays[id].target), s.replays[id].hint)
    ensures var r, t := s.replays[id], Next(c, s, FinishReplay(id, true));
      && t.servers.Keys == s.servers.Keys
      && FirstDropped(s.servers[r.holder], r.target, r.hint, t.servers[r.holder])
      && |HintsAt(t, r.holder, r.target)| == |HintsAt(s, r.holder, r.target)| - 1
      && forall x | x in s.servers && x != r.holder :: t.servers[x] == s.servers[x]
  {
    var r := s.replays[id];
    UnhintedExactly(s.servers[r.holder], r.target, r.hint);
    hide Unhinted, HasHint;
  }

  // ----- a hint that goes

  /** One replay from its start to the target's acceptance. */
  lemma ReplayAccepted(c: Config, s: State, id: nat, holder: Str, target: Str, hint: PutArgs) returns (run: seq<Step>, t: State)
    requires holder in s.servers && target in s.servers && hint in HintsAt(s, holder, target) && id !in s.replays
    requires Put(Place(c), s.servers[target], hint).1 == OK
    ensures Leads(c, s, run, t) && |run| == 2 && t.replays == s.replays[id := Replay(holder, target, hint, Some(OK), false)]
    ensures t.servers == s.servers[target := Put(Place(c), s.servers[target], hint).0]
  {
    hide Put, Leads, Prefs, PlansFor;
    var begin, execute := BeginReplay(id, holder, target, hint), ExecuteReplay(id);
    var s1 := Next(c, s, begin);
    LeadsOneStep(c, s, begin);
    t := Next(c, s1, execute);
    LeadsOneStep(c, s1, execute);
    LeadsThrough(c, s, [begin], s1, [execute], t);
    run := [begin] + [execute];
  }

  /** A hint whose write the target would accept goes with the three steps of one replay. */
  lemma AcceptedHintGoes(c: Config, s: State, holder: Str, target: Str, hint: PutArgs) returns (run: seq<Step>, t: State)
    requires holder in s.servers && target in s.servers && hint in HintsAt(s, holder, target)
    requires !Covers(Stored(s.servers[target], hint.key), hint.base.vc)
    requires hint.key in s.servers[target].kv || NothingKnown(hint.base)
    ensures Leads(c, s, run, t) && |run| == 3 && |HintsAt(t, holder, target)| == |HintsAt(s, holder, target)| - 1
    ensures WithoutFirst(HintsAt(s, holder, target), hint, HintsAt(t, holder, target))
  {
    hide Put, NothingKnown, Covers, Leads, IsRun, Reach, Prefs, PlansFor, SameHint, WithoutFirst, Unhinted;
    var id := FreshReplay(s.replays.Keys);
    PutExactly(Place(c), s.servers[target], hint);
    PutKeepsHints(c, s.servers[target], hint);
    var first, s2 := ReplayAccepted(c, s, id, holder, target, hint);
    SameHintSelf(hint);
    assert HintsAt(s2, holder, target) == HintsAt(s, holder, target);
    assert HasHint(HintsAt(s2, holder, target), hint);
    var finish := FinishReplay(id, true);
    t := Next(c, s2, finish);
    AcknowledgedReplay(c, s2, id);
    LeadsOneStep(c, s2, finish);
    LeadsThrough(c, s, first, s2, [finish], t);
    run := first + [finish];
  }

  lemma PutKeepsHints(c: Config, s: Server, args: PutArgs)
    ensures Put(Place(c), s, args).0.hints == s.hints
  {
    PutExactly(Place(c), s, args);
  }

  lemma FreshReplay(used: set<nat>) returns (id: nat)
    ensures id !in used
  {
    if forall n: nat | n < |used| + 1 :: n in used { SubsetCount(Below(|used| + 1), used); }
    id :| id < |used| + 1 && id !in used;
  }

  // ----- a hint that stays

  /** A replay of an equivalent hint from this holder was accepted, and its answer may still come. */
  predicate Pending(r: Replay, holder: Str, target: Str, hint: PutArgs) {
    !r.finished && r.holder == holder && r.target == target && SameHint(r.hint, hint) && r.executed == Some(OK)
  }

  ghost predicate NonePending(s: State, holder: Str, target: Str, hint: PutArgs) {
    forall id | id in s.replays :: !Pending(s.replays[id], holder, target, hint)
  }

  /** A base without versions but with a value hash: no replica accepts it for a key it does not have. */
  predicate Odd(base: Context) { IsZero(base.vc) && base.etag != [] }

  /** The target rejects the hint, and will go on doing so: it covers the base, or the base is odd and the key missing. */
  predicate Blocked(servers: Servers, target: Str, hint: PutArgs) {
    target in servers
    && (Covers(Stored(servers[target], hint.key), hint.base.vc) || (hint.key !in servers[target].kv && Odd(hint.base)))
  }

  /** The hint is kept, blocked, and has no accepted replay under way. */
  ghost predicate Stuck(s: State, holder: Str, target: Str, hint: PutArgs) {
    KeepsHint(s.servers, holder, target, hint) && Blocked(s.servers, target, hint) && NonePending(s, holder, target, hint)
  }

  lemma SameHintEquivalence(a: PutArgs, b: PutArgs, m: PutArgs)
    ensures SameHint(a, b) ==> SameHint(b, a)
    ensures SameHint(a, b) && SameHint(b, m) ==> SameHint(a, m)
  {
    if SameHint(a, b) && SameHint(b, m) {
      LeqTransitive(Clock(a.obj), Clock(b.obj), Clock(m.obj));
      LeqTransitive(Clock(m.obj), Clock(b.obj), Clock(a.obj));
      LeqTransitive(a.base.vc, b.base.vc, m.base.vc);
      LeqTransitive(m.base.vc, b.base.vc, a.base.vc);
    }
  }

  lemma OthersKept(before: seq<PutArgs>, m: PutArgs, after: seq<PutArgs>, hint: PutArgs)
    requires WithoutFirst(before, m, after) && HasHint(before, hint) && !SameHint(m, hint)
    ensures HasHint(after, hint)
  {
    var i: nat :| FirstSame(before, m, i) && after == before[..i] + before[i + 1..];
    var j :| 0 <= j < |before| && SameHint(before[j], hint);
    SameHintEquivalence(before[i], m, hint);
    SameHintEquivalence(m, before[i], hint);
    hide SameHint;
    assert after[if j < i then j else j - 1] == before[j];
  }

  /** Removing a match leaves every hint that is not equivalent to it. */
  lemma OthersStay(s: Server, target: Str, m: PutArgs, t: Str, hint: PutArgs)
    requires HasHint(HintsFor(s, t), hint) && (t == target ==> !SameHint(m, hint))
    ensures HasHint(HintsFor(Unhinted(s, target, m), t), hint)
  {
    hide WithoutFirst, HasHint, Unhinted, SameHint;
    UnhintedExactly(s, target, m);
    if t == target && HasHint(HintsFor(s, target), m) {
      OthersKept(HintsFor(s, t), m, HintsFor(Unhinted(s, target, m), t), hint);
    }
  }

  /** An equivalent hint is rejected like the hint itself. */
  lemma EquivalentRejected(c: Config, s: Server, m: PutArgs, hint: PutArgs)
    requires SameHint(m, hint)
    requires Covers(Stored(s, hint.key), hint.base.vc) || (hint.key !in s.kv && Odd(hint.base))
    ensures Put(Place(c), s, m).0 == s && Put(Place(c), s, m).1 != OK
  {
    if Covers(Stored(s, hint.key), hint.base.vc) { CoversDown(Stored(s, hint.key), m.base.vc, hint.base.vc); }
    PutExactly(Place(c), s, m);
  }

  lemma ZeroIsCovered(s: seq<Object>, zero: VClock, v: VClock)
    requires IsZero(zero) && Covers(s, v)
    ensures Covers(s, zero)
  {
    CoversDown(s, zero, v);
  }

  /** Whatever a target gets for the key covers an odd base. */
  lemma StepKeepsBlocked(c: Config, s: State, step: Step, target: Str, hint: PutArgs)
    requires Enabled(c, s, step) && Grows(s.servers, Next(c, s, step).servers) && Blocked(s.servers, target, hint)
    ensures Blocked(Next(c, s, step).servers, target, hint)
  {
    hide Prefs, PlansFor, Living, TakeGet, TakePut, Put, Merged, Answer, Unhinted, Stamped, Covers, IsZero, Grows;
    if Covers(Stored(s.servers[target], hint.key), hint.base.vc) {
      HeldStays(s.servers, Next(c, s, step).servers, target, hint.key, hint.base.vc);
    } else {
      match step
      case ExecutePut(id, i) =>
        var op := s.puts[id];
        if op.plans[i].handoff == [] && op.plans[i].target == target { PutBlocks(c, s.servers[target], op.args, hint); }
      case ExecuteReplay(id) =>
        if s.replays[id].target == target { PutBlocks(c, s.servers[target], s.replays[id].hint, hint); }
      case Repair(server, key, objects) =>
        if server == target { MergeBlocks(c, s.servers[target], key, objects, hint); }
      case FinishReplay(id, delivered) =>
        UnhintedExactly(s.servers[s.replays[id].holder], s.replays[id].target, s.replays[id].hint);
      case _ =>
    }
  }

  lemma HeldStays(a: Servers, b: Servers, x: Str, key: Str, v: VClock)
    requires Grows(a, b) && x in a && Covers(Stored(a[x], key), v)
    ensures x in b && Covers(Stored(b[x], key), v)
  {
    assert Holds(a, x, key, v);
    assert Holds(b, x, key, v);
  }

  lemma PutBlocks(c: Config, s: Server, args: PutArgs, hint: PutArgs)
    requires hint.key !in s.kv && Odd(hint.base)
    ensures var t := Put(Place(c), s, args).0; hint.key !in t.kv || Covers(Stored(t, hint.key), hint.base.vc)
  {
    PutExactly(Place(c), s, args);
    if args.key == hint.key && Put(Place(c), s, args).1 == OK {
      PutCovers(Place(c), s, args, hint.key, Clock(args.obj));
      ZeroIsCovered(Stored(Put(Place(c), s, args).0, hint.key), hint.base.vc, Clock(args.obj));
    }
  }

  lemma MergeBlocks(c: Config, s: Server, key: Str, objects: seq<Object>, hint: PutArgs)
    requires hint.key !in s.kv && Odd(hint.base)
    ensures var t := Merged(Place(c), s, key, objects); hint.key !in t.kv || Covers(Stored(t, hint.key), hint.base.vc)
  {
    MergedStored(Place(c), s, key, objects, hint.key);
    if key == hint.key && objects != [] {
      CoversMember(objects, objects[0]);
      MergedCovers(Place(c), s, key, objects, key, Clock(objects[0]));
      ZeroIsCovered(Stored(Merged(Place(c), s, key, objects), key), hint.base.vc, Clock(objects[0]));
    } else if key != hint.key {
      MergedKeys(c, s, key, objects, hint.key);
    }
  }

  lemma MergedKeys(c: Config, s: Server, key: Str, objects: seq<Object>, k: Str)
    requires k != key
    ensures k in Merged(Place(c), s, key, objects).kv <==> k in s.kv
  {
    InstallExactly(Place(c), s, key, Merge(Stored(s, key), objects));
  }

  lemma StepKeepsHint(c: Config, s: State, step: Step, holder: Str, target: Str, hint: PutArgs)
    requires Enabled(c, s, step) && KeepsHint(s.servers, holder, target, hint) && NonePending(s, holder, target, hint)
    ensures KeepsHint(Next(c, s, step).servers, holder, target, hint)
  {
    hide SameHint, HasHint, Prefs, PlansFor, Living, TakeGet, TakePut, Put, Merged, Answer, Unhinted, Stamped;
    match step
    case ExecutePut(id, i) =>
      var op := s.puts[id];
      if op.plans[i].handoff != [] && op.plans[i].handoff == holder && op.plans[i].target == target {
        HintAppended(HintsFor(s.servers[holder], target), op.args, hint);
      } else if op.plans[i].handoff == [] && op.plans[i].target == holder {
        PutKeepsHints(c, s.servers[holder], op.args);
      }
    case Repair(server, key, objects) =>
      if server == holder { MergedStored(Place(c), s.servers[server], key, objects, key); }
    case ExecuteReplay(id) =>
      if s.replays[id].target == holder { PutKeepsHints(c, s.servers[holder], s.replays[id].hint); }
    case FinishReplay(id, delivered) =>
      var r := s.replays[id];
      if delivered && r.executed == Some(OK) && r.holder == holder {
        assert !Pending(r, holder, target, hint);
        OthersStay(s.servers[holder], r.target, r.hint, target, hint);
      }
    case _ =>
  }

  lemma StepKeepsNonePending(c: Config, s: State, step: Step, holder: Str, target: Str, hint: PutArgs)
    requires Enabled(c, s, step) && Blocked(s.servers, target, hint) && NonePending(s, holder, target, hint)
    ensures NonePending(Next(c, s, step), holder, target, hint)
  {
    hide SameHint, Prefs, PlansFor, Living, TakeGet, TakePut, Put, Merged, Answer, Unhinted, Stamped, Covers;
    if step.ExecuteReplay? {
      var r := s.replays[step.id];
      if r.target == target && SameHint(r.hint, hint) { EquivalentRejected(c, s.servers[target], r.hint, hint); }
    }
  }

  /**
   Once the target's store covers a hint's base, as it does when the write has come by read repair or anti-entropy, every
   replay of the hint is rejected and the hint is kept for ever, unless the answer to an accepted replay is under way.
   */
  lemma {:induction false} BlockedHintStays(c: Config, s: State, run: seq<Step>, t: State, holder: Str, target: Str, hint: PutArgs)
    requires Valid(c.ring) && Inv(c, s) && Leads(c, s, run, t) && Stuck(s, holder, target, hint)
    ensures Stuck(t, holder, target, hint)
    decreases run
  {
    if run != [] {
      var next := Next(c, s, run[0]);
      StepKeepsInv(c, s, run[0]);
      StepKeepsHint(c, s, run[0], holder, target, hint);
      StepKeepsNonePending(c, s, run[0], holder, target, hint);
      StepKeepsBlocked(c, s, run[0], target, hint);
      hide Inv, Next, Enabled, NonePending, KeepsHint, Blocked, Grows;
      BlockedHintStays(c, next, run[1..], t, holder, target, hint);
    }
  }

  // ----- exactly when a hint can go

  /** The holder keeps this hint at position i, and no other equivalent to it. */
  predicate Sole(hs: seq<PutArgs>, hint: PutArgs, i: nat) {
    i < |hs| && hs[i] == hint && forall j | 0 <= j < |hs| && j != i :: !SameHint(hs[j], hint)
  }

  /** The target has the key afterwards, and still does not cover the base. */
  lemma KeyPlanted(c: Config, s: State, target: Str, hint: PutArgs) returns (t: State)
    requires target in s.servers && !IsZero(hint.base.vc) && !Covers(Stored(s.servers[target], hint.key), hint.base.vc)
    ensures Leads(c, s, [Repair(target, hint.key, [BLANK])], t) && t.servers.Keys == s.servers.Keys
    ensures hint.key in t.servers[target].kv && !Covers(Stored(t.servers[target], hint.key), hint.base.vc)
    ensures forall holder: Str :: HintsAt(t, holder, target) == HintsAt(s, holder, target)
  {
    var step := Repair(target, hint.key, [BLANK]);
    Blanked(c, s.servers, target, hint.key, hint.base.vc);
    MergedStored(Place(c), s.servers[target], hint.key, [BLANK], hint.key);
    hide Merged, Covers, Leads;
    t := Next(c, s, step);
    LeadsOneStep(c, s, step);
  }

  lemma SoleHintGone(before: seq<PutArgs>, after: seq<PutArgs>, hint: PutArgs, i: nat)
    requires Sole(before, hint, i) && WithoutFirst(before, hint, after)
    ensures !HasHint(after, hint)
  {
    hide SameHint;
    var j: nat :| FirstSame(before, hint, j) && after == before[..j] + before[j + 1..];
    assert i == j;
    assert forall k | 0 <= k < |after| :: after[k] == before[if k < i then k else k + 1];
  }

  lemma SoleHintCanGo(c: Config, s: State, holder: Str, target: Str, hint: PutArgs, i: nat) returns (run: seq<Step>, t: State)
    requires holder in s.servers && target in s.servers && Sole(HintsAt(s, holder, target), hint, i)
    requires !Blocked(s.servers, target, hint)
    ensures Leads(c, s, run, t) && !KeepsHint(t.servers, holder, target, hint)
  {
    var first, mid := [], s;
    LeadsNowhere(c, s);
    if hint.key !in s.servers[target].kv && !IsZero(hint.base.vc) {
      first := [Repair(target, hint.key, [BLANK])];
      mid := KeyPlanted(c, s, target, hint);
    }
    InitialBase(hint.base);
    hide Leads, Covers, NothingKnown, WithoutFirst;
    var further;
    further, t := AcceptedHintGoes(c, mid, holder, target, hint);
    LeadsThrough(c, s, first, mid, further, t);
    run := first + further;
    SoleHintGone(HintsAt(mid, holder, target), HintsAt(t, holder, target), hint, i);
  }

  lemma LeadsNowhere(c: Config, s: State)
    ensures Leads(c, s, [], s)
  {
  }

  lemma InitialBase(base: Context)
    ensures IsZero(base.vc) && base.etag == [] ==> NothingKnown(base)
  {
  }

  /**
   A hint that is kept once, with no accepted replay under way, leaves its holder in some continuation exactly when its
   target does not block it now.
   */
  lemma HintGoesExactly(c: Config, s: State, holder: Str, target: Str, hint: PutArgs, i: nat)
    requires Valid(c.ring) && Inv(c, s) && holder in s.servers && target in s.servers
    requires Sole(HintsAt(s, holder, target), hint, i) && NonePending(s, holder, target, hint)
    ensures (exists run, t :: Leads(c, s, run, t) && !KeepsHint(t.servers, holder, target, hint)) <==> !Blocked(s.servers, target, hint)
  {
    if Blocked(s.servers, target, hint) {
      SameHintSelf(hint);
      assert KeepsHint(s.servers, holder, target, hint);
      forall run, t | Leads(c, s, run, t) ensures KeepsHint(t.servers, holder, target, hint) {
        BlockedHintStays(c, s, run, t, holder, target, hint);
        hide Leads, KeepsHint, Blocked, Inv;
      }
    } else {
      var run, t := SoleHintCanGo(c, s, holder, target, hint, i);
    }
  }
}
