/** What every step of the cluster keeps. */
module ClusterInvariant {
  import opened Base
  import opened VectorClock
  import opened Siblings
  import opened HashRing
  import opened Replica
  import opened Membership
  import opened Coordinator
  import opened Cluster

  type Servers = map<Str, Server>

  /** The server stores a sibling at or after the clock. */
  predicate Holds(servers: Servers, id: Str, key: Str, v: VClock) {
    id in servers && Covers(Stored(servers[id], key), v)
  }

  /** The server keeps a hint for the target that is equivalent to the write. */
  predicate KeepsHint(servers: Servers, id: Str, target: Str, args: PutArgs) {
    id in servers && HasHint(HintsFor(servers[id], target), args)
  }

  /** The write is at its target, or in a hint on the way there. */
  predicate Carried(servers: Servers, p: Plan, args: PutArgs) {
    Holds(servers, p.target, args.key, Clock(args.obj)) || (p.handoff != [] && KeepsHint(servers, p.handoff, p.target, args))
  }

  /** Nothing stored is lost, and a hint goes only when its target holds the write. */
  ghost predicate Grows(a: Servers, b: Servers) {
    && (forall id: Str, key: Str, v: VClock :: Holds(a, id, key, v) ==> Holds(b, id, key, v))
    && (forall id: Str, target: Str, args: PutArgs ::
          KeepsHint(a, id, target, args) ==> KeepsHint(b, id, target, args) || Holds(b, target, args.key, Clock(args.obj)))
  }

  function OkSlots(op: PutOp): set<nat> {
    set i: nat | i < |op.delivery| && op.delivery[i] == Got && i < |op.executed| && op.executed[i] == Some(OK)
  }

  predicate Answered(op: GetOp, i: nat, err: Err) {
    i < |op.delivery| && op.delivery[i] == Got && i < |op.executed| && op.executed[i].Some? && op.executed[i].value.err == err
  }

  function AnswerSlots(op: GetOp, err: Err): set<nat> {
    set i: nat | i < |op.delivery| && Answered(op, i, err)
  }

  /** The plans of a write: one slot each, apart from one another, targets in the preference list. */
  predicate PlanOk(c: Config, op: PutOp) {
    && |op.plans| == |op.executed| == |op.delivery|
    && (forall i | 0 <= i < |op.delivery| && op.delivery[i] == Got :: op.executed[i].Some?)
    && PlansApart(op.plans)
    && forall i | 0 <= i < |op.plans| :: op.plans[i].target in Prefs(c, op.args.key)
  }

  ghost predicate AcksCarried(servers: Servers, op: PutOp) {
    forall i | 0 <= i < |op.executed| && i < |op.plans| && op.executed[i] == Some(OK) :: Carried(servers, op.plans[i], op.args)
  }

  predicate CountOk(c: Config, op: PutOp) {
    op.acc.successCount == |OkSlots(op)| && (op.acc.reply == Some(OK) ==> op.acc.successCount >= c.writeQuorum)
  }

  ghost predicate PutOk(c: Config, servers: Servers, op: PutOp) {
    PlanOk(c, op) && AcksCarried(servers, op) && CountOk(c, op)
  }

  predicate AskedOk(c: Config, op: GetOp) {
    && |op.asked| == |op.executed| == |op.delivery| && Distinct(op.asked)
    && (forall i | 0 <= i < |op.delivery| && op.delivery[i] == Got :: op.executed[i].Some?)
    && forall i | 0 <= i < |op.asked| :: op.asked[i] in Prefs(c, op.key)
  }

  predicate AnswersCounted(c: Config, op: GetOp) {
    && op.acc.successCount == |AnswerSlots(op, OK)| && op.acc.noKeyCount == |AnswerSlots(op, ErrNoKey)|
    && (op.acc.reply == Some(OK) ==> op.acc.successCount >= c.readQuorum)
    && (op.acc.reply == Some(ErrNoKey) ==> op.acc.noKeyCount >= c.readQuorum)
  }

  /** The siblings collected so far know what every counted answer knew. */
  ghost predicate AnswersMerged(op: GetOp) {
    && Antichain(op.acc.siblings)
    && forall i: nat, v: VClock | Answered(op, i, OK) && Covers(op.executed[i].value.objects, v) :: Covers(op.acc.siblings, v)
  }

  ghost predicate GetOk(c: Config, op: GetOp) {
    AskedOk(c, op) && AnswersCounted(c, op) && AnswersMerged(op)
  }

  predicate ReplayOk(servers: Servers, r: Replay) {
    r.executed == Some(OK) ==> Holds(servers, r.target, r.hint.key, Clock(r.hint.obj))
  }

  ghost predicate Inv(c: Config, s: State) {
    && (forall id | id in s.puts :: PutOk(c, s.servers, s.puts[id]))
    && (forall id | id in s.gets :: GetOk(c, s.gets[id]))
    && (forall id | id in s.replays :: ReplayOk(s.servers, s.replays[id]))
  }

  // ----- stores and hints only grow

  lemma GrowsByUpdate(a: Servers, id: Str, s: Server)
    requires id in a && s.hints == a[id].hints
    requires forall key: Str, v: VClock :: Covers(Stored(a[id], key), v) ==> Covers(Stored(s, key), v)
    ensures Grows(a, a[id := s])
  {
  }

  lemma PutGrows(c: Config, a: Servers, id: Str, args: PutArgs)
    requires id in a
    ensures Grows(a, a[id := Put(Place(c), a[id], args).0])
    ensures Put(Place(c), a[id], args).1 == OK ==> Holds(a[id := Put(Place(c), a[id], args).0], id, args.key, Clock(args.obj))
  {
    var s := Put(Place(c), a[id], args).0;
    forall key: Str, v: VClock | Covers(Stored(a[id], key), v) ensures Covers(Stored(s, key), v) {
      PutCovers(Place(c), a[id], args, key, v);
    }
    GrowsByUpdate(a, id, s);
    PutCovers(Place(c), a[id], args, args.key, Clock(args.obj));
  }

  lemma MergeGrows(c: Config, a: Servers, id: Str, key: Str, objects: seq<Object>)
    requires id in a
    ensures Grows(a, a[id := Merged(Place(c), a[id], key, objects)])
  {
    var s := Merged(Place(c), a[id], key, objects);
    MergedStored(Place(c), a[id], key, objects, key);
    forall k: Str, v: VClock | Covers(Stored(a[id], k), v) ensures Covers(Stored(s, k), v) {
      MergedCovers(Place(c), a[id], key, objects, k, v);
    }
    GrowsByUpdate(a, id, s);
  }

  lemma SameHintSelf(args: PutArgs)
    ensures SameHint(args, args)
  {
  }

  lemma HintAppended(hs: seq<PutArgs>, args: PutArgs, m: PutArgs)
    ensures HasHint(hs, m) ==> HasHint(hs + [args], m)
    ensures HasHint(hs + [args], args)
  {
    SameHintSelf(args);
    assert (hs + [args])[|hs|] == args;
    if HasHint(hs, m) {
      var i :| 0 <= i < |hs| && SameHint(hs[i], m);
      assert (hs + [args])[i] == hs[i];
    }
  }

  lemma HintGrows(a: Servers, id: Str, target: Str, args: PutArgs)
    requires id in a
    ensures Grows(a, a[id := Hinted(a[id], target, args)])
    ensures KeepsHint(a[id := Hinted(a[id], target, args)], id, target, args)
  {
    var b := a[id := Hinted(a[id], target, args)];
    HintAppended(HintsFor(a[id], target), args, args);
    forall x: Str, t: Str, m: PutArgs | KeepsHint(a, x, t, m) ensures KeepsHint(b, x, t, m) {
      HintAppended(HintsFor(a[id], target), args, m);
    }
  }

  /** Removing a match leaves every other hint, and what is removed is equivalent to the match. */
  lemma {:induction false} HintRemoved(hs: seq<PutArgs>, m: PutArgs, args: PutArgs)
    requires HasHint(hs, args)
    ensures HasHint(RemoveHintFrom(hs, m), args) || (args.key == m.key && Leq(Clock(args.obj), Clock(m.obj)))
  {
    var i :| 0 <= i < |hs| && SameHint(hs[i], args);
    if SameHint(hs[0], m) {
      if i > 0 {
        assert hs[1..][i - 1] == hs[i];
      } else {
        LeqTransitive(Clock(args.obj), Clock(hs[0].obj), Clock(m.obj));
      }
    } else {
      var rest := RemoveHintFrom(hs[1..], m);
      assert RemoveHintFrom(hs, m) == [hs[0]] + rest;
      if i == 0 {
        assert ([hs[0]] + rest)[0] == hs[0];
      } else {
        assert hs[1..][i - 1] == hs[i];
        HintRemoved(hs[1..], m, args);
        if HasHint(rest, args) {
          var j :| 0 <= j < |rest| && SameHint(rest[j], args);
          assert ([hs[0]] + rest)[j + 1] == rest[j];
        }
      }
    }
  }

  lemma UnhintedFor(s: Server, target: Str, m: PutArgs, t: Str, args: PutArgs)
    requires HasHint(HintsFor(s, t), args)
    ensures HasHint(HintsFor(Unhinted(s, target, m), t), args)
      || (t == target && args.key == m.key && Leq(Clock(args.obj), Clock(m.obj)))
  {
    hide SameHint;
    if t == target && HasHint(HintsFor(s, target), m) {
      HintRemoved(HintsFor(s, target), m, args);
      var rest := RemoveHintFrom(HintsFor(s, target), m);
      assert HintsFor(Unhinted(s, target, m), t) == rest;
    }
  }

  /** Dropping a hint whose target acknowledged it loses nothing. */
  lemma UnhintGrows(a: Servers, id: Str, target: Str, m: PutArgs)
    requires id in a && Holds(a, target, m.key, Clock(m.obj))
    ensures Grows(a, a[id := Unhinted(a[id], target, m)])
  {
    var b := a[id := Unhinted(a[id], target, m)];
    assert forall x: Str, key: Str | x in a :: x in b && Stored(b[x], key) == Stored(a[x], key);
    forall x: Str, t: Str, args: PutArgs | KeepsHint(a, x, t, args)
      ensures KeepsHint(b, x, t, args) || Holds(b, t, args.key, Clock(args.obj))
    {
      if x == id {
        UnhintedFor(a[id], target, m, t, args);
        if t == target && args.key == m.key && Leq(Clock(args.obj), Clock(m.obj)) {
          CoversDown(Stored(a[target], m.key), Clock(args.obj), Clock(m.obj));
        }
      }
    }
  }

  lemma GrowsKeepsPut(a: Servers, b: Servers, op: PutOp)
    requires Grows(a, b) && AcksCarried(a, op)
    ensures AcksCarried(b, op)
  {
    hide Holds, KeepsHint;
  }

  lemma GrowsSelf(a: Servers)
    ensures Grows(a, a)
  {
  }

  /** If a step changes only servers, and they grow, the invariant stays. */
  lemma GrowsKeepsInv(c: Config, s: State, b: Servers)
    requires Inv(c, s) && Grows(s.servers, b)
    ensures Inv(c, s.(servers := b))
  {
    forall id | id in s.puts ensures PutOk(c, b, s.puts[id]) { GrowsKeepsPut(s.servers, b, s.puts[id]); }
    forall id | id in s.replays ensures ReplayOk(b, s.replays[id]) {
      assert ReplayOk(s.servers, s.replays[id]);
      hide Holds;
    }
  }
}
