/** Safety over whole runs of the cluster: durability of acknowledged writes, and read-after-write. */
module ClusterSafety {
  import opened Base
  import opened VectorClock
  import opened Siblings
  import opened RingState
  import opened HashRing
  import opened Replica
  import opened Membership
  import opened Coordinator
  import opened Cluster
  import opened ClusterInvariant
  import opened ClusterSteps

  lemma {:induction false} RunKeepsInv(c: Config, s: State, run: seq<Step>)
    requires Valid(c.ring) && Inv(c, s) && IsRun(c, s, run)
    ensures Inv(c, Reach(c, s, run)) && Grows(s.servers, Reach(c, s, run).servers)
    decreases run
  {
    if run == [] {
      GrowsSelf(s.servers);
    } else {
      StepKeepsInv(c, s, run[0]);
      var next := Next(c, s, run[0]);
      RunKeepsInv(c, next, run[1..]);
      hide Inv, Next, Enabled, Holds, KeepsHint;
    }
  }

  lemma InitialInv(c: Config, s: State)
    requires Initial(s)
    ensures Inv(c, s)
  {
  }

  // ----- an operation's past does not change

  /** What a later state may do to a write that has begun. */
  predicate PutGoesOn(a: PutOp, b: PutOp) {
    a.args == b.args && a.plans == b.plans && (a.acc.reply.Some? ==> b.acc == a.acc)
  }

  lemma PutGoesOnStep(c: Config, s: State, step: Step, id: nat)
    requires Enabled(c, s, step) && id in s.puts
    ensures id in Next(c, s, step).puts && PutGoesOn(s.puts[id], Next(c, s, step).puts[id])
  {
    hide TakeGet, TakePut, Prefs, Living, Put, PlansFor, PlanEffect, Answer, Merged, Unhinted;
  }

  lemma {:induction false} PutsGoOn(c: Config, s: State, run: seq<Step>, id: nat)
    requires IsRun(c, s, run) && id in s.puts
    ensures id in Reach(c, s, run).puts && PutGoesOn(s.puts[id], Reach(c, s, run).puts[id])
    decreases run
  {
    if run != [] {
      var next := Next(c, s, run[0]);
      PutGoesOnStep(c, s, run[0], id);
      hide Next, Enabled;
      PutsGoOn(c, next, run[1..], id);
    }
  }

  // ----- counting servers through slots

  function ServersAt(slots: set<nat>, at: seq<Str>): set<Str> {
    set i | i in slots && i < |at| :: at[i]
  }

  lemma {:induction false} ServersCounted(slots: set<nat>, at: seq<Str>)
    requires Distinct(at) && forall i | i in slots :: i < |at|
    ensures |ServersAt(slots, at)| == |slots|
    decreases slots
  {
    if slots != {} {
      var i :| i in slots;
      ServersCounted(slots - {i}, at);
      assert at[i] !in ServersAt(slots - {i}, at);
      assert ServersAt(slots, at) == ServersAt(slots - {i}, at) + {at[i]};
      assert |slots - {i}| == |slots| - 1;
    } else {
      assert ServersAt(slots, at) == {};
    }
  }

  // ----- durability

  /** The server has the write: stored under a sibling at or after it, or as a hint equivalent to it. */
  ghost predicate Carries(servers: Servers, id: Str, args: PutArgs) {
    Holds(servers, id, args.key, Clock(args.obj)) || exists target: Str :: KeepsHint(servers, id, target, args)
  }

  /** The server that has a plan's write. */
  function Carrier(servers: Servers, p: Plan, args: PutArgs): Str {
    if Holds(servers, p.target, args.key, Clock(args.obj)) then p.target else Receiver(p)
  }

  function Carriers(servers: Servers, op: PutOp): seq<Str> {
    seq(|op.plans|, i requires 0 <= i < |op.plans| => Carrier(servers, op.plans[i], op.args))
  }

  lemma CarriersApart(servers: Servers, op: PutOp)
    requires PlansApart(op.plans)
    ensures Distinct(Carriers(servers, op))
  {
    var at := Carriers(servers, op);
    hide Holds, Receiver;
    forall i, j | 0 <= i < j < |at| ensures at[i] != at[j] {
      assert at[i] in Footprint(op.plans[i]) && at[j] in Footprint(op.plans[j]);
    }
  }

  lemma AcksAreCarriers(c: Config, servers: Servers, op: PutOp) returns (at: set<Str>)
    requires PutOk(c, servers, op)
    ensures |at| == op.acc.successCount && forall x | x in at :: Carries(servers, x, op.args)
  {
    var carriers := Carriers(servers, op);
    CarriersApart(servers, op);
    ServersCounted(OkSlots(op), carriers);
    at := ServersAt(OkSlots(op), carriers);
    hide Holds, KeepsHint, PlansApart, Prefs;
    forall x | x in at ensures Carries(servers, x, op.args) {
      var i :| i in OkSlots(op) && i < |carriers| && carriers[i] == x;
      assert Carried(servers, op.plans[i], op.args);
    }
  }

  /**
   A write acknowledged at some point of a run is carried by W distinct servers at every later point,
   whatever is lost, delayed, reordered or handed off, and however hints are replayed.
   */
  lemma Durability(c: Config, s0: State, run: seq<Step>, s1: State, later: seq<Step>, s2: State, id: nat) returns (at: set<Str>)
    requires Valid(c.ring) && Initial(s0) && Leads(c, s0, run, s1) && Leads(c, s1, later, s2)
    requires id in s1.puts && s1.puts[id].acc.reply == Some(OK)
    ensures |at| >= c.writeQuorum && forall x | x in at :: Carries(s2.servers, x, s1.puts[id].args)
  {
    InitialInv(c, s0);
    RunKeepsInv(c, s0, run);
    RunKeepsInv(c, s1, later);
    PutsGoOn(c, s1, later, id);
    at := AcksAreCarriers(c, s2.servers, s2.puts[id]);
  }

  // ----- read after write

  /** The servers that acknowledged the write themselves. */
  function DirectSlots(op: PutOp): set<nat> {
    set i: nat | i in OkSlots(op) && i < |op.plans| && op.plans[i].handoff == []
  }

  function Targets(op: PutOp): seq<Str> {
    seq(|op.plans|, i requires 0 <= i < |op.plans| => op.plans[i].target)
  }

  ghost predicate AllHold(servers: Servers, at: set<Str>, key: Str, v: VClock) {
    forall x | x in at :: Holds(servers, x, key, v)
  }

  /** Those of the servers that are in the cluster hold the write. */
  ghost predicate HeldAt(servers: Servers, at: set<Str>, key: Str, v: VClock) {
    forall x | x in at && x in servers :: Holds(servers, x, key, v)
  }

  /** The members of the key's preference list that could answer a read without the write. */
  ghost function Lacking(c: Config, servers: Servers, key: Str, v: VClock): set<Str> {
    set x | x in Prefs(c, key) && x in servers && !Holds(servers, x, key, v)
  }

  /** The read did not miss the write: it did not answer that there is no key, and an OK answer has a sibling at or after it. */
  predicate Sees(op: GetOp, v: VClock) {
    op.acc.reply != Some(ErrNoKey) && (op.acc.reply == Some(OK) ==> Covers(op.acc.siblings, v))
  }

  /** Every answer to the read from one of these servers knows the write. */
  ghost predicate AnswersKnow(op: GetOp, at: set<Str>, v: VClock) {
    forall i | 0 <= i < |op.executed| && i < |op.asked| && op.executed[i].Some? && op.asked[i] in at ::
      op.executed[i].value.err == OK && Covers(op.executed[i].value.objects, v)
  }

  ghost predicate Informed(s: State, g: nat, at: set<Str>, key: Str, v: VClock) {
    HeldAt(s.servers, at, key, v) && (g in s.gets && s.gets[g].key == key ==> AnswersKnow(s.gets[g], at, v))
  }

  lemma HolderAnswers(servers: Servers, x: Str, key: Str, v: VClock)
    requires Holds(servers, x, key, v)
    ensures Answer(servers[x], key).err == OK && Covers(Answer(servers[x], key).objects, v)
  {
  }

  lemma ServersStay(c: Config, s: State, step: Step)
    requires Enabled(c, s, step)
    ensures Next(c, s, step).servers.Keys == s.servers.Keys
  {
    hide TakeGet, TakePut, Prefs, Living, Put, PlansFor, PlanEffect, Answer, Merged, Unhinted;
  }

  lemma StepInforms(c: Config, s: State, step: Step, g: nat, at: set<Str>, key: Str, v: VClock)
    requires Informed(s, g, at, key, v) && Enabled(c, s, step) && Grows(s.servers, Next(c, s, step).servers)
    ensures Informed(Next(c, s, step), g, at, key, v)
  {
    var next := Next(c, s, step);
    ServersStay(c, s, step);
    assert HeldAt(next.servers, at, key, v) by { hide Next, Enabled, Holds, KeepsHint; }
    hide HeldAt, Grows;
    if g in next.gets && next.gets[g].key == key {
      if step.ExecuteGet? && step.id == g {
        hide Covers, Prefs;
        AnswerInforms(s.servers, s.gets[g], step.i, at, v);
      } else if !(step.BeginGet? && step.id == g) {
        hide AnswersKnow;
        GetUntouched(c, s, step, g);
        SameAnswers(s.gets[g], next.gets[g], at, v);
      } else {
        hide Prefs, Living, Covers;
      }
    }
  }

  lemma AnswerInforms(servers: Servers, op: GetOp, i: nat, at: set<Str>, v: VClock)
    requires HeldAt(servers, at, op.key, v) && AnswersKnow(op, at, v)
    requires i < |op.executed| && i < |op.asked| && op.asked[i] in servers
    ensures AnswersKnow(op.(executed := op.executed[i := Some(Answer(servers[op.asked[i]], op.key))]), at, v)
  {
    if op.asked[i] in at {
      HolderAnswers(servers, op.asked[i], op.key, v);
    }
    hide Holds, Answer, Covers;
  }

  lemma SameAnswers(a: GetOp, b: GetOp, at: set<Str>, v: VClock)
    requires AnswersKnow(a, at, v) && a.executed == b.executed && a.asked == b.asked
    ensures AnswersKnow(b, at, v)
  {
  }

  /** Only its own start and its own executions change what a read has been answered. */
  lemma GetUntouched(c: Config, s: State, step: Step, g: nat)
    requires Enabled(c, s, step) && g in Next(c, s, step).gets
    requires !(step.ExecuteGet? && step.id == g) && !(step.BeginGet? && step.id == g)
    ensures g in s.gets
    ensures var op := Next(c, s, step).gets[g];
      op.executed == s.gets[g].executed && op.asked == s.gets[g].asked && op.key == s.gets[g].key
  {
    hide TakeGet, TakePut, Prefs, Living, Put, PlansFor, PlanEffect, Answer, Merged, Unhinted;
  }

  lemma {:induction false} RunInforms(c: Config, s: State, run: seq<Step>, g: nat, at: set<Str>, key: Str, v: VClock)
    requires Valid(c.ring) && Inv(c, s) && IsRun(c, s, run) && Informed(s, g, at, key, v)
    ensures Informed(Reach(c, s, run), g, at, key, v)
    decreases run
  {
    if run != [] {
      StepKeepsInv(c, s, run[0]);
      StepInforms(c, s, run[0], g, at, key, v);
      var next := Next(c, s, run[0]);
      hide Inv, Next, Enabled, Informed, Grows;
      RunInforms(c, next, run[1..], g, at, key, v);
    }
  }

  /** The direct acknowledgements are at distinct members of the preference list that hold the write. */
  lemma DirectHolders(c: Config, servers: Servers, op: PutOp) returns (at: set<Str>)
    requires PutOk(c, servers, op)
    ensures |at| == |DirectSlots(op)| && at <= Elements(Prefs(c, op.args.key))
    ensures AllHold(servers, at, op.args.key, Clock(op.args.obj))
  {
    var targets := Targets(op);
    hide Holds, KeepsHint, Prefs;
    forall i, j | 0 <= i < j < |targets| ensures targets[i] != targets[j] {
      assert targets[i] in Footprint(op.plans[i]) && targets[j] in Footprint(op.plans[j]);
    }
    ServersCounted(DirectSlots(op), targets);
    at := ServersAt(DirectSlots(op), targets);
    forall x | x in at ensures x in Prefs(c, op.args.key) && Holds(servers, x, op.args.key, Clock(op.args.obj)) {
      var i :| i in DirectSlots(op) && i < |targets| && targets[i] == x;
      assert Carried(servers, op.plans[i], op.args);
    }
  }

  lemma PrefsCount(c: Config, key: Str)
    requires Valid(c.ring)
    ensures |Elements(Prefs(c, key))| <= c.ring.numReplicas
  {
    DistinctCount(Prefs(c, key));
    if SectorOf(c, key).0 < c.ring.numSectors {
      PreferenceListShape(c.ring, SectorOf(c, key).0);
    }
  }

  /** R answers of one kind include one from any of these servers, if they and the R answers are more than the preference list has. */
  lemma QuorumsMeet(c: Config, op: GetOp, err: Err, at: set<Str>) returns (i: nat)
    requires AskedOk(c, op)
    requires at <= Elements(Prefs(c, op.key)) && |AnswerSlots(op, err)| + |at| > |Elements(Prefs(c, op.key))|
    ensures i < |op.asked| && op.asked[i] in at && Answered(op, i, err)
  {
    var slots := AnswerSlots(op, err);
    ServersCounted(slots, op.asked);
    var x := Intersect(ServersAt(slots, op.asked), at, Elements(Prefs(c, op.key)));
    i :| i in slots && i < |op.asked| && op.asked[i] == x;
  }

  lemma InformedReply(c: Config, op: GetOp, at: set<Str>, v: VClock)
    requires GetOk(c, op) && AnswersKnow(op, at, v)
    requires at <= Elements(Prefs(c, op.key)) && c.readQuorum + |at| > |Elements(Prefs(c, op.key))|
    ensures Sees(op, v)
  {
    if op.acc.reply == Some(ErrNoKey) {
      var i := QuorumsMeet(c, op, ErrNoKey, at);
    } else if op.acc.reply == Some(OK) {
      var i := QuorumsMeet(c, op, OK, at);
      hide Prefs, Covers;
      assert Answered(op, i, OK) && Covers(op.executed[i].value.objects, v);
    }
  }

  /** When fewer than R members of the preference list lack the write, no read that begins from now on misses it. */
  lemma HeldIsRead(c: Config, s1: State, later: seq<Step>, s2: State, key: Str, v: VClock, g: nat)
    requires Valid(c.ring) && Inv(c, s1) && Leads(c, s1, later, s2) && |Lacking(c, s1.servers, key, v)| < c.readQuorum
    requires g !in s1.gets && g in s2.gets && s2.gets[g].key == key
    ensures Sees(s2.gets[g], v) && Antichain(s2.gets[g].acc.siblings)
  {
    var lack := Lacking(c, s1.servers, key, v);
    var at := Elements(Prefs(c, key)) - lack;
    assert Elements(Prefs(c, key)) == at + lack;
    assert Informed(s1, g, at, key, v);
    RunInforms(c, s1, later, g, at, key, v);
    RunKeepsInv(c, s1, later);
    assert GetOk(c, s2.gets[g]);
    InformedReply(c, s2.gets[g], at, v);
  }

  lemma DirectsDoNotLack(c: Config, servers: Servers, op: PutOp)
    requires Valid(c.ring) && PutOk(c, servers, op)
    ensures |Lacking(c, servers, op.args.key, Clock(op.args.obj))| + |DirectSlots(op)| <= c.ring.numReplicas
  {
    var at := DirectHolders(c, servers, op);
    var lack := Lacking(c, servers, op.args.key, Clock(op.args.obj));
    PrefsCount(c, op.args.key);
    hide Prefs, Holds, PutOk, DirectSlots;
    assert at !! lack;
    SubsetCount(at + lack, Elements(Prefs(c, op.args.key)));
  }

  /**
   If the direct acknowledgements of a write and R together exceed N, a read that begins later never answers that the
   key is missing, and if it answers OK, some sibling it returns is equal to or after the written clock. With
   R + W > N it is enough that W acknowledgements were direct.
   */
  lemma ReadAfterWrite(c: Config, s0: State, run: seq<Step>, s1: State, later: seq<Step>, s2: State, id: nat, g: nat)
    requires Valid(c.ring) && Initial(s0) && Leads(c, s0, run, s1) && Leads(c, s1, later, s2)
    requires id in s1.puts && c.readQuorum + |DirectSlots(s1.puts[id])| > c.ring.numReplicas
    requires g !in s1.gets && g in s2.gets && s2.gets[g].key == s1.puts[id].args.key
    ensures s2.gets[g].acc.reply != Some(ErrNoKey) && Antichain(s2.gets[g].acc.siblings)
    ensures s2.gets[g].acc.reply == Some(OK) ==> Covers(s2.gets[g].acc.siblings, Clock(s1.puts[id].args.obj))
  {
    InitialInv(c, s0);
    RunKeepsInv(c, s0, run);
    var op := s1.puts[id];
    assert PutOk(c, s1.servers, op);
    DirectsDoNotLack(c, s1.servers, op);
    hide Inv, Lacking, DirectSlots;
    HeldIsRead(c, s1, later, s2, op.args.key, Clock(op.args.obj), g);
  }
}
