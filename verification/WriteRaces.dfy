/**
 Writes on the same context. The coordinator's stamp sets apart what different coordinators write; a replica accepts
 only one write on a context, so rival writes share the replicas that acknowledge them; and what is acknowledged widely
 enough is read, rival or not.
 */
module WriteRaces {
  import opened Base
  import opened VectorClock
  import opened Siblings
  import opened RingState
  import opened Replica
  import opened Membership
  import opened Coordinator
  import opened Cluster
  import opened ClusterInvariant
  import opened ClusterSteps
  import opened ClusterSafety

  // ----- the coordinator's stamp

  /** The coordinator counts its own entry up by one, and sets time and value hash; nothing else changes. */
  lemma StampedExactly(args: PutArgs, coordinator: Str, now: nat, etag: Str)
    ensures var t := Stamped(args, coordinator, now, etag);
      && Version(Clock(t.obj), coordinator) == Version(Clock(args.obj), coordinator) + 1
      && (forall n: Str | n != coordinator :: Version(Clock(t.obj), n) == Version(Clock(args.obj), n))
      && t.obj.context.timestamp == now && t.obj.context.etag == etag
      && t.obj.value == args.obj.value && t.key == args.key && t.base == args.base
  {
  }

  lemma LeqVersions(a: VClock, b: VClock)
    ensures Leq(a, b) <==> forall n: Str :: Version(a, n) <= Version(b, n)
  {
    if forall n: Str :: Version(a, n) <= Version(b, n) {
      forall n | n in a ensures a[n] <= Version(b, n) { assert Version(a, n) <= Version(b, n); }
    }
  }

  /** How two stamped clocks stand to each other, by the versions they were made from. */
  lemma StampedOrder(x: PutArgs, a: Str, y: PutArgs, b: Str, now: nat, time: nat, etag: Str, hash: Str)
    ensures var v, w := Clock(x.obj), Clock(y.obj);
      Leq(Clock(Stamped(x, a, now, etag).obj), Clock(Stamped(y, b, time, hash).obj)) <==>
        forall n: Str :: Version(v, n) + (if n == a then 1 else 0) <= Version(w, n) + (if n == b then 1 else 0)
  {
    StampedExactly(x, a, now, etag);
    StampedExactly(y, b, time, hash);
    hide Stamped;
    LeqVersions(Clock(Stamped(x, a, now, etag).obj), Clock(Stamped(y, b, time, hash).obj));
    hide Leq, Version;
    forall n: Str
      ensures Version(Clock(Stamped(x, a, now, etag).obj), n) == Version(Clock(x.obj), n) + if n == a then 1 else 0
      ensures Version(Clock(Stamped(y, b, time, hash).obj), n) == Version(Clock(y.obj), n) + if n == b then 1 else 0
    {
    }
  }

  /** On one context, different coordinators write concurrent versions, and one coordinator writes equal clocks. */
  lemma StampedApart(x: PutArgs, a: Str, y: PutArgs, b: Str, now: nat, time: nat, etag: Str, hash: Str)
    requires SameClock(Clock(x.obj), Clock(y.obj))
    ensures Cmp(Clock(Stamped(x, a, now, etag).obj), Clock(Stamped(y, b, time, hash).obj)) == if a == b then Equal else Concurrent
  {
    SameClockVersions(Clock(x.obj), Clock(y.obj));
    StampedOrder(x, a, y, b, now, time, etag, hash);
    StampedOrder(y, b, x, a, time, now, hash, etag);
    hide Stamped;
    if a != b {
      assert Version(Clock(x.obj), a) == Version(Clock(y.obj), a) && Version(Clock(x.obj), b) == Version(Clock(y.obj), b);
    }
  }

  // ----- what a run makes of a write

  /** The step begins this write. */
  predicate Begins(step: Step, op: PutOp) {
    step.BeginPut? && op.args == Stamped(step.args, step.coordinator, step.now, step.etag)
  }

  lemma BeginsNow(c: Config, s: State, step: Step)
    requires Enabled(c, s, step) && step.BeginPut?
    ensures step.id in Next(c, s, step).puts && Begins(step, Next(c, s, step).puts[step.id])
  {
    hide PlansFor, Prefs, Stamped;
  }

  lemma {:induction false} BegunInRun(c: Config, s: State, run: seq<Step>, t: State, step: Step)
    requires Leads(c, s, run, t) && step in run && step.BeginPut?
    ensures step.id in t.puts && Begins(step, t.puts[step.id])
    decreases run
  {
    hide Next, Enabled, Begins;
    var next := Next(c, s, run[0]);
    if step == run[0] {
      BeginsNow(c, s, step);
      PutsGoOn(c, next, run[1..], step.id);
      assert Begins(step, next.puts[step.id]) ==> Begins(step, t.puts[step.id]) by { SameBeginning(step, next.puts[step.id], t.puts[step.id]); }
    } else {
      assert step in run[1..];
      BegunInRun(c, next, run[1..], t, step);
    }
  }

  lemma SameBeginning(step: Step, a: PutOp, b: PutOp)
    requires a.args == b.args
    ensures Begins(step, a) ==> Begins(step, b)
  {
  }

  /**
   Two writes begun on equal clocks by different coordinators are concurrent, and if R and the direct acknowledgements
   of each exceed N, a read that begins later and answers OK has siblings at or after either of them.
   */
  lemma BothRead(c: Config, s0: State, run: seq<Step>, s1: State, later: seq<Step>, s2: State, p: Step, q: Step, g: nat)
    requires Valid(c.ring) && Initial(s0) && Leads(c, s0, run, s1) && Leads(c, s1, later, s2)
    requires p in run && q in run && p.BeginPut? && q.BeginPut? && p.args.key == q.args.key && p.coordinator != q.coordinator
    requires SameClock(Clock(p.args.obj), Clock(q.args.obj))
    requires p.id in s1.puts ==> c.readQuorum + |DirectSlots(s1.puts[p.id])| > c.ring.numReplicas
    requires q.id in s1.puts ==> c.readQuorum + |DirectSlots(s1.puts[q.id])| > c.ring.numReplicas
    requires g !in s1.gets && g in s2.gets && s2.gets[g].key == p.args.key
    ensures p.id in s1.puts && q.id in s1.puts
    ensures var v, w := Clock(s1.puts[p.id].args.obj), Clock(s1.puts[q.id].args.obj);
      && Cmp(v, w) == Concurrent && Sees(s2.gets[g], v) && Sees(s2.gets[g], w)
  {
    BegunInRun(c, s0, run, s1, p);
    BegunInRun(c, s0, run, s1, q);
    StampedApart(p.args, p.coordinator, q.args, q.coordinator, p.now, q.now, p.etag, q.etag);
    hide Leads, SameClock, Covers, Antichain, DirectSlots;
    ReadAfterWrite(c, s0, run, s1, later, s2, p.id, g);
    ReadAfterWrite(c, s0, run, s1, later, s2, q.id, g);
  }

  // ----- one acceptance per context and replica

  /** Where a step offers a write to a replica's store, and which one. */
  function Offer(s: State, step: Step): Option<(Str, PutArgs)> {
    match step
    case ExecutePut(id, i) =>
      if id in s.puts && i < |s.puts[id].plans| && s.puts[id].plans[i].handoff == [] then Some((s.puts[id].plans[i].target, s.puts[id].args)) else None
    case ExecuteReplay(id) => if id in s.replays then Some((s.replays[id].target, s.replays[id].hint)) else None
    case _ => None
  }

  /** The step's write is accepted by the replica. */
  ghost predicate Accepts(c: Config, s: State, step: Step, x: Str, a: PutArgs) {
    Enabled(c, s, step) && Offer(s, step) == Some((x, a)) && x in s.servers && Put(Place(c), s.servers[x], a).1 == OK
  }

  lemma AcceptedIsHeld(c: Config, s: State, step: Step, x: Str, a: PutArgs)
    requires Accepts(c, s, step, x, a)
    ensures Holds(Next(c, s, step).servers, x, a.key, Clock(a.obj))
  {
    PutGrows(c, s.servers, x, a);
    hide Put, Holds, Grows, PlansFor, Prefs;
  }

  /** A replica that holds something at or after a base rejects every write on it, and ever after. */
  lemma HeldBaseRejected(c: Config, s: State, later: seq<Step>, t: State, x: Str, b: PutArgs, v: VClock)
    requires Valid(c.ring) && Inv(c, s) && Leads(c, s, later, t) && Holds(s.servers, x, b.key, v) && Leq(b.base.vc, v)
    ensures x in t.servers && Put(Place(c), t.servers[x], b) == (t.servers[x], ErrVersion)
  {
    RunKeepsInv(c, s, later);
    assert Holds(t.servers, x, b.key, v);
    CoversDown(Stored(t.servers[x], b.key), b.base.vc, v);
    PutExactly(Place(c), t.servers[x], b);
  }

  /**
   Once a replica has accepted a write, directly or by a replayed hint, it rejects every write whose base is at or before
   the accepted object, in every later state: in particular every other write on the same base.
   */
  lemma AcceptedOnce(c: Config, s0: State, run: seq<Step>, s1: State, step: Step, later: seq<Step>, s2: State, x: Str, a: PutArgs, b: PutArgs)
    requires Valid(c.ring) && Initial(s0) && Leads(c, s0, run, s1) && Accepts(c, s1, step, x, a) && Leads(c, Next(c, s1, step), later, s2)
    requires a.key == b.key && (Leq(b.base.vc, Clock(a.obj)) || (WellFormedPut(a) && Leq(b.base.vc, a.base.vc)))
    ensures x in s2.servers && Put(Place(c), s2.servers[x], b) == (s2.servers[x], ErrVersion)
  {
    InitialInv(c, s0);
    RunKeepsInv(c, s0, run);
    StepKeepsInv(c, s1, step);
    AcceptedIsHeld(c, s1, step, x, a);
    if !Leq(b.base.vc, Clock(a.obj)) { LeqTransitive(b.base.vc, a.base.vc, Clock(a.obj)); }
    hide Inv, Accepts, Leq, Holds;
    HeldBaseRejected(c, Next(c, s1, step), later, s2, x, b, Clock(a.obj));
  }

  // ----- rival writes

  /** Neither write was made with the other in its base: as for any two writes on one context. */
  predicate Rivals(a: PutArgs, b: PutArgs) {
    a.key == b.key && Leq(a.base.vc, Clock(b.obj)) && Leq(b.base.vc, Clock(a.obj))
  }

  lemma SameBaseRivals(a: PutArgs, b: PutArgs)
    requires WellFormedPut(a) && WellFormedPut(b) && a.key == b.key && SameClock(a.base.vc, b.base.vc)
    ensures Rivals(a, b)
  {
    LeqTransitive(a.base.vc, b.base.vc, Clock(b.obj));
    LeqTransitive(b.base.vc, a.base.vc, Clock(a.obj));
  }

  /** The slot is a direct one at this server, and was answered OK. */
  predicate AcceptedBy(op: PutOp, i: nat, x: Str) {
    i < |op.plans| && op.plans[i] == Plan(x, []) && i < |op.executed| && op.executed[i] == Some(OK)
  }

  ghost predicate Apart(a: PutOp, b: PutOp) {
    forall i: nat, j: nat, x: Str :: !(AcceptedBy(a, i, x) && AcceptedBy(b, j, x))
  }

  ghost predicate RivalsApart(s: State) {
    forall p, q | p in s.puts && q in s.puts && p != q && Rivals(s.puts[p].args, s.puts[q].args) :: Apart(s.puts[p], s.puts[q])
  }

  /** What a step may do to a write: it keeps its plans, and adds at most the answer of its own execution. */
  lemma AcceptedBefore(c: Config, s: State, step: Step, p: nat, i: nat, x: Str)
    requires Enabled(c, s, step) && p in Next(c, s, step).puts && AcceptedBy(Next(c, s, step).puts[p], i, x)
    ensures p in s.puts && Next(c, s, step).puts[p].args == s.puts[p].args
    ensures AcceptedBy(s.puts[p], i, x) || (step == ExecutePut(p, i) && Accepts(c, s, step, x, s.puts[p].args))
  {
    hide PlansFor, Prefs, Living, TakeGet, TakePut, Put, Merged, Unhinted, Answer, Stamped;
  }

  /** A server that accepted one of two rivals does not accept the other. */
  lemma RivalRejected(c: Config, s: State, step: Step, p: nat, i: nat, x: Str, b: PutArgs)
    requires Inv(c, s) && p in s.puts && AcceptedBy(s.puts[p], i, x) && Rivals(s.puts[p].args, b)
    ensures !Accepts(c, s, step, x, b)
  {
    var op := s.puts[p];
    assert PutOk(c, s.servers, op) && Carried(s.servers, op.plans[i], op.args);
    if x in s.servers {
      CoversDown(Stored(s.servers[x], b.key), b.base.vc, Clock(op.args.obj));
      PutExactly(Place(c), s.servers[x], b);
    }
  }

  lemma StepKeepsApart(c: Config, s: State, step: Step)
    requires Inv(c, s) && RivalsApart(s) && Enabled(c, s, step)
    ensures RivalsApart(Next(c, s, step))
  {
    var t := Next(c, s, step);
    hide Next, Enabled, Inv, AcceptedBy, Rivals, Accepts;
    forall p, q, i: nat, j: nat, x: Str | p in t.puts && q in t.puts && p != q && Rivals(t.puts[p].args, t.puts[q].args)
      && AcceptedBy(t.puts[p], i, x) && AcceptedBy(t.puts[q], j, x)
      ensures false
    {
      AcceptedBefore(c, s, step, p, i, x);
      AcceptedBefore(c, s, step, q, j, x);
      if AcceptedBy(s.puts[p], i, x) {
        RivalRejected(c, s, step, p, i, x, s.puts[q].args);
      } else {
        RivalsBothWays(s.puts[p].args, s.puts[q].args);
        RivalRejected(c, s, step, q, j, x, s.puts[p].args);
      }
    }
  }

  lemma RivalsBothWays(a: PutArgs, b: PutArgs)
    ensures Rivals(a, b) <==> Rivals(b, a)
  {
  }

  lemma {:induction false} RunKeepsApart(c: Config, s: State, run: seq<Step>, t: State)
    requires Valid(c.ring) && Inv(c, s) && RivalsApart(s) && Leads(c, s, run, t)
    ensures RivalsApart(t)
    decreases run
  {
    if run != [] {
      hide RivalsApart, Inv, Next, Enabled;
      StepKeepsApart(c, s, run[0]);
      StepKeepsInv(c, s, run[0]);
      RunKeepsApart(c, Next(c, s, run[0]), run[1..], t);
    }
  }

  /** The servers that acknowledged the write themselves. */
  function Acknowledging(op: PutOp): set<Str> { ServersAt(DirectSlots(op), Targets(op)) }

  lemma AcknowledgingCount(c: Config, servers: Servers, op: PutOp)
    requires PutOk(c, servers, op)
    ensures |Acknowledging(op)| == |DirectSlots(op)| && Acknowledging(op) <= Elements(Prefs(c, op.args.key))
    ensures forall x | x in Acknowledging(op) :: exists i: nat :: AcceptedBy(op, i, x)
  {
    var targets := Targets(op);
    hide Carried, Prefs;
    forall i, j | 0 <= i < j < |targets| ensures targets[i] != targets[j] {
      assert targets[i] in Footprint(op.plans[i]) && targets[j] in Footprint(op.plans[j]);
    }
    ServersCounted(DirectSlots(op), targets);
    forall x | x in Acknowledging(op) ensures x in Prefs(c, op.args.key) && exists i: nat :: AcceptedBy(op, i, x) {
      var i :| i in DirectSlots(op) && i < |targets| && targets[i] == x;
      assert AcceptedBy(op, i, x);
    }
  }

  /**
   In every run, the direct acknowledgements of two rival writes come from different servers: together they are no more
   than N. So with 2W > N at most one of two writes on the same context has W of them.
   */
  lemma OneWriterWins(c: Config, s0: State, run: seq<Step>, s1: State, p: nat, q: nat)
    requires Valid(c.ring) && Initial(s0) && Leads(c, s0, run, s1)
    requires p in s1.puts && q in s1.puts && p != q && Rivals(s1.puts[p].args, s1.puts[q].args)
    ensures Acknowledging(s1.puts[p]) !! Acknowledging(s1.puts[q])
    ensures |DirectSlots(s1.puts[p])| + |DirectSlots(s1.puts[q])| <= c.ring.numReplicas
  {
    InitialInv(c, s0);
    RunKeepsInv(c, s0, run);
    assert RivalsApart(s0);
    RunKeepsApart(c, s0, run, s1);
    var a, b := s1.puts[p], s1.puts[q];
    assert PutOk(c, s1.servers, a) && PutOk(c, s1.servers, b) && Apart(a, b);
    hide Inv, RivalsApart, PutOk, Leads, AcceptedBy, DirectSlots, Acknowledging, Leq;
    AcknowledgingCount(c, s1.servers, a);
    AcknowledgingCount(c, s1.servers, b);
    PrefsCount(c, a.args.key);
    hide Prefs;
    SubsetCount(Acknowledging(a) + Acknowledging(b), Elements(Prefs(c, a.args.key)));
  }
}
