/**
 The cluster as a state machine. Every forwarded call is a slot of the operation that made it: the
 server may execute it at any time, the coordinator may receive the answer, lose it, or give up
 before the call is executed, in any order. Merges are single steps and nothing is deleted.
 */
module Cluster {
  import opened Base
  import opened Siblings
  import opened RingState
  import opened HashRing
  import opened Replica
  import opened Membership
  import opened Coordinator

  datatype Config = Config(ring: Ring, hash: Str -> uint32, readQuorum: int, writeQuorum: int)

  function SectorOf(c: Config, key: Str): (nat, nat) { Location(c.ring.numSectors, c.hash(key)) }

  function Place(c: Config): Placement { (key: Str) => SectorOf(c, key) }

  function Prefs(c: Config, key: Str): seq<Str> {
    if SectorOf(c, key).0 < c.ring.numSectors then PreferenceList(c.ring, SectorOf(c, key).0) else []
  }

  /** A call's answer has not come, was lost, or has been received. */
  datatype Delivery = Waiting | Lost | Got

  datatype PutOp = PutOp(args: PutArgs, plans: seq<Plan>, executed: seq<Option<Err>>, delivery: seq<Delivery>, acc: PutAcc)

  datatype GetOp = GetOp(key: Str, asked: seq<Str>, executed: seq<Option<GetAnswer>>, delivery: seq<Delivery>, acc: GetAcc)

  /** A hint on its way from its holder to its target. */
  datatype Replay = Replay(holder: Str, target: Str, hint: PutArgs, executed: Option<Err>, finished: bool)

  datatype State = State(servers: map<Str, Server>, puts: map<nat, PutOp>, gets: map<nat, GetOp>, replays: map<nat, Replay>)

  datatype Step =
    | BeginPut(id: nat, coordinator: Str, args: PutArgs, now: nat, etag: Str, looks: seq<Looks>, handoffEnabled: bool)
    | ExecutePut(id: nat, i: nat)
    | ReceivePut(id: nat, i: nat, delivered: bool)
    | BeginGet(id: nat, coordinator: Str, key: Str, view: View)
    | ExecuteGet(id: nat, i: nat)
    | ReceiveGet(id: nat, i: nat, delivered: bool)
    | Repair(server: Str, key: Str, objects: seq<Object>)
    | BeginReplay(id: nat, holder: Str, target: Str, hint: PutArgs)
    | ExecuteReplay(id: nat)
    | FinishReplay(id: nat, delivered: bool)

  function Fill<T>(n: nat, x: T): seq<T> { seq(n, _ => x) }

  /** The arguments as the coordinator forwards them: the object's clock incremented, the base untouched. */
  function Stamped(args: PutArgs, coordinator: Str, now: nat, etag: Str): PutArgs {
    args.(obj := args.obj.(context := Updated(args.obj.context, coordinator, now, etag)))
  }

  ghost predicate Enabled(c: Config, s: State, step: Step) {
    match step
    case BeginPut(id, coordinator, args, now, etag, looks, on) =>
      id !in s.puts && coordinator in Prefs(c, args.key) && |looks| == |Prefs(c, args.key)|
      && |PlansFor(Prefs(c, args.key), looks, Elements(Prefs(c, args.key)), on)| >= c.writeQuorum
    case ExecutePut(id, i) =>
      id in s.puts && i < |s.puts[id].executed| && s.puts[id].executed[i].None?
      && i < |s.puts[id].plans| && Receiver(s.puts[id].plans[i]) in s.servers
    case ReceivePut(id, i, delivered) =>
      id in s.puts && s.puts[id].acc.reply.None? && i < |s.puts[id].delivery| && s.puts[id].delivery[i] == Waiting
      && (delivered ==> i < |s.puts[id].executed| && s.puts[id].executed[i].Some?)
    case BeginGet(id, coordinator, key, view) =>
      id !in s.gets && coordinator in Prefs(c, key) && |Living(Prefs(c, key), view)| >= c.readQuorum
    case ExecuteGet(id, i) =>
      id in s.gets && i < |s.gets[id].executed| && s.gets[id].executed[i].None?
      && i < |s.gets[id].asked| && s.gets[id].asked[i] in s.servers
    case ReceiveGet(id, i, delivered) =>
      id in s.gets && s.gets[id].acc.reply.None? && i < |s.gets[id].delivery| && s.gets[id].delivery[i] == Waiting
      && (delivered ==> i < |s.gets[id].executed| && s.gets[id].executed[i].Some?)
    case Repair(server, key, objects) => server in s.servers
    case BeginReplay(id, holder, target, hint) =>
      id !in s.replays && holder in s.servers && hint in HintsFor(s.servers[holder], target)
    case ExecuteReplay(id) => id in s.replays && s.replays[id].executed.None? && s.replays[id].target in s.servers
    case FinishReplay(id, delivered) =>
      id in s.replays && !s.replays[id].finished && s.replays[id].holder in s.servers
      && (delivered ==> s.replays[id].executed.Some?)
  }

  /** The server side of a plan: a put at the target, or a hint at the handoff node. */
  function PlanEffect(c: Config, s: Server, p: Plan, args: PutArgs): (Server, Err) {
    if p.handoff != [] then (Hinted(s, p.target, args), OK) else Put(Place(c), s, args)
  }

  function Answer(s: Server, key: Str): GetAnswer {
    GetAnswer(if key in s.kv then OK else ErrNoKey, Stored(s, key))
  }

  function PutReceived(c: Config, op: PutOp, i: nat, delivered: bool): PutOp
    requires i < |op.delivery| && (delivered ==> i < |op.executed|)
  {
    op.(delivery := op.delivery[i := if delivered then Got else Lost],
        acc := TakePut(op.acc, if delivered then op.executed[i] else None, c.writeQuorum, |op.plans|))
  }

  function GetReceived(c: Config, op: GetOp, i: nat, delivered: bool): GetOp
    requires i < |op.delivery| && (delivered ==> i < |op.executed|)
  {
    op.(delivery := op.delivery[i := if delivered then Got else Lost],
        acc := TakeGet(op.acc, if delivered then op.executed[i] else None, c.readQuorum, |op.asked|))
  }

  ghost function Next(c: Config, s: State, step: Step): State
    requires Enabled(c, s, step)
  {
    match step
    case BeginPut(id, coordinator, args, now, etag, looks, on) =>
      var plans := PlansFor(Prefs(c, args.key), looks, Elements(Prefs(c, args.key)), on);
      s.(puts := s.puts[id := PutOp(Stamped(args, coordinator, now, etag), plans, Fill(|plans|, None), Fill(|plans|, Waiting), NO_RESULTS)])
    case ExecutePut(id, i) =>
      var op := s.puts[id];
      var at := Receiver(op.plans[i]);
      var (server, err) := PlanEffect(c, s.servers[at], op.plans[i], op.args);
      s.(servers := s.servers[at := server], puts := s.puts[id := op.(executed := op.executed[i := Some(err)])])
    case ReceivePut(id, i, delivered) => s.(puts := s.puts[id := PutReceived(c, s.puts[id], i, delivered)])
    case BeginGet(id, coordinator, key, view) =>
      var asked := Living(Prefs(c, key), view);
      s.(gets := s.gets[id := GetOp(key, asked, Fill(|asked|, None), Fill(|asked|, Waiting), NO_ANSWERS)])
    case ExecuteGet(id, i) =>
      var op := s.gets[id];
      s.(gets := s.gets[id := op.(executed := op.executed[i := Some(Answer(s.servers[op.asked[i]], op.key))])])
    case ReceiveGet(id, i, delivered) => s.(gets := s.gets[id := GetReceived(c, s.gets[id], i, delivered)])
    case Repair(server, key, objects) =>
      s.(servers := s.servers[server := Merged(Place(c), s.servers[server], key, objects)])
    case BeginReplay(id, holder, target, hint) => s.(replays := s.replays[id := Replay(holder, target, hint, None, false)])
    case ExecuteReplay(id) =>
      var r := s.replays[id];
      var (server, err) := Put(Place(c), s.servers[r.target], r.hint);
      s.(servers := s.servers[r.target := server], replays := s.replays[id := r.(executed := Some(err))])
    case FinishReplay(id, delivered) =>
      var r := s.replays[id];
      var rest := s.(replays := s.replays[id := r.(finished := true)]);
      if delivered && r.executed == Some(OK)
      then rest.(servers := s.servers[r.holder := Unhinted(s.servers[r.holder], r.target, r.hint)]) else rest
  }

  ghost predicate IsRun(c: Config, s: State, run: seq<Step>)
    decreases run
  {
    run == [] || (Enabled(c, s, run[0]) && IsRun(c, Next(c, s, run[0]), run[1..]))
  }

  ghost function Reach(c: Config, s: State, run: seq<Step>): State
    requires IsRun(c, s, run)
    decreases run
  {
    if run == [] then s else Reach(c, Next(c, s, run[0]), run[1..])
  }

  /** The run takes the cluster from one state to the other. */
  ghost predicate Leads(c: Config, a: State, run: seq<Step>, b: State) { IsRun(c, a, run) && Reach(c, a, run) == b }

  lemma {:induction false} LeadsThrough(c: Config, a: State, run: seq<Step>, b: State, further: seq<Step>, d: State)
    requires Leads(c, a, run, b) && Leads(c, b, further, d)
    ensures Leads(c, a, run + further, d)
    decreases run
  {
    hide Next, Enabled;
    if run == [] {
      assert run + further == further;
    } else {
      LeadsThrough(c, Next(c, a, run[0]), run[1..], b, further, d);
      assert (run + further)[1..] == run[1..] + further;
    }
  }

  lemma LeadsOneStep(c: Config, a: State, step: Step)
    requires Enabled(c, a, step)
    ensures Leads(c, a, [step], Next(c, a, step))
  {
    hide Next, Enabled;
    assert [step][1..] == [];
    assert Reach(c, Next(c, a, step), []) == Next(c, a, step);
  }

  /** No operation has begun; servers may hold data and hints from before. */
  ghost predicate Initial(s: State) {
    s.puts == map[] && s.gets == map[] && s.replays == map[]
  }
}
