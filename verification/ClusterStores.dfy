/** The store invariant at every server of the cluster, over whole runs. */
module ClusterStores {
  import opened Base
  import opened VectorClock
  import opened Siblings
  import opened HashRing
  import opened Replica
  import opened Membership
  import opened Coordinator
  import opened Cluster
  import StoreRuns

  /** Clients send back, as object context, the context they write on (src/kvsrv/client.go). */
  ghost predicate ClientStep(step: Step) {
    step.BeginPut? ==> step.args.obj.context == step.args.base
  }

  predicate HintsOk(s: Server) {
    forall t | t in s.hints :: forall i | 0 <= i < |s.hints[t]| :: WellFormedPut(s.hints[t][i])
  }

  ghost predicate ServerOk(at: Placement, s: Server) { StoreOk(at, s) && HintsOk(s) }

  ghost predicate StoresOk(c: Config, s: State) {
    && (forall id | id in s.servers :: ServerOk(Place(c), s.servers[id]))
    && (forall id | id in s.puts :: WellFormedPut(s.puts[id].args))
    && (forall id | id in s.replays :: WellFormedPut(s.replays[id].hint))
  }

  /** What the coordinator forwards is strictly after what the client wrote on. */
  lemma StampedIsWellFormed(args: PutArgs, coordinator: Str, now: nat, etag: Str)
    requires args.obj.context == args.base
    ensures WellFormedPut(Stamped(args, coordinator, now, etag))
    ensures Cmp(args.base.vc, Clock(Stamped(args, coordinator, now, etag).obj)) == Before
  {
    IncrementIsAfter(args.base.vc, coordinator);
  }

  lemma PutServerOk(at: Placement, s: Server, args: PutArgs)
    requires ServerOk(at, s) && WellFormedPut(args)
    ensures ServerOk(at, Put(at, s, args).0)
  {
    PutKeeps(at, s, args);
    hide StoreOk;
  }

  lemma MergedServerOk(at: Placement, s: Server, key: Str, objects: seq<Object>)
    requires ServerOk(at, s)
    ensures ServerOk(at, Merged(at, s, key, objects))
  {
    MergedKeeps(at, s, key, objects);
    MergedStored(at, s, key, objects, key);
    hide StoreOk, Merged;
  }

  lemma HintedServerOk(at: Placement, s: Server, target: Str, args: PutArgs)
    requires ServerOk(at, s) && WellFormedPut(args)
    ensures ServerOk(at, Hinted(s, target, args))
  {
    var t := Hinted(s, target, args);
    assert StoreOk(at, t);
    hide StoreOk, WellFormedPut;
    forall x, i | x in t.hints && 0 <= i < |t.hints[x]| ensures WellFormedPut(t.hints[x][i]) {
      if x == target && i < |HintsFor(s, target)| { assert t.hints[x][i] == HintsFor(s, target)[i]; }
    }
  }

  lemma {:induction false} RemovedFrom(hs: seq<PutArgs>, m: PutArgs)
    requires forall i | 0 <= i < |hs| :: WellFormedPut(hs[i])
    ensures forall i | 0 <= i < |RemoveHintFrom(hs, m)| :: WellFormedPut(RemoveHintFrom(hs, m)[i])
  {
    hide WellFormedPut, SameHint;
    if hs != [] { RemovedFrom(hs[1..], m); }
  }

  lemma UnhintedServerOk(at: Placement, s: Server, target: Str, m: PutArgs)
    requires ServerOk(at, s)
    ensures ServerOk(at, Unhinted(s, target, m))
  {
    assert StoreOk(at, Unhinted(s, target, m));
    RemovedFrom(HintsFor(s, target), m);
    hide StoreOk, WellFormedPut, RemoveHintFrom, HasHint;
  }

  lemma ServerReplaced(c: Config, s: State, id: Str, t: Server)
    requires StoresOk(c, s) && ServerOk(Place(c), t)
    ensures StoresOk(c, s.(servers := s.servers[id := t]))
  {
    hide ServerOk, WellFormedPut;
  }

  lemma PutStepStores(c: Config, s: State, step: Step)
    requires StoresOk(c, s) && Enabled(c, s, step) && ClientStep(step) && (step.BeginPut? || step.ExecutePut? || step.ReceivePut?)
    ensures StoresOk(c, Next(c, s, step))
  {
    hide ServerOk, WellFormedPut, Prefs, PlansFor, Put, Hinted, TakePut;
    match step
    case BeginPut(id, coordinator, args, now, etag, looks, on) =>
      StampedIsWellFormed(args, coordinator, now, etag);
    case ExecutePut(id, i) =>
      var op := s.puts[id];
      var at := Receiver(op.plans[i]);
      if op.plans[i].handoff != [] {
        HintedServerOk(Place(c), s.servers[at], op.plans[i].target, op.args);
      } else {
        PutServerOk(Place(c), s.servers[at], op.args);
      }
    case ReceivePut(id, i, delivered) =>
  }

  lemma HintIsWellFormed(at: Placement, s: Server, target: Str, hint: PutArgs)
    requires ServerOk(at, s) && hint in HintsFor(s, target)
    ensures WellFormedPut(hint)
  {
  }

  lemma ReplayStepStores(c: Config, s: State, step: Step)
    requires StoresOk(c, s) && Enabled(c, s, step) && (step.BeginReplay? || step.ExecuteReplay? || step.FinishReplay?)
    ensures StoresOk(c, Next(c, s, step))
  {
    hide ServerOk, WellFormedPut, Put, Unhinted;
    match step
    case BeginReplay(id, holder, target, hint) =>
      HintIsWellFormed(Place(c), s.servers[holder], target, hint);
    case ExecuteReplay(id) =>
      var r := s.replays[id];
      PutServerOk(Place(c), s.servers[r.target], r.hint);
    case FinishReplay(id, delivered) =>
      var r := s.replays[id];
      UnhintedServerOk(Place(c), s.servers[r.holder], r.target, r.hint);
  }

  lemma StepKeepsStores(c: Config, s: State, step: Step)
    requires StoresOk(c, s) && Enabled(c, s, step) && ClientStep(step)
    ensures StoresOk(c, Next(c, s, step))
  {
    if step.BeginPut? || step.ExecutePut? || step.ReceivePut? {
      PutStepStores(c, s, step);
    } else if step.BeginReplay? || step.ExecuteReplay? || step.FinishReplay? {
      ReplayStepStores(c, s, step);
    } else if step.Repair? {
      hide ServerOk, WellFormedPut, Merged;
      MergedServerOk(Place(c), s.servers[step.server], step.key, step.objects);
      ServerReplaced(c, s, step.server, Merged(Place(c), s.servers[step.server], step.key, step.objects));
    } else {
      hide ServerOk, WellFormedPut, Prefs, Living, TakeGet, Answer;
    }
  }

  /**
   In every run of the cluster whose writes come from clients, every server stores under each key a non-empty,
   timestamp-sorted antichain, and lists each stored key exactly once, in the bucket where the ring puts it.
   */
  lemma {:induction false} RunKeepsStores(c: Config, s: State, run: seq<Step>)
    requires StoresOk(c, s) && IsRun(c, s, run) && forall i | 0 <= i < |run| :: ClientStep(run[i])
    ensures StoresOk(c, Reach(c, s, run))
    decreases run
  {
    if run != [] {
      hide StoresOk, Next, Enabled, ClientStep;
      StepKeepsStores(c, s, run[0]);
      RunKeepsStores(c, Next(c, s, run[0]), run[1..]);
    }
  }

  /** A cluster of new servers, as MakeKVServer leaves them. */
  function NewCluster(c: Config, ids: set<Str>): State {
    State(map id | id in ids :: StoreRuns.EmptyServer(c.ring.numSectors, BUCKETS), map[], map[], map[])
  }

  lemma NewClusterOk(c: Config, ids: set<Str>)
    requires c.ring.numSectors >= 1
    ensures StoresOk(c, NewCluster(c, ids)) && Initial(NewCluster(c, ids))
  {
    forall key: Str ensures Place(c)(key).0 < c.ring.numSectors && Place(c)(key).1 < BUCKETS {
      LocationInRange(c.ring.numSectors, c.hash(key));
    }
    hide Location;
    StoreRuns.EmptyIsGood(Place(c), c.ring.numSectors, BUCKETS);
  }
}
