/**
 Every interleaving of one server's steps. mergeObjectsCore computes under the lock, releases it,
 and installs later (src/kvsrv/server.go:672-693); other steps may come in between.
 */
module StoreRuns {
  import opened Base
  import opened VectorClock
  import opened Siblings
  import opened Replica

  /** A merge that has computed its result but not installed it. */
  datatype Pending = Pending(key: Str, objects: seq<Object>)

  datatype State = State(server: Server, pending: seq<Pending>)

  datatype Step =
    | DoPut(args: PutArgs)
    | ComputeMerge(key: Str, incoming: seq<Object>)
    | FinishMerge(i: nat)
    | DoDelete(key: Str)
    | DoHint(target: Str, args: PutArgs)

  predicate Enabled(s: State, step: Step) {
    match step
    case DoPut(args) => WellFormedPut(args)
    case FinishMerge(i) => i < |s.pending|
    case _ => true
  }

  function Next(at: Placement, s: State, step: Step): State
    requires Enabled(s, step)
  {
    match step
    case DoPut(args) => s.(server := Put(at, s.server, args).0)
    case ComputeMerge(key, incoming) =>
      if Changes(Stored(s.server, key), incoming)
      then s.(pending := s.pending + [Pending(key, Merge(Stored(s.server, key), incoming))]) else s
    case FinishMerge(i) =>
      State(Install(at, s.server, s.pending[i].key, s.pending[i].objects), s.pending[..i] + s.pending[i + 1..])
    case DoDelete(key) => s.(server := Install(at, s.server, key, []))
    case DoHint(target, args) => s.(server := Hinted(s.server, target, args))
  }

  predicate AllEnabled(at: Placement, s: State, run: seq<Step>)
    decreases run
  {
    run == [] || (Enabled(s, run[0]) && AllEnabled(at, Next(at, s, run[0]), run[1..]))
  }

  function Reach(at: Placement, s: State, run: seq<Step>): State
    requires AllEnabled(at, s, run)
    decreases run
  {
    if run == [] then s else Reach(at, Next(at, s, run[0]), run[1..])
  }

  ghost predicate Good(at: Placement, s: State) {
    && StoreOk(at, s.server)
    && forall i | 0 <= i < |s.pending| :: GoodSiblings(s.pending[i].objects)
  }

  lemma StepKeepsStore(at: Placement, s: State, step: Step)
    requires Good(at, s) && Enabled(s, step)
    ensures Good(at, Next(at, s, step))
  {
    match step {
      case DoPut(args) => PutKeeps(at, s.server, args);
      case ComputeMerge(key, incoming) =>
        if Changes(Stored(s.server, key), incoming) { MergedSiblingsGood(at, s.server, key, incoming); }
      case FinishMerge(i) => InstallKeeps(at, s.server, s.pending[i].key, s.pending[i].objects);
      case DoDelete(key) => InstallKeeps(at, s.server, key, []);
      case DoHint(target, args) => HintKeeps(at, s.server, target, args);
    }
  }

  lemma HintKeeps(at: Placement, s: Server, target: Str, args: PutArgs)
    requires StoreOk(at, s)
    ensures StoreOk(at, Hinted(s, target, args))
  {
  }

  /** In every run, whatever is interleaved with a merge, the siblings stay sorted antichains and the index exact. */
  lemma {:induction false} RunKeepsStore(at: Placement, s: State, run: seq<Step>)
    requires Good(at, s) && AllEnabled(at, s, run)
    ensures Good(at, Reach(at, s, run))
    decreases run
  {
    if run != [] {
      StepKeepsStore(at, s, run[0]);
      RunKeepsStore(at, Next(at, s, run[0]), run[1..]);
    }
  }

  /** An empty server with every bucket in place. */
  function EmptyServer(sectors: nat, buckets: nat): Server {
    Server(map[], seq(sectors, _ => seq(buckets, _ => [])), {}, map[])
  }

  lemma EmptyIsGood(at: Placement, sectors: nat, buckets: nat)
    requires forall key: Str :: at(key).0 < sectors && at(key).1 < buckets
    ensures Good(at, State(EmptyServer(sectors, buckets), []))
  {
  }

  // ----- rolling back

  /** Nothing that the key covers is lost. */
  ghost predicate NoRollback(before: seq<Object>, after: seq<Object>) {
    forall v: VClock :: Covers(before, v) ==> Covers(after, v)
  }

  /** If nothing came in between, the install is the second half of a merge and loses nothing. */
  lemma UninterruptedMergeKeeps(at: Placement, s: State, key: Str, incoming: seq<Object>)
    requires Changes(Stored(s.server, key), incoming)
    ensures var run := [ComputeMerge(key, incoming), FinishMerge(|s.pending|)];
      && AllEnabled(at, s, run)
      && Reach(at, s, run) == State(Merged(at, s.server, key, incoming), s.pending)
      && NoRollback(Stored(s.server, key), Stored(Reach(at, s, run).server, key))
  {
    var c, f := ComputeMerge(key, incoming), FinishMerge(|s.pending|);
    var run, mid := [c, f], Next(at, s, c);
    var last := Next(at, mid, f);
    assert run[1..] == [f] && [f][1..] == [];
    assert last.pending == s.pending;
    assert AllEnabled(at, last, []);
    assert AllEnabled(at, mid, [f]);
    assert Reach(at, mid, [f]) == Reach(at, last, []) == last;
    forall v: VClock | Covers(Stored(s.server, key), v) ensures Covers(Stored(last.server, key), v) {
      MergedCovers(at, s.server, key, incoming, key, v);
    }
  }

  /** With a put in between, the put is acknowledged and then gone. */
  lemma InterruptedMergeRollsBack(at: Placement, sectors: nat, buckets: nat)
    requires forall key: Str :: at(key).0 < sectors && at(key).1 < buckets
    ensures exists key: Str, x: Object, args: PutArgs ::
      var s := State(EmptyServer(sectors, buckets), []);
      var run := [ComputeMerge(key, [x]), DoPut(args), FinishMerge(0)];
      && AllEnabled(at, s, run)
      && Put(at, Next(at, s, run[0]).server, args).1 == OK
      && !Covers(Stored(Reach(at, s, run).server, key), Clock(args.obj))
  {
    var key: Str, a: Str, b: Str := [7], [1], [2];
    var x := Object([], Context(map[a := 1], 1, [9]));
    var y := Object([], Context(map[b := 1], 2, [9]));
    var args := PutArgs(key, y, Context(map[], 0, []));
    var s := State(EmptyServer(sectors, buckets), []);
    var c, p, f := ComputeMerge(key, [x]), DoPut(args), FinishMerge(0);
    var run := [c, p, f];
    assert CanBeAdded([x][0], []);
    assert Merge([], [x]) == [x] by {
      assert AddIfNew([], x) == [x] && [x][1..] == [];
      assert Merge([x], []) == [x];
    }
    var s1 := Next(at, s, c);
    assert s1.pending == [Pending(key, [x])];
    var s2 := Next(at, s1, p);
    var s3 := Next(at, s2, f);
    assert run[1..] == [p, f] && [p, f][1..] == [f] && [f][1..] == [];
    assert AllEnabled(at, s3, []) && AllEnabled(at, s2, [f]) && AllEnabled(at, s1, [p, f]);
    assert Reach(at, s, run) == Reach(at, s1, [p, f]) == Reach(at, s2, [f]) == Reach(at, s3, []) == s3;
    assert Stored(s3.server, key) == [x];
    CoversOne(x, Clock(y));
    assert b in Clock(y);
  }
}
