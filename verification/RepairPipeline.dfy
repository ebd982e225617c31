/**
 Who reads which reply channel (src/kvsrv/readrepair.go:28-113, src/kvsrv/server.go:199-280). Every get has one
 channel with as many results as it forwarded calls; the right to read it passes from the coordinator through the
 coalescing map and the queue to a worker, or to a drain. Timers may fire at any time, also after they were stopped.
 */
module RepairPipeline {
  import opened Base

  const WORKERS: nat := 5
  const QUEUE_CAPACITY: nat := 128

  /** One get: `total` calls were forwarded, `sent` results are or were in the channel, `consumed` were read, `left` its owner still expects. */
  datatype Job = Job(key: Str, total: nat, sent: nat, consumed: nat, left: nat)

  datatype State = State(
    jobs: map<nat, Job>,
    coordinators: set<nat>,
    coalesce: map<Str, nat>,
    queue: seq<nat>,
    workers: map<nat, nat>,
    drains: multiset<nat>,
    stopped: bool)

  datatype Step =
    | Begin(id: nat, key: Str, total: nat)
    | Arrive(id: nat)
    | CoordinatorReads(id: nat)
    | CoordinatorFails(id: nat)
    | CoordinatorDrains(id: nat)
    | Schedule(id: nat)
    | TimerFires(id: nat)
    | TakeJob(worker: nat)
    | WorkerReads(worker: nat)
    | WorkerDone(worker: nat)
    | DrainReads(id: nat)
    | DrainDone(id: nat)
    | Stop
    | DrainEntry(key: Str)
    | DrainQueued

  predicate Readable(s: State, id: nat) {
    id in s.jobs && s.jobs[id].left > 0 && s.jobs[id].consumed < s.jobs[id].sent
  }

  predicate AllRead(s: State, id: nat) { id in s.jobs && s.jobs[id].left == 0 }

  predicate Enabled(s: State, step: Step) {
    match step
    case Begin(id, _, _) => id !in s.jobs
    case Arrive(id) => id in s.jobs && s.jobs[id].sent < s.jobs[id].total
    case CoordinatorReads(id) => id in s.coordinators && Readable(s, id)
    case CoordinatorFails(id) => id in s.coordinators && AllRead(s, id)
    case CoordinatorDrains(id) => id in s.coordinators
    case Schedule(id) => id in s.coordinators && id in s.jobs
    case TimerFires(id) => id in s.jobs
    case TakeJob(w) => w < WORKERS && w !in s.workers && s.queue != []
    case WorkerReads(w) => w in s.workers && Readable(s, s.workers[w])
    case WorkerDone(w) => w in s.workers && AllRead(s, s.workers[w])
    case DrainReads(id) => id in s.drains && Readable(s, id)
    case DrainDone(id) => id in s.drains && AllRead(s, id)
    case Stop => true
    case DrainEntry(key) => s.stopped && key in s.coalesce
    case DrainQueued => s.stopped && s.queue != []
  }

  function Read(s: State, id: nat): State
    requires Readable(s, id)
  {
    s.(jobs := s.jobs[id := s.jobs[id].(consumed := s.jobs[id].consumed + 1, left := s.jobs[id].left - 1)])
  }

  function Drained(s: State, id: nat): State { s.(drains := s.drains + multiset{id}) }

  /** scheduleReadRepair: a job that waits under the same key is displaced and drained. */
  function Scheduled(s: State, id: nat): State
    requires id in s.jobs
  {
    var key := s.jobs[id].key;
    var s' := if key in s.coalesce then Drained(s, s.coalesce[key]) else s;
    s'.(coordinators := s.coordinators - {id}, coalesce := s.coalesce[key := id])
  }

  /** tryFlushReadRepairCoalesceKey: only the job that is still waiting may enter the queue, and only if there is room. */
  function Flushed(s: State, id: nat): State
    requires id in s.jobs
  {
    var key := s.jobs[id].key;
    if key !in s.coalesce || s.coalesce[key] != id || |s.queue| >= QUEUE_CAPACITY then s
    else s.(queue := s.queue + [id], coalesce := s.coalesce - {key})
  }

  function Next(s: State, step: Step): State
    requires Enabled(s, step)
  {
    match step
    case Begin(id, key, total) =>
      s.(jobs := s.jobs[id := Job(key, total, 0, 0, total)], coordinators := s.coordinators + {id})
    case Arrive(id) => s.(jobs := s.jobs[id := s.jobs[id].(sent := s.jobs[id].sent + 1)])
    case CoordinatorReads(id) => Read(s, id)
    case CoordinatorFails(id) => s.(coordinators := s.coordinators - {id})
    case CoordinatorDrains(id) => Drained(s, id).(coordinators := s.coordinators - {id})
    case Schedule(id) => Scheduled(s, id)
    case TimerFires(id) => Flushed(s, id)
    case TakeJob(w) => s.(workers := s.workers[w := s.queue[0]], queue := s.queue[1..])
    case WorkerReads(w) => Read(s, s.workers[w])
    case WorkerDone(w) => s.(workers := s.workers - {w})
    case DrainReads(id) => Read(s, id)
    case DrainDone(id) => s.(drains := s.drains - multiset{id})
    case Stop => s.(stopped := true)
    case DrainEntry(key) => Drained(s, s.coalesce[key]).(coalesce := s.coalesce - {key})
    case DrainQueued => Drained(s, s.queue[0]).(queue := s.queue[1..])
  }

  predicate IsRun(s: State, run: seq<Step>)
    decreases run
  {
    run == [] || (Enabled(s, run[0]) && IsRun(Next(s, run[0]), run[1..]))
  }

  function Reach(s: State, run: seq<Step>): State
    requires IsRun(s, run)
    decreases run
  {
    if run == [] then s else Reach(Next(s, run[0]), run[1..])
  }

  const EMPTY: State := State(map[], {}, map[], [], map[], multiset{}, false)

  // ----- exactly one owner

  datatype Place = AtCoordinator | AtKey(key: Str) | AtQueue | AtWorker(worker: nat) | AtDrain

  /** How often a job occurs at a place. */
  function Times(s: State, id: nat, p: Place): nat {
    match p
    case AtCoordinator => if id in s.coordinators then 1 else 0
    case AtKey(key) => if key in s.coalesce && s.coalesce[key] == id then 1 else 0
    case AtQueue => multiset(s.queue)[id]
    case AtWorker(w) => if w in s.workers && s.workers[w] == id then 1 else 0
    case AtDrain => s.drains[id]
  }

  /** Where each unfinished job is: there, once, and nowhere else. */
  predicate LocatedAt(s: State, at: map<nat, Place>, id: nat, p: Place) {
    Times(s, id, p) == if id in at && at[id] == p then 1 else 0
  }

  ghost predicate Located(s: State, at: map<nat, Place>) {
    forall id: nat, p: Place :: LocatedAt(s, at, id, p)
  }

  predicate JobOk(j: Job) { j.consumed + j.left == j.total && j.consumed <= j.sent <= j.total }

  /** Only jobs have places, a waiting job is under its own key, and a job without a place has been read to the end. */
  predicate Sound(s: State, at: map<nat, Place>) {
    && (forall id | id in at :: id in s.jobs && (at[id].AtKey? ==> at[id].key == s.jobs[id].key))
    && (forall id | id in s.jobs :: JobOk(s.jobs[id]) && (id !in at ==> s.jobs[id].left == 0))
    && |s.queue| <= QUEUE_CAPACITY
    && forall w | w in s.workers :: w < WORKERS
  }

  lemma WhereIs(s: State, at: map<nat, Place>, id: nat, p: Place)
    requires Located(s, at) && Times(s, id, p) > 0
    ensures id in at && at[id] == p && Times(s, id, p) == 1
  {
    assert LocatedAt(s, at, id, p);
  }

  /** Nothing changes hands. */
  lemma StayLocated(s: State, t: State, at: map<nat, Place>)
    requires Located(s, at)
    requires t.coordinators == s.coordinators && t.coalesce == s.coalesce && t.queue == s.queue
    requires t.workers == s.workers && t.drains == s.drains
    ensures Located(t, at)
  {
    forall x: nat, p: Place ensures LocatedAt(t, at, x, p) { assert LocatedAt(s, at, x, p); }
  }

  lemma QueueHead(queue: seq<nat>)
    requires queue != []
    ensures forall x: nat :: multiset(queue[1..])[x] == multiset(queue)[x] - if x == queue[0] then 1 else 0
  {
    assert queue == [queue[0]] + queue[1..];
  }

  // ----- each way a job changes hands

  lemma CoordinatorLeaves(s: State, at: map<nat, Place>, id: nat)
    requires Located(s, at) && id in s.coordinators
    ensures id in at && at[id] == AtCoordinator
    ensures Located(s.(coordinators := s.coordinators - {id}), at - {id})
    ensures Located(Drained(s, id).(coordinators := s.coordinators - {id}), at[id := AtDrain])
  {
    WhereIs(s, at, id, AtCoordinator);
    var t, gone := s.(coordinators := s.coordinators - {id}), at - {id};
    forall x: nat, p: Place ensures LocatedAt(t, gone, x, p) { assert LocatedAt(s, at, x, p); }
    var u, at' := Drained(s, id).(coordinators := s.coordinators - {id}), at[id := AtDrain];
    forall x: nat, p: Place ensures LocatedAt(u, at', x, p) { assert LocatedAt(s, at, x, p); }
  }

  lemma EntryDrained(s: State, at: map<nat, Place>, key: Str)
    requires Located(s, at) && key in s.coalesce
    ensures var id := s.coalesce[key];
      && id in at && at[id] == AtKey(key)
      && Located(Drained(s, id).(coalesce := s.coalesce - {key}), at[id := AtDrain])
  {
    var id := s.coalesce[key];
    WhereIs(s, at, id, AtKey(key));
    var t := Drained(s, id).(coalesce := s.coalesce - {key});
    var at' := at[id := AtDrain];
    forall x: nat, p: Place ensures LocatedAt(t, at', x, p) { assert LocatedAt(s, at, x, p); }
  }

  lemma Waits(s: State, at: map<nat, Place>, id: nat, key: Str)
    requires Located(s, at) && id in s.coordinators && key !in s.coalesce
    ensures id in at && at[id] == AtCoordinator
    ensures Located(s.(coordinators := s.coordinators - {id}, coalesce := s.coalesce[key := id]), at[id := AtKey(key)])
  {
    WhereIs(s, at, id, AtCoordinator);
    var t := s.(coordinators := s.coordinators - {id}, coalesce := s.coalesce[key := id]);
    var at' := at[id := AtKey(key)];
    forall x: nat, p: Place ensures LocatedAt(t, at', x, p) { assert LocatedAt(s, at, x, p); }
  }

  lemma EntryQueued(s: State, at: map<nat, Place>, id: nat, key: Str)
    requires Located(s, at) && key in s.coalesce && s.coalesce[key] == id
    ensures id in at && at[id] == AtKey(key)
    ensures Located(s.(queue := s.queue + [id], coalesce := s.coalesce - {key}), at[id := AtQueue])
  {
    WhereIs(s, at, id, AtKey(key));
    var t := s.(queue := s.queue + [id], coalesce := s.coalesce - {key});
    var at' := at[id := AtQueue];
    forall x: nat, p: Place ensures LocatedAt(t, at', x, p) { assert LocatedAt(s, at, x, p); }
  }

  lemma QueueFront(s: State, at: map<nat, Place>)
    requires Located(s, at) && s.queue != []
    ensures s.queue[0] in at && at[s.queue[0]] == AtQueue && Times(s, s.queue[0], AtQueue) == 1
  {
    assert s.queue[0] in multiset(s.queue);
    WhereIs(s, at, s.queue[0], AtQueue);
  }

  lemma QueueServed(s: State, at: map<nat, Place>, w: nat)
    requires Located(s, at) && s.queue != [] && w !in s.workers
    ensures var id := s.queue[0];
      Located(s.(workers := s.workers[w := id], queue := s.queue[1..]), at[id := AtWorker(w)])
  {
    var id := s.queue[0];
    QueueHead(s.queue);
    QueueFront(s, at);
    var t, at' := s.(workers := s.workers[w := id], queue := s.queue[1..]), at[id := AtWorker(w)];
    forall x: nat, p: Place ensures LocatedAt(t, at', x, p) { assert LocatedAt(s, at, x, p); }
    hide Times, LocatedAt;
  }

  lemma QueueDrained(s: State, at: map<nat, Place>)
    requires Located(s, at) && s.queue != []
    ensures Located(Drained(s, s.queue[0]).(queue := s.queue[1..]), at[s.queue[0] := AtDrain])
  {
    QueueHead(s.queue);
    QueueFront(s, at);
    var t, at' := Drained(s, s.queue[0]).(queue := s.queue[1..]), at[s.queue[0] := AtDrain];
    forall x: nat, p: Place ensures LocatedAt(t, at', x, p) { assert LocatedAt(s, at, x, p); }
    hide Times, LocatedAt;
  }

  lemma WorkerLeaves(s: State, at: map<nat, Place>, w: nat)
    requires Located(s, at) && w in s.workers
    ensures s.workers[w] in at && at[s.workers[w]] == AtWorker(w)
    ensures Located(s.(workers := s.workers - {w}), at - {s.workers[w]})
  {
    var id := s.workers[w];
    WhereIs(s, at, id, AtWorker(w));
    var t, gone := s.(workers := s.workers - {w}), at - {id};
    forall x: nat, p: Place ensures LocatedAt(t, gone, x, p) { assert LocatedAt(s, at, x, p); }
  }

  lemma DrainLeaves(s: State, at: map<nat, Place>, id: nat)
    requires Located(s, at) && id in s.drains
    ensures id in at && at[id] == AtDrain
    ensures Located(s.(drains := s.drains - multiset{id}), at - {id})
  {
    WhereIs(s, at, id, AtDrain);
    var t, gone := s.(drains := s.drains - multiset{id}), at - {id};
    forall x: nat, p: Place ensures LocatedAt(t, gone, x, p) { assert LocatedAt(s, at, x, p); }
  }

  lemma Enters(s: State, at: map<nat, Place>, id: nat, job: Job)
    requires Located(s, at) && id !in at
    ensures Located(s.(jobs := s.jobs[id := job], coordinators := s.coordinators + {id}), at[id := AtCoordinator])
  {
    var t := s.(jobs := s.jobs[id := job], coordinators := s.coordinators + {id});
    var at' := at[id := AtCoordinator];
    forall x: nat, p: Place ensures LocatedAt(t, at', x, p) { assert LocatedAt(s, at, x, p); }
  }

  lemma ScheduleLocated(s: State, at: map<nat, Place>, id: nat) returns (at': map<nat, Place>)
    requires Located(s, at) && Sound(s, at) && id in s.coordinators && id in s.jobs
    ensures Located(Scheduled(s, id), at') && Sound(Scheduled(s, id), at')
  {
    var key := s.jobs[id].key;
    if key in s.coalesce {
      var displaced := s.coalesce[key];
      EntryDrained(s, at, key);
      var s1 := Drained(s, displaced).(coalesce := s.coalesce - {key});
      Waits(s1, at[displaced := AtDrain], id, key);
      at' := at[displaced := AtDrain][id := AtKey(key)];
      assert s1.coalesce[key := id] == s.coalesce[key := id];
    } else {
      Waits(s, at, id, key);
      at' := at[id := AtKey(key)];
    }
    hide Located;
  }

  lemma ReadLocated(s: State, at: map<nat, Place>, id: nat)
    requires Located(s, at) && Sound(s, at) && Readable(s, id)
    ensures Located(Read(s, id), at) && Sound(Read(s, id), at)
  {
    StayLocated(s, Read(s, id), at);
    hide Located;
  }

  lemma CoordinatorStep(s: State, at: map<nat, Place>, step: Step) returns (at': map<nat, Place>)
    requires Located(s, at) && Sound(s, at) && Enabled(s, step)
    requires step.Begin? || step.CoordinatorFails? || step.CoordinatorDrains? || step.Schedule?
    ensures Located(Next(s, step), at') && Sound(Next(s, step), at')
  {
    hide Located, Times;
    match step
    case Begin(id, key, total) =>
      Enters(s, at, id, Job(key, total, 0, 0, total));
      at' := at[id := AtCoordinator];
    case CoordinatorFails(id) =>
      CoordinatorLeaves(s, at, id);
      at' := at - {id};
    case CoordinatorDrains(id) =>
      CoordinatorLeaves(s, at, id);
      at' := at[id := AtDrain];
    case Schedule(id) => at' := ScheduleLocated(s, at, id);
  }

  lemma PipelineStep(s: State, at: map<nat, Place>, step: Step) returns (at': map<nat, Place>)
    requires Located(s, at) && Sound(s, at) && Enabled(s, step)
    requires step.TimerFires? || step.TakeJob? || step.DrainEntry? || step.DrainQueued?
    ensures Located(Next(s, step), at') && Sound(Next(s, step), at')
  {
    hide Located, Times;
    match step
    case TimerFires(id) =>
      at' := at;
      if Flushed(s, id) != s {
        EntryQueued(s, at, id, s.jobs[id].key);
        at' := at[id := AtQueue];
      }
    case TakeJob(w) =>
      QueueFront(s, at);
      QueueServed(s, at, w);
      at' := at[s.queue[0] := AtWorker(w)];
    case DrainEntry(key) =>
      EntryDrained(s, at, key);
      at' := at[s.coalesce[key] := AtDrain];
    case DrainQueued =>
      QueueFront(s, at);
      QueueDrained(s, at);
      at' := at[s.queue[0] := AtDrain];
  }

  lemma ReaderStep(s: State, at: map<nat, Place>, step: Step) returns (at': map<nat, Place>)
    requires Located(s, at) && Sound(s, at) && Enabled(s, step)
    requires step.Arrive? || step.CoordinatorReads? || step.WorkerReads? || step.DrainReads? || step.WorkerDone? || step.DrainDone? || step.Stop?
    ensures Located(Next(s, step), at') && Sound(Next(s, step), at')
  {
    at' := at;
    hide Located, Times;
    match step
    case Arrive(id) => StayLocated(s, Next(s, step), at);
    case CoordinatorReads(id) => ReadLocated(s, at, id);
    case WorkerReads(w) => ReadLocated(s, at, s.workers[w]);
    case DrainReads(id) => ReadLocated(s, at, id);
    case WorkerDone(w) =>
      WorkerLeaves(s, at, w);
      at' := at - {s.workers[w]};
    case DrainDone(id) =>
      DrainLeaves(s, at, id);
      at' := at - {id};
    case Stop => StayLocated(s, Next(s, step), at);
  }

  /** Every step keeps every unfinished job at exactly one place. */
  lemma StepKeepsOwners(s: State, at: map<nat, Place>, step: Step) returns (at': map<nat, Place>)
    requires Located(s, at) && Sound(s, at) && Enabled(s, step)
    ensures Located(Next(s, step), at') && Sound(Next(s, step), at')
  {
    hide Located, Sound, Next;
    if step.Begin? || step.CoordinatorFails? || step.CoordinatorDrains? || step.Schedule? {
      at' := CoordinatorStep(s, at, step);
    } else if step.TimerFires? || step.TakeJob? || step.DrainEntry? || step.DrainQueued? {
      at' := PipelineStep(s, at, step);
    } else {
      at' := ReaderStep(s, at, step);
    }
  }

  lemma {:induction false} RunKeepsOwners(s: State, at: map<nat, Place>, run: seq<Step>) returns (at': map<nat, Place>)
    requires Located(s, at) && Sound(s, at) && IsRun(s, run)
    ensures Located(Reach(s, run), at') && Sound(Reach(s, run), at')
    decreases run
  {
    if run == [] {
      at' := at;
    } else {
      var next := StepKeepsOwners(s, at, run[0]);
      hide Located, Sound, Next, Enabled;
      at' := RunKeepsOwners(Next(s, run[0]), next, run[1..]);
    }
  }

  /** The right to read a job's channel is in one place and there once. */
  ghost predicate OwnedOnce(s: State, id: nat) {
    exists p: Place :: Times(s, id, p) == 1 && forall q: Place | q != p :: Times(s, id, q) == 0
  }

  ghost predicate Unowned(s: State, id: nat) { forall p: Place :: Times(s, id, p) == 0 }

  lemma OwnersCounted(s: State, at: map<nat, Place>, id: nat)
    requires Located(s, at)
    ensures if id in at then OwnedOnce(s, id) else Unowned(s, id)
  {
    forall p: Place ensures Times(s, id, p) == if id in at && at[id] == p then 1 else 0 {
      assert LocatedAt(s, at, id, p);
      hide Times;
    }
    hide Times;
    if id in at { assert Times(s, id, at[id]) == 1; }
  }

  lemma EmptyLocated()
    ensures Located(EMPTY, map[]) && Sound(EMPTY, map[])
  {
  }

  /**
   In every reachable state a job is owned exactly once, or no longer at all because everything was read; results
   read and results still expected add up to the calls forwarded; the queue and the workers keep their bounds.
   */
  lemma Ownership(run: seq<Step>, id: nat)
    requires IsRun(EMPTY, run)
    ensures var s := Reach(EMPTY, run);
      && |s.queue| <= QUEUE_CAPACITY && |s.workers| <= WORKERS
      && (id !in s.jobs ==> Unowned(s, id))
      && (id in s.jobs ==> JobOk(s.jobs[id]) && (OwnedOnce(s, id) || (Unowned(s, id) && s.jobs[id].consumed == s.jobs[id].total)))
  {
    EmptyLocated();
    var at := RunKeepsOwners(EMPTY, map[], run);
    var s := Reach(EMPTY, run);
    hide IsRun, Reach, Times, Located, OwnedOnce, Unowned;
    SubsetCount(s.workers.Keys, Below(WORKERS));
    OwnersCounted(s, at, id);
  }

  // ----- where a job goes next

  /** What a step does to the job that waits under a key. */
  predicate WaitingGoes(s: State, step: Step, key: Str, t: State)
    requires key in s.coalesce
  {
    var id := s.coalesce[key];
    if step == TimerFires(id) && |s.queue| < QUEUE_CAPACITY then t.queue == s.queue + [id] && key !in t.coalesce
    else if step.Schedule? && step.id in s.jobs && s.jobs[step.id].key == key then
      t.drains[id] == s.drains[id] + 1 && key in t.coalesce && t.coalesce[key] == step.id
    else if step == DrainEntry(key) then t.drains[id] == s.drains[id] + 1 && key !in t.coalesce
    else key in t.coalesce && t.coalesce[key] == id
  }

  /**
   A waiting job enters the queue when its own timer fires and there is room, is drained when a newer job of its key is
   scheduled or at shutdown, and waits on through every other step, also through the timers of jobs it displaced.
   */
  lemma WaitingJob(s: State, at: map<nat, Place>, step: Step, key: Str)
    requires Located(s, at) && Sound(s, at) && Enabled(s, step) && key in s.coalesce
    ensures WaitingGoes(s, step, key, Next(s, step))
  {
    var id := s.coalesce[key];
    WhereIs(s, at, id, AtKey(key));
    hide Located, Times, Readable, AllRead;
  }

  /** What a step does to the job at position i of the queue. */
  predicate QueuedGoes(s: State, step: Step, i: nat, t: State)
    requires i < |s.queue|
  {
    if step.TakeJob? && i == 0 then step.worker in t.workers && t.workers[step.worker] == s.queue[i]
    else if step.DrainQueued? && i == 0 then t.drains[s.queue[i]] == s.drains[s.queue[i]] + 1
    else
      var j := if step.TakeJob? || step.DrainQueued? then i - 1 else i;
      j < |t.queue| && t.queue[j] == s.queue[i]
  }

  /** The queue is first in, first out: its head goes to a worker, or at shutdown to a drain, and the others move up. */
  lemma QueuedJob(s: State, step: Step, i: nat)
    requires Enabled(s, step) && i < |s.queue|
    ensures QueuedGoes(s, step, i, Next(s, step))
  {
  }

  /** With an idle worker and an empty queue, a scheduled job whose timer fires is taken up. */
  lemma ScheduledIsTaken(s: State, id: nat, w: nat)
    requires id in s.coordinators && id in s.jobs && s.queue == [] && w < WORKERS && w !in s.workers
    ensures var run := [Schedule(id), TimerFires(id), TakeJob(w)];
      IsRun(s, run) && w in Reach(s, run).workers && Reach(s, run).workers[w] == id && Reach(s, run).queue == []
  {
    var a, b, d := Schedule(id), TimerFires(id), TakeJob(w);
    var s1 := Next(s, a);
    var s2 := Next(s1, b);
    assert s2.queue == [id];
    var s3 := Next(s2, d);
    assert [a, b, d][1..] == [b, d] && [b, d][1..] == [d] && [d][1..] == [];
    assert IsRun(s3, []) && IsRun(s2, [d]) && IsRun(s1, [b, d]);
    assert Reach(s, [a, b, d]) == Reach(s1, [b, d]) == Reach(s2, [d]) == Reach(s3, []) == s3;
  }

  /** An owner never waits for a result that cannot come: what it still expects is in the channel or will be. */
  lemma NoOwnerStarves(run: seq<Step>, id: nat)
    requires IsRun(EMPTY, run) && id in Reach(EMPTY, run).jobs
    ensures var j := Reach(EMPTY, run).jobs[id]; j.left == (j.sent - j.consumed) + (j.total - j.sent) && j.sent >= j.consumed
  {
    Ownership(run, id);
  }

  // ----- the shared structures

  /** The keys under which a job waits. */
  function KeysOf(coalesce: map<Str, nat>, id: nat): set<Str> { set k | k in coalesce && coalesce[k] == id }

  lemma KeyTaken(coalesce: map<Str, nat>, key: Str, id: nat)
    requires key in coalesce
    ensures |KeysOf(coalesce, id)| == |KeysOf(coalesce - {key}, id)| + if coalesce[key] == id then 1 else 0
  {
    if coalesce[key] == id {
      assert KeysOf(coalesce, id) == KeysOf(coalesce - {key}, id) + {key};
    } else {
      assert KeysOf(coalesce, id) == KeysOf(coalesce - {key}, id);
    }
  }

  /** The coalescing map and the job queue of one server, and the drains that were started. */
  class Pipeline {
    var coalesce: map<Str, nat>
    var queue: seq<nat>
    var drains: multiset<nat>
    var drainedOnce: bool

    ghost predicate Shows(s: State)
      reads this
    {
      coalesce == s.coalesce && queue == s.queue && drains == s.drains
    }

    constructor ()
      ensures Shows(EMPTY) && !drainedOnce
    {
      coalesce, queue, drains, drainedOnce := map[], [], multiset{}, false;
    }

    method ScheduleReadRepair(id: nat, key: Str, ghost s: State)
      requires Shows(s) && id in s.jobs && s.jobs[id].key == key
      modifies `coalesce, `drains
      ensures Shows(Scheduled(s, id))
    {
      if key in coalesce {
        drains := drains + multiset{coalesce[key]};
        coalesce := coalesce - {key};
      }
      coalesce := coalesce[key := id];
      assert coalesce == s.coalesce[key := id];
    }

    method TryFlushReadRepairCoalesceKey(key: Str, expected: nat, ghost s: State) returns (flushed: bool)
      requires Shows(s) && expected in s.jobs && s.jobs[expected].key == key
      modifies `coalesce, `queue
      ensures Shows(Flushed(s, expected))
      ensures flushed <==> key in old(coalesce) && old(coalesce)[key] == expected && |old(queue)| < QUEUE_CAPACITY
    {
      if key !in coalesce || coalesce[key] != expected { return false; }
      if |queue| < QUEUE_CAPACITY {
        queue := queue + [expected];
        coalesce := coalesce - {key};
        return true;
      }
      return false;
    }

    /** Everything that waits or is queued gets exactly one drain; a second call does nothing. */
    method DrainReadRepairPipeline()
      modifies this
      ensures drainedOnce
      ensures old(drainedOnce) ==> coalesce == old(coalesce) && queue == old(queue) && drains == old(drains)
      ensures !old(drainedOnce) ==> coalesce == map[] && queue == []
      ensures !old(drainedOnce) ==> forall id: nat ::
        drains[id] == old(drains)[id] + |KeysOf(old(coalesce), id)| + multiset(old(queue))[id]
    {
      if drainedOnce { return; }
      drainedOnce := true;
      var left := coalesce;
      while left.Keys != {}
        invariant drainedOnce && queue == old(queue)
        invariant forall id: nat :: drains[id] + |KeysOf(left, id)| == old(drains)[id] + |KeysOf(old(coalesce), id)|
        decreases |left.Keys|
      {
        var key :| key in left.Keys;
        forall id: nat { KeyTaken(left, key, id); }
        assert (left - {key}).Keys == left.Keys - {key};
        drains := drains + multiset{left[key]};
        left := left - {key};
      }
      forall id: nat ensures KeysOf(left, id) == {} {}
      coalesce := map[];
      ghost var before := drains;
      while queue != []
        invariant drainedOnce && coalesce == map[]
        invariant forall id: nat :: drains[id] + multiset(queue)[id] == before[id] + multiset(old(queue))[id]
        decreases |queue|
      {
        QueueHead(queue);
        drains := drains + multiset{queue[0]};
        queue := queue[1..];
      }
    }
  }
}
