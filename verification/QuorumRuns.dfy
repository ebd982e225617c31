/**
 Two runs of three servers with N = 2, R = 1 and W = 2. In one both replicas acknowledge a write and the next read
 returns it; in the other a hint stands in for a replica and the next read misses the write.
 */
module QuorumRuns {
  import opened Base
  import opened Siblings
  import opened RingState
  import opened RingRuns
  import opened HashRing
  import opened Replica
  import opened Membership
  import opened Coordinator
  import opened Cluster
  import opened ClusterSafety

  const A: Str := [1]
  const B: Str := [2]
  const C: Str := [3]
  const KEY: Str := [7]

  const THREE: Config := Config(Make(2, 3, [A, B, C]), (key: Str) => 0, 1, 2)

  lemma LeadsNowhere(c: Config, s: State)
    ensures Leads(c, s, [], s)
  {
  }

  lemma LeadsOn(c: Config, a: State, run: seq<Step>, b: State, step: Step)
    requires Leads(c, a, run, b) && Enabled(c, b, step)
    ensures Leads(c, a, run + [step], Next(c, b, step))
  {
    LeadsOneStep(c, b, step);
    LeadsThrough(c, a, run, b, [step], Next(c, b, step));
  }

  lemma ThreeSectors()
    ensures Make(2, 3, [A, B, C]).sectorMap == map[0 := A, 1 := B, 2 := C]
  {
    var ids := [A, B, C];
    assert Dealt(ids, 0).1 == map[];
    assert Dealt(ids, 1).1 == map[0 := A];
    assert Dealt(ids, 2).1 == map[0 := A, 1 := B];
  }

  lemma ThreeDistinct()
    ensures Dedup([A, B, C]) == [A, B, C]
  {
    var w := [A, B, C];
    assert w[..2] == [A, B] && [A, B][..1] == [A];
    assert Dedup([A]) == [A];
    assert Dedup([A, B]) == [A, B];
  }

  lemma ThreePrefs()
    ensures Valid(THREE.ring) && THREE.ring.numReplicas == 2 && Prefs(THREE, KEY) == [A, B]
  {
    MadeIsValid(2, 3, [A, B, C]);
    ThreeSectors();
    hide Make, Dealt, Valid;
    var w := Walk(THREE.ring, 0, 3);
    assert w == [A, B, C];
    ThreeDistinct();
    hide Dedup;
    assert PreferenceList(THREE.ring, 0) == [A, B];
  }

  const EMPTY: Server := Server(map[], [], {}, map[])
  const NEW_CONTEXT: Context := Context(map[], 0, [])
  const WRITE: PutArgs := PutArgs(KEY, Object([9], NEW_CONTEXT), NEW_CONTEXT)

  /** A is coordinator; its table says that B is dead and C alive. */
  const LOOKS: seq<Looks> := [Looks(map[], map[]), Looks(map[B := Dead], map[C := Alive])]

  const HANDED_OFF: seq<Plan> := [Plan(A, []), Plan(B, C)]

  lemma OneHint()
    ensures PlansFor([A, B], LOOKS, Elements([A, B]), true) == HANDED_OFF
  {
    var used := Elements([A, B]);
    assert [A, B][1..] == [B] && LOOKS[1..] == [LOOKS[1]] && [B][1..] == [] && LOOKS[1..][1..] == [];
    assert CanHost(LOOKS[1].hosts, used, C);
    HandoffIsFirst(LOOKS[1].hosts, used, C);
    assert Handoff(LOOKS[1].hosts, used) == Some(C);
    assert PlansFor([], [], used + {C}, true) == [];
    assert PlansFor([B], LOOKS[1..], used, true) == [Plan(B, C)] + PlansFor([], [], used + {C}, true);
  }

  const SENT: PutArgs := Stamped(WRITE, A, 5, [1])

  /** The state when the write's calls have had these results, and these have arrived. */
  function Writing(servers: map<Str, Server>, plans: seq<Plan>, executed: seq<Option<Err>>, delivery: seq<Delivery>, acc: PutAcc): State {
    State(servers, map[0 := PutOp(SENT, plans, executed, delivery, acc)], map[], map[])
  }

  lemma IsWriting(s: State, servers: map<Str, Server>, plans: seq<Plan>, executed: seq<Option<Err>>, delivery: seq<Delivery>, acc: PutAcc)
    requires s.servers == servers && s.puts.Keys == {0} && s.gets == map[] && s.replays == map[]
    requires s.puts[0].args == SENT && s.puts[0].plans == plans
    requires s.puts[0].executed == executed && s.puts[0].delivery == delivery && s.puts[0].acc == acc
    ensures s == Writing(servers, plans, executed, delivery, acc)
  {
    assert s.puts == map[0 := s.puts[0]];
  }

  /** A stores the write. */
  const AT_A: Server := Put(Place(THREE), EMPTY, SENT).0

  const START: State := State(map[A := EMPTY, B := EMPTY, C := EMPTY], map[], map[], map[])
  const SERVERS: map<Str, Server> := map[A := AT_A, B := EMPTY, C := Hinted(EMPTY, B, SENT)]
  const DONE: State := Writing(SERVERS, HANDED_OFF, [Some(OK), Some(OK)], [Got, Got], PutAcc(2, 2, 0, 0, Some(OK)))

  lemma FirstPutStored()
    ensures Put(Place(THREE), EMPTY, SENT).1 == OK
  {
  }

  const HALFWAY: State := Writing(START.servers[A := AT_A], HANDED_OFF, [Some(OK), None], [Got, Waiting], PutAcc(1, 1, 0, 0, None))

  lemma DirectAcknowledged() returns (run: seq<Step>)
    ensures Leads(THREE, START, run, HALFWAY)
  {
    ThreePrefs();
    OneHint();
    FirstPutStored();
    var c := THREE;
    hide Prefs, PlansFor, Put, IsRun, Reach, Leads;
    var begin := BeginPut(0, A, WRITE, 5, [1], LOOKS, true);
    LeadsNowhere(c, START);
    run := [];
    LeadsOn(c, START, run, START, begin);
    var s := Next(c, START, begin);
    IsWriting(s, START.servers, HANDED_OFF, [None, None], [Waiting, Waiting], NO_RESULTS);
    run := run + [begin];
    LeadsOn(c, START, run, s, ExecutePut(0, 0));
    run, s := run + [ExecutePut(0, 0)], Next(c, s, ExecutePut(0, 0));
    IsWriting(s, START.servers[A := AT_A], HANDED_OFF, [Some(OK), None], [Waiting, Waiting], NO_RESULTS);
    LeadsOn(c, START, run, s, ReceivePut(0, 0, true));
    run, s := run + [ReceivePut(0, 0, true)], Next(c, s, ReceivePut(0, 0, true));
    IsWriting(s, START.servers[A := AT_A], HANDED_OFF, [Some(OK), None], [Got, Waiting], PutAcc(1, 1, 0, 0, None));
  }

  /** The write is acknowledged by A and, as a hint, by C. */
  lemma WriteAcknowledged() returns (run: seq<Step>)
    ensures Leads(THREE, START, run, DONE)
  {
    run := DirectAcknowledged();
    var c, s := THREE, HALFWAY;
    hide Prefs, PlansFor, Put, IsRun, Reach, Leads;
    LeadsOn(c, START, run, s, ExecutePut(0, 1));
    run, s := run + [ExecutePut(0, 1)], Next(c, s, ExecutePut(0, 1));
    IsWriting(s, SERVERS, HANDED_OFF, [Some(OK), Some(OK)], [Got, Waiting], PutAcc(1, 1, 0, 0, None));
    LeadsOn(c, START, run, s, ReceivePut(0, 1, true));
    run, s := run + [ReceivePut(0, 1, true)], Next(c, s, ReceivePut(0, 1, true));
    IsWriting(s, SERVERS, HANDED_OFF, [Some(OK), Some(OK)], [Got, Got], PutAcc(2, 2, 0, 0, Some(OK)));
  }

  lemma BothAlive()
    ensures Living([A, B], map[A := Alive, B := Alive]) == [A, B]
  {
    var view := map[A := Alive, B := Alive];
    assert [A, B][1..] == [B] && [B][1..] == [];
    assert Living([B], view) == [B];
  }

  /** A later read at B hears from B first. */
  lemma ReadMisses() returns (run: seq<Step>, s: State)
    ensures Leads(THREE, DONE, run, s)
    ensures 0 in s.gets && s.gets[0].key == KEY && s.gets[0].acc.reply == Some(ErrNoKey)
  {
    ThreePrefs();
    BothAlive();
    var c, view := THREE, map[A := Alive, B := Alive];
    hide Prefs, Living, IsRun, Reach, Leads, Put;
    LeadsNowhere(c, DONE);
    run := [];
    LeadsOn(c, DONE, run, DONE, BeginGet(0, B, KEY, view));
    run, s := run + [BeginGet(0, B, KEY, view)], Next(c, DONE, BeginGet(0, B, KEY, view));
    LeadsOn(c, DONE, run, s, ExecuteGet(0, 1));
    s, run := Next(c, s, ExecuteGet(0, 1)), run + [ExecuteGet(0, 1)];
    LeadsOn(c, DONE, run, s, ReceiveGet(0, 1, true));
    s, run := Next(c, s, ReceiveGet(0, 1, true)), run + [ReceiveGet(0, 1, true)];
  }

  /** With R + W > N and an acknowledged write, a later read may still find no key when one acknowledgement was a hint. */
  lemma HintsDoNotCountForReads() returns (run: seq<Step>, s1: State, later: seq<Step>, s2: State)
    ensures Valid(THREE.ring) && THREE.readQuorum + THREE.writeQuorum > THREE.ring.numReplicas
    ensures Initial(START) && Leads(THREE, START, run, s1) && Leads(THREE, s1, later, s2)
    ensures 0 in s1.puts && s1.puts[0].acc.reply == Some(OK) && 0 !in s1.gets
    ensures 0 in s2.gets && s2.gets[0].key == s1.puts[0].args.key && s2.gets[0].acc.reply == Some(ErrNoKey)
  {
    ThreePrefs();
    run := WriteAcknowledged();
    s1 := DONE;
    later, s2 := ReadMisses();
  }

  // ----- both replicas acknowledge

  const DIRECT: seq<Plan> := [Plan(A, []), Plan(B, [])]
  const CLEAR: seq<Looks> := [Looks(map[], map[]), Looks(map[], map[])]

  lemma NoHint()
    ensures PlansFor([A, B], CLEAR, Elements([A, B]), true) == DIRECT
  {
    var used := Elements([A, B]);
    assert [A, B][1..] == [B] && CLEAR[1..] == [CLEAR[1]] && [B][1..] == [] && CLEAR[1..][1..] == [];
    assert PlansFor([], [], used, true) == [];
    assert PlansFor([B], CLEAR[1..], used, true) == [Plan(B, [])] + PlansFor([], [], used, true);
  }

  const BOTH: map<Str, Server> := map[A := AT_A, B := AT_A, C := EMPTY]
  const WRITTEN: State := Writing(BOTH, DIRECT, [Some(OK), Some(OK)], [Got, Got], PutAcc(2, 2, 0, 0, Some(OK)))
  const EXECUTED: State := Writing(BOTH, DIRECT, [Some(OK), Some(OK)], [Waiting, Waiting], NO_RESULTS)

  lemma BothExecuted() returns (run: seq<Step>)
    ensures Leads(THREE, START, run, EXECUTED)
  {
    ThreePrefs();
    NoHint();
    FirstPutStored();
    var c := THREE;
    hide Prefs, PlansFor, Put, IsRun, Reach, Leads;
    var begin := BeginPut(0, A, WRITE, 5, [1], CLEAR, true);
    LeadsNowhere(c, START);
    run := [];
    LeadsOn(c, START, run, START, begin);
    var s := Next(c, START, begin);
    IsWriting(s, START.servers, DIRECT, [None, None], [Waiting, Waiting], NO_RESULTS);
    run := run + [begin];
    LeadsOn(c, START, run, s, ExecutePut(0, 0));
    run, s := run + [ExecutePut(0, 0)], Next(c, s, ExecutePut(0, 0));
    IsWriting(s, START.servers[A := AT_A], DIRECT, [Some(OK), None], [Waiting, Waiting], NO_RESULTS);
    LeadsOn(c, START, run, s, ExecutePut(0, 1));
    run, s := run + [ExecutePut(0, 1)], Next(c, s, ExecutePut(0, 1));
    IsWriting(s, BOTH, DIRECT, [Some(OK), Some(OK)], [Waiting, Waiting], NO_RESULTS);
  }

  lemma BothAcknowledged() returns (run: seq<Step>)
    ensures Leads(THREE, START, run, WRITTEN) && |DirectSlots(WRITTEN.puts[0])| == 2
  {
    run := BothExecuted();
    var c, s := THREE, EXECUTED;
    hide Put, IsRun, Reach, Leads;
    LeadsOn(c, START, run, s, ReceivePut(0, 1, true));
    run, s := run + [ReceivePut(0, 1, true)], Next(c, s, ReceivePut(0, 1, true));
    IsWriting(s, BOTH, DIRECT, [Some(OK), Some(OK)], [Waiting, Got], PutAcc(1, 1, 0, 0, None));
    LeadsOn(c, START, run, s, ReceivePut(0, 0, true));
    run, s := run + [ReceivePut(0, 0, true)], Next(c, s, ReceivePut(0, 0, true));
    IsWriting(s, BOTH, DIRECT, [Some(OK), Some(OK)], [Got, Got], PutAcc(2, 2, 0, 0, Some(OK)));
    assert DirectSlots(WRITTEN.puts[0]) == {0, 1};
  }

  lemma FirstAnswerReplies(answer: GetAnswer)
    requires answer.err == OK
    ensures TakeGet(NO_ANSWERS, Some(answer), 1, 2).reply == Some(OK)
  {
    hide Merge;
  }

  lemma ReadBegun() returns (run: seq<Step>, s: State)
    ensures Leads(THREE, WRITTEN, run, s) && s.servers == BOTH && 0 in s.gets && s.gets[0].key == KEY && s.gets[0].asked == [A, B]
    ensures s.gets[0].executed == [None, None] && s.gets[0].delivery == [Waiting, Waiting] && s.gets[0].acc == NO_ANSWERS
  {
    ThreePrefs();
    BothAlive();
    var begin := BeginGet(0, B, KEY, map[A := Alive, B := Alive]);
    hide Prefs, Living, IsRun, Reach, Leads, Put;
    LeadsNowhere(THREE, WRITTEN);
    run := [];
    LeadsOn(THREE, WRITTEN, run, WRITTEN, begin);
    run, s := run + [begin], Next(THREE, WRITTEN, begin);
  }

  lemma ReadAnswers() returns (run: seq<Step>, s: State)
    ensures Leads(THREE, WRITTEN, run, s)
    ensures 0 in s.gets && s.gets[0].key == KEY && s.gets[0].acc.reply == Some(OK)
  {
    FirstPutStored();
    assert KEY in AT_A.kv && Answer(AT_A, KEY).err == OK;
    var c := THREE;
    FirstAnswerReplies(Answer(AT_A, KEY));
    run, s := ReadBegun();
    hide IsRun, Reach, Leads, Put, Answer, TakeGet;
    LeadsOn(c, WRITTEN, run, s, ExecuteGet(0, 1));
    s, run := Next(c, s, ExecuteGet(0, 1)), run + [ExecuteGet(0, 1)];
    LeadsOn(c, WRITTEN, run, s, ReceiveGet(0, 1, true));
    s, run := Next(c, s, ReceiveGet(0, 1, true)), run + [ReceiveGet(0, 1, true)];
  }

  /** A run to which durability and read-after-write apply: the read returns the write. */
  lemma DirectRunReads() returns (run: seq<Step>, s1: State, later: seq<Step>, s2: State)
    ensures Initial(START) && Leads(THREE, START, run, s1) && Leads(THREE, s1, later, s2)
    ensures 0 in s1.puts && s1.puts[0].acc.reply == Some(OK) && |DirectSlots(s1.puts[0])| >= THREE.writeQuorum
    ensures 0 !in s1.gets && 0 in s2.gets && s2.gets[0].key == s1.puts[0].args.key
    ensures s2.gets[0].acc.reply == Some(OK) && Covers(s2.gets[0].acc.siblings, Clock(s1.puts[0].args.obj))
  {
    ThreePrefs();
    run := BothAcknowledged();
    s1 := WRITTEN;
    later, s2 := ReadAnswers();
    hide Leads, Covers, DirectSlots;
    ReadAfterWrite(THREE, START, run, s1, later, s2, 0, 0);
  }
}
