/** A run in which two coordinators write on one context, each acknowledged by its own replica, and a later read sees both. */
module RaceRun {
  import opened Base
  import opened VectorClock
  import opened Siblings
  import opened RingState
  import opened Replica
  import opened Coordinator
  import opened Cluster
  import opened ClusterSafety
  import opened QuorumRuns
  import opened WriteRaces
  import LaterReads

  /** The same three servers with R = 2 and W = 1. */
  const RACE: Config := THREE.(readQuorum := 2, writeQuorum := 1)

  const OTHER: PutArgs := PutArgs(KEY, Object([8], NEW_CONTEXT), NEW_CONTEXT)
  const BY_A: Step := BeginPut(0, A, WRITE, 5, [1], CLEAR, true)
  const BY_B: Step := BeginPut(1, B, OTHER, 6, [2], CLEAR, true)

  /** B stores the other write. */
  const AT_B: Server := Put(Place(RACE), EMPTY, Stamped(OTHER, B, 6, [2])).0

  lemma RacePrefs()
    ensures Valid(RACE.ring) && RACE.ring.numReplicas == 2 && Prefs(RACE, KEY) == [A, B]
  {
    ThreePrefs();
    assert SectorOf(RACE, KEY) == SectorOf(THREE, KEY);
  }

  predicate Begun(op: PutOp, args: PutArgs) {
    op == PutOp(args, DIRECT, [None, None], [Waiting, Waiting], NO_RESULTS)
  }

  lemma BothBegun() returns (run: seq<Step>, s: State)
    ensures run == [BY_A, BY_B] && Leads(RACE, START, run, s) && s.servers == START.servers && s.gets == map[] && s.replays == map[]
    ensures s.puts.Keys == {0, 1} && Begun(s.puts[0], SENT) && Begun(s.puts[1], Stamped(OTHER, B, 6, [2]))
  {
    RacePrefs();
    NoHint();
    var c := RACE;
    hide Prefs, PlansFor, Put, IsRun, Reach, Leads, Stamped;
    LeadsNowhere(c, START);
    LeadsOn(c, START, [], START, BY_A);
    var mid := Next(c, START, BY_A);
    LeadsOn(c, START, [] + [BY_A], mid, BY_B);
    run, s := [] + [BY_A] + [BY_B], Next(c, mid, BY_B);
  }

  /** The slot's call was executed and answered OK, and the answer has come. */
  lemma Acknowledged(s: State, id: nat, i: nat, args: PutArgs, x: Str, t: Server) returns (run: seq<Step>, s': State)
    requires id in s.puts && i < 2 && Begun(s.puts[id], args) && DIRECT[i] == Plan(x, []) && x in s.servers
    requires Put(Place(RACE), s.servers[x], args) == (t, OK)
    ensures Leads(RACE, s, run, s') && s'.servers == s.servers[x := t] && s'.gets == s.gets && s'.puts.Keys == s.puts.Keys
    ensures s'.puts[id].args == args && i in DirectSlots(s'.puts[id]) && forall j | j in s.puts && j != id :: s'.puts[j] == s.puts[j]
  {
    var c := RACE;
    hide Put, IsRun, Reach, Leads, Prefs, PlansFor;
    var execute, receive := ExecutePut(id, i), ReceivePut(id, i, true);
    LeadsNowhere(c, s);
    LeadsOn(c, s, [], s, execute);
    var mid := Next(c, s, execute);
    LeadsOn(c, s, [] + [execute], mid, receive);
    run, s' := [] + [execute] + [receive], Next(c, mid, receive);
  }

  lemma BothStored()
    ensures Put(Place(RACE), EMPTY, SENT) == (AT_A, OK) && Put(Place(RACE), EMPTY, Stamped(OTHER, B, 6, [2])) == (AT_B, OK)
    ensures KEY in AT_A.kv && KEY in AT_B.kv
  {
  }

  lemma BothWritten() returns (run: seq<Step>, s: State)
    ensures Leads(RACE, START, run, s) && BY_A in run && BY_B in run && s.gets == map[] && s.puts.Keys == {0, 1}
    ensures s.servers == START.servers[A := AT_A][B := AT_B] && 0 in DirectSlots(s.puts[0]) && 1 in DirectSlots(s.puts[1])
  {
    BothStored();
    var c := RACE;
    hide Put, IsRun, Reach, Leads, Prefs, DirectSlots, Stamped;
    var begun, s0 := BothBegun();
    var first, s1 := Acknowledged(s0, 0, 0, SENT, A, AT_A);
    var second, s2 := Acknowledged(s1, 1, 1, Stamped(OTHER, B, 6, [2]), B, AT_B);
    LeadsThrough(c, START, begun, s0, first, s1);
    LeadsThrough(c, START, begun + first, s1, second, s2);
    run, s := begun + first + second, s2;
    assert BY_A == begun[0] && BY_B == begun[1];
  }

  lemma TwoAnswers(a: GetAnswer, b: GetAnswer)
    requires a.err == OK && b.err == OK
    ensures var one := TakeGet(NO_ANSWERS, Some(a), 2, 2); one.reply.None? && TakeGet(one, Some(b), 2, 2).reply == Some(OK)
  {
    hide Merge;
  }

  /** A read of both replicas answers OK. */
  lemma ReadBoth(s: State) returns (run: seq<Step>, t: State)
    requires s.gets == map[] && A in s.servers && B in s.servers && KEY in s.servers[A].kv && KEY in s.servers[B].kv
    ensures Leads(RACE, s, run, t) && 0 in t.gets && t.gets[0].key == KEY && t.gets[0].acc.reply == Some(OK)
  {
    var c := RACE;
    RacePrefs();
    TwoAnswers(Answer(s.servers[A], KEY), Answer(s.servers[B], KEY));
    assert Answer(s.servers[A], KEY).err == OK && Answer(s.servers[B], KEY).err == OK;
    hide IsRun, Reach, Leads, Prefs, TakeGet, Answer;
    var begin, s0 := LaterReads.ReadAll(c, s, 0, KEY);
    var run1, s1 := OneAnswer(s0, 0);
    var run2, s2 := OneAnswer(s1, 1);
    LeadsThrough(c, s, begin, s0, run1, s1);
    LeadsThrough(c, s, begin + run1, s1, run2, s2);
    run, t := begin + run1 + run2, s2;
  }

  lemma OneAnswer(s: State, i: nat) returns (run: seq<Step>, t: State)
    requires 0 in s.gets && i < |s.gets[0].asked| == |s.gets[0].executed| == |s.gets[0].delivery| && s.gets[0].asked[i] in s.servers
    requires s.gets[0].executed[i].None? && s.gets[0].delivery[i] == Waiting && s.gets[0].acc.reply.None?
    ensures Leads(RACE, s, run, t) && t.servers == s.servers && 0 in t.gets
    ensures var a, b := s.gets[0], t.gets[0];
      && b.key == a.key && b.asked == a.asked && |b.executed| == |a.executed| && |b.delivery| == |a.delivery|
      && (forall j | 0 <= j < |a.asked| && j != i :: b.executed[j] == a.executed[j] && b.delivery[j] == a.delivery[j])
      && b.acc == TakeGet(a.acc, Some(Answer(s.servers[a.asked[i]], a.key)), RACE.readQuorum, |a.asked|)
  {
    var c := RACE;
    hide IsRun, Reach, Leads, Prefs, TakeGet, Answer;
    LeadsNowhere(c, s);
    LeadsOn(c, s, [], s, ExecuteGet(0, i));
    var mid := Next(c, s, ExecuteGet(0, i));
    LeadsOn(c, s, [] + [ExecuteGet(0, i)], mid, ReceiveGet(0, i, true));
    run, t := [] + [ExecuteGet(0, i)] + [ReceiveGet(0, i, true)], Next(c, mid, ReceiveGet(0, i, true));
  }

  /** The hypotheses of `BothRead` are met, and the read knows both of the concurrent writes. */
  lemma RaceExists() returns (run: seq<Step>, s1: State, later: seq<Step>, s2: State)
    ensures Initial(START) && Leads(RACE, START, run, s1) && Leads(RACE, s1, later, s2) && 0 in s1.puts && 1 in s1.puts
    ensures 0 !in s1.gets && 0 in s2.gets && s2.gets[0].key == KEY && s2.gets[0].acc.reply == Some(OK)
    ensures var v, w := Clock(s1.puts[0].args.obj), Clock(s1.puts[1].args.obj);
      Cmp(v, w) == Concurrent && Covers(s2.gets[0].acc.siblings, v) && Covers(s2.gets[0].acc.siblings, w)
  {
    RacePrefs();
    BothStored();
    run, s1 := BothWritten();
    hide Leads, Covers, Put, Prefs, DirectSlots;
    later, s2 := ReadBoth(s1);
    SomeSlot(DirectSlots(s1.puts[0]), 0);
    SomeSlot(DirectSlots(s1.puts[1]), 1);
    BothRead(RACE, START, run, s1, later, s2, BY_A, BY_B, 0);
  }

  lemma SomeSlot(slots: set<nat>, i: nat)
    requires i in slots
    ensures |slots| >= 1
  {
    SubsetCount({i}, slots);
  }
}
