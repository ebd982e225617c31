/**
 Exactly when no later read misses a write: as long as fewer than R members of the key's preference list lack it.
 For the other half a read is built whose first R answers all come from members that lack the write.
 */
module LaterReads {
  import opened Base
  import opened VectorClock
  import opened Siblings
  import opened SiblingAlgebra
  import opened RingState
  import opened Replica
  import opened Membership
  import opened Coordinator
  import opened Cluster
  import opened ClusterInvariant
  import opened ClusterSteps
  import opened ClusterSafety

  // ----- collecting answers of one kind

  /** The coordinator has n answers so far, all of this kind, and none of them knows the write. */
  predicate Collecting(acc: GetAcc, err: Err, n: nat, v: VClock) {
    && acc.received == n && acc.reply.None? && !Covers(acc.siblings, v)
    && acc.successCount == (if err == OK then n else 0) && acc.noKeyCount == (if err == OK then 0 else n)
  }

  lemma TakeOneMore(acc: GetAcc, answer: GetAnswer, err: Err, n: nat, v: VClock, r: int, total: nat)
    requires Collecting(acc, err, n, v) && answer.err == err && err in {OK, ErrNoKey} && !Covers(answer.objects, v)
    requires n < r <= total
    ensures var next := TakeGet(acc, Some(answer), r, total);
      && !Covers(next.siblings, v)
      && (n + 1 < r ==> Collecting(next, err, n + 1, v)) && (n + 1 == r ==> next.reply == Some(err))
  {
    MergeCovers(acc.siblings, answer.objects, v);
    hide Covers, Merge;
  }

  /** A slot of the read that has not been used, at a server whose answer would be of this kind and without the write. */
  predicate Usable(s: State, op: GetOp, i: nat, err: Err, v: VClock) {
    && i < |op.asked| == |op.executed| == |op.delivery| && op.executed[i].None? && op.delivery[i] == Waiting
    && op.asked[i] in s.servers
    && Answer(s.servers[op.asked[i]], op.key).err == err && !Covers(Answer(s.servers[op.asked[i]], op.key).objects, v)
  }

  /** The state after the server of a slot has answered and the coordinator has received it. */
  lemma OneAnswer(c: Config, s: State, g: nat, i: nat, err: Err, v: VClock, n: nat) returns (run: seq<Step>, t: State)
    requires g in s.gets && Usable(s, s.gets[g], i, err, v) && err in {OK, ErrNoKey}
    requires Collecting(s.gets[g].acc, err, n, v) && n < c.readQuorum <= |s.gets[g].asked|
    ensures run == [ExecuteGet(g, i), ReceiveGet(g, i, true)] && Leads(c, s, run, t) && t.servers == s.servers && g in t.gets
    ensures var op, done := s.gets[g], t.gets[g];
      && done.key == op.key && done.asked == op.asked && !Covers(done.acc.siblings, v)
      && |done.executed| == |op.executed| && |done.delivery| == |op.delivery|
      && (forall j | 0 <= j < |op.asked| && j != i :: done.executed[j] == op.executed[j] && done.delivery[j] == op.delivery[j])
      && (n + 1 < c.readQuorum ==> Collecting(done.acc, err, n + 1, v)) && (n + 1 == c.readQuorum ==> done.acc.reply == Some(err))
  {
    var op := s.gets[g];
    var answer := Answer(s.servers[op.asked[i]], op.key);
    TakeOneMore(op.acc, answer, err, n, v, c.readQuorum, |op.asked|);
    hide Answer, TakeGet, Covers, Leads;
    var mid := Next(c, s, ExecuteGet(g, i));
    LeadsOneStep(c, s, ExecuteGet(g, i));
    t := Next(c, mid, ReceiveGet(g, i, true));
    LeadsOneStep(c, mid, ReceiveGet(g, i, true));
    LeadsThrough(c, s, [ExecuteGet(g, i)], mid, [ReceiveGet(g, i, true)], t);
    run := [ExecuteGet(g, i)] + [ReceiveGet(g, i, true)];
  }

  predicate OnlyReads(run: seq<Step>) {
    forall i | 0 <= i < |run| :: run[i].BeginGet? || run[i].ExecuteGet? || run[i].ReceiveGet?
  }

  /** The answers of these slots arrive one after the other, until there are R. */
  lemma {:induction false} AllAnswers(c: Config, s: State, g: nat, slots: seq<nat>, err: Err, v: VClock, n: nat) returns (run: seq<Step>, t: State)
    requires g in s.gets && slots != [] && Distinct(slots) && err in {OK, ErrNoKey}
    requires forall j | 0 <= j < |slots| :: Usable(s, s.gets[g], slots[j], err, v)
    requires Collecting(s.gets[g].acc, err, n, v) && n + |slots| == c.readQuorum <= |s.gets[g].asked|
    ensures Leads(c, s, run, t) && OnlyReads(run) && g in t.gets && t.gets[g].key == s.gets[g].key
    ensures t.gets[g].acc.reply == Some(err) && !Covers(t.gets[g].acc.siblings, v)
    decreases slots
  {
    var first, mid := OneAnswer(c, s, g, slots[0], err, v, n);
    if |slots| == 1 {
      run, t := first, mid;
    } else {
      var rest := slots[1..];
      forall j | 0 <= j < |rest| ensures Usable(mid, mid.gets[g], rest[j], err, v) {
        assert rest[j] == slots[j + 1];
        assert Usable(s, s.gets[g], slots[j + 1], err, v);
        hide Answer, Covers, Leads;
      }
      hide Usable, Leads, Collecting, Covers;
      var further;
      further, t := AllAnswers(c, mid, g, rest, err, v, n + 1);
      LeadsThrough(c, s, first, mid, further, t);
      run := first + further;
    }
  }

  // ----- starting the read

  lemma {:induction false} AllLiving(prefs: seq<Str>, view: View)
    requires forall x | x in prefs :: x in view && view[x] != Dead
    ensures Living(prefs, view) == prefs
  {
    if prefs != [] {
      AllLiving(prefs[1..], view);
      assert prefs == [prefs[0]] + prefs[1..];
    }
  }

  function Alone(prefs: seq<Str>): View { map x | x in prefs :: Alive }

  /** A read that asks the whole preference list. */
  lemma ReadAll(c: Config, s: State, g: nat, key: Str) returns (run: seq<Step>, t: State)
    requires g !in s.gets && Prefs(c, key) != [] && |Prefs(c, key)| >= c.readQuorum
    ensures Leads(c, s, run, t) && OnlyReads(run) && t.servers == s.servers && g in t.gets
    ensures var op := t.gets[g];
      && op.key == key && op.asked == Prefs(c, key) && op.acc == NO_ANSWERS && |op.executed| == |op.delivery| == |op.asked|
      && forall i | 0 <= i < |op.asked| :: op.executed[i].None? && op.delivery[i] == Waiting
  {
    var prefs := Prefs(c, key);
    var begin := BeginGet(g, prefs[0], key, Alone(prefs));
    AllLiving(prefs, Alone(prefs));
    hide Prefs, Living, Leads;
    LeadsOneStep(c, s, begin);
    run, t := [begin], Next(c, s, begin);
  }

  lemma {:induction false} Pick(s: set<nat>, n: nat) returns (r: seq<nat>)
    requires n <= |s|
    ensures |r| == n && Distinct(r) && forall x | x in r :: x in s
    decreases n
  {
    if n == 0 {
      r := [];
    } else {
      var x :| x in s;
      var rest := Pick(s - {x}, n - 1);
      DistinctCons(x, rest);
      r := [x] + rest;
    }
  }

  /** n slots of a list whose servers are in the set. */
  lemma PickSlots(prefs: seq<Str>, among: set<Str>, n: nat) returns (slots: seq<nat>)
    requires Distinct(prefs) && among <= Elements(prefs) && n <= |among|
    ensures |slots| == n && Distinct(slots) && forall j | 0 <= j < n :: slots[j] < |prefs| && prefs[slots[j]] in among
  {
    var all := set i: nat | i < |prefs| && prefs[i] in among;
    ServersCounted(all, prefs);
    forall x | x in among ensures x in ServersAt(all, prefs) {
      assert x in Elements(prefs);
      var i :| 0 <= i < |prefs| && prefs[i] == x;
      assert i in all;
    }
    SubsetCount(among, ServersAt(all, prefs));
    slots := Pick(all, n);
    forall j | 0 <= j < n ensures slots[j] in all { assert slots[j] in slots; }
  }

  lemma FreshId(used: set<nat>) returns (g: nat)
    ensures g !in used
  {
    if Below(|used| + 1) <= used {
      SubsetCount(Below(|used| + 1), used);
      assert false;
    }
    g :| g in Below(|used| + 1) && g !in used;
  }

  /** Members of the preference list whose answer would be of this kind and without the write. */
  ghost function Alike(c: Config, servers: Servers, key: Str, v: VClock, err: Err): set<Str> {
    set x | x in Lacking(c, servers, key, v) && Answer(servers[x], key).err == err
  }

  lemma LackerAnswers(c: Config, servers: Servers, key: Str, v: VClock, x: Str)
    requires x in Lacking(c, servers, key, v)
    ensures !Covers(Answer(servers[x], key).objects, v) && Answer(servers[x], key).err in {OK, ErrNoKey}
  {
  }

  /** R members that lack the write and answer alike make a read miss it. */
  lemma MissedByAlike(c: Config, s: State, key: Str, v: VClock, err: Err, g: nat) returns (run: seq<Step>, t: State)
    requires Valid(c.ring) && 1 <= c.readQuorum <= |Alike(c, s.servers, key, v, err)| && err in {OK, ErrNoKey} && g !in s.gets
    ensures Leads(c, s, run, t) && OnlyReads(run) && g in t.gets && t.gets[g].key == key
    ensures t.gets[g].acc.reply == Some(err) && !Covers(t.gets[g].acc.siblings, v)
  {
    var prefs, alike := Prefs(c, key), Alike(c, s.servers, key, v, err);
    PrefsDistinct(c, key);
    DistinctCount(prefs);
    SubsetCount(alike, Elements(prefs));
    var begin, mid := ReadAll(c, s, g, key);
    var slots := PickSlots(prefs, alike, c.readQuorum);
    forall j | 0 <= j < |slots| ensures Usable(mid, mid.gets[g], slots[j], err, v) {
      LackerAnswers(c, s.servers, key, v, prefs[slots[j]]);
      hide Covers, Answer, Prefs, Holds, Leads;
    }
    hide Usable, Leads, Alike, Prefs;
    var further;
    further, t := AllAnswers(c, mid, g, slots, err, v, 0);
    LeadsThrough(c, s, begin, mid, further, t);
    run := begin + further;
  }

  // ----- when they do not answer alike

  /** A version before every write. */
  const BLANK: Object := Object([], Context(map[], 0, []))

  lemma BlankCovers(v: VClock)
    requires !IsZero(v)
    ensures !Covers([BLANK], v)
  {
    CoversOne(BLANK, v);
    var n :| n in v && v[n] != 0;
    assert Version(Clock(BLANK), n) == 0;
  }

  /** A repair with the blank version gives a server the key, but not the write. */
  lemma Blanked(c: Config, servers: Servers, x: Str, key: Str, v: VClock)
    requires x in servers && !IsZero(v)
    ensures var t := servers[x := Merged(Place(c), servers[x], key, [BLANK])];
      && key in t[x].kv
      && forall y: Str | y in servers :: Covers(Stored(t[y], key), v) <==> Covers(Stored(servers[y], key), v)
  {
    BlankCovers(v);
    MergedStored(Place(c), servers[x], key, [BLANK], key);
    MergedCovers(Place(c), servers[x], key, [BLANK], key, v);
    hide Merged, Covers;
  }

  lemma {:induction false} BlankAll(c: Config, s: State, xs: set<Str>, key: Str, v: VClock) returns (run: seq<Step>, t: State)
    requires xs <= s.servers.Keys && !IsZero(v)
    ensures Leads(c, s, run, t) && t.gets == s.gets && t.servers.Keys == s.servers.Keys
    ensures forall x | x in xs :: key in t.servers[x].kv
    ensures forall y: Str | y in s.servers :: Covers(Stored(t.servers[y], key), v) <==> Covers(Stored(s.servers[y], key), v)
    decreases xs
  {
    if xs == {} {
      run, t := [], s;
    } else {
      var x :| x in xs;
      var before, mid := BlankAll(c, s, xs - {x}, key, v);
      var step := Repair(x, key, [BLANK]);
      Blanked(c, mid.servers, x, key, v);
      BlankKeepsKeys(c, mid.servers, x, key);
      hide Covers, Stored, Merged, Leads;
      t := Next(c, mid, step);
      LeadsOneStep(c, mid, step);
      LeadsThrough(c, s, before, mid, [step], t);
      run := before + [step];
    }
  }

  lemma BlankKeepsKeys(c: Config, servers: Servers, x: Str, key: Str)
    requires x in servers
    ensures forall y: Str | y in servers && key in servers[y].kv ::
      key in servers[x := Merged(Place(c), servers[x], key, [BLANK])][y].kv
  {
    MergedStored(Place(c), servers[x], key, [BLANK], key);
    hide Merged;
  }

  /** After the repairs all that lacked the write lack it still, and all answer OK. */
  lemma NowAlike(c: Config, a: Servers, b: Servers, key: Str, v: VClock)
    requires a.Keys == b.Keys && (forall x | x in Lacking(c, a, key, v) :: key in b[x].kv)
    requires forall y: Str | y in a :: Covers(Stored(b[y], key), v) <==> Covers(Stored(a[y], key), v)
    ensures Alike(c, b, key, v, OK) == Lacking(c, a, key, v)
  {
    hide Covers, Prefs, Stored;
  }

  /**
   As soon as R members of the preference list lack the write, some continuation has a read that misses it. If R of
   them answer alike, it needs nothing but the steps of that read.
   */
  lemma MissedByLacking(c: Config, s: State, key: Str, v: VClock) returns (run: seq<Step>, t: State, g: nat)
    requires Valid(c.ring) && 1 <= c.readQuorum <= |Lacking(c, s.servers, key, v)| && !IsZero(v)
    ensures Leads(c, s, run, t) && g !in s.gets && g in t.gets && t.gets[g].key == key && !Sees(t.gets[g], v)
    ensures (exists err: Err :: err in {OK, ErrNoKey} && |Alike(c, s.servers, key, v, err)| >= c.readQuorum) ==> OnlyReads(run)
  {
    g := FreshId(s.gets.Keys);
    if exists err: Err :: err in {OK, ErrNoKey} && |Alike(c, s.servers, key, v, err)| >= c.readQuorum {
      var err: Err :| err in {OK, ErrNoKey} && |Alike(c, s.servers, key, v, err)| >= c.readQuorum;
      hide Alike, Leads;
      run, t := MissedByAlike(c, s, key, v, err, g);
    } else {
      var lack := Lacking(c, s.servers, key, v);
      var repairs, mid := BlankAll(c, s, lack, key, v);
      NowAlike(c, s.servers, mid.servers, key, v);
      hide Alike, Leads, Lacking, Covers;
      var further;
      further, t := MissedByAlike(c, mid, key, v, OK, g);
      LeadsThrough(c, s, repairs, mid, further, t);
      run := repairs + further;
    }
  }

  // ----- the exact condition

  /** No read of the key that begins from now on misses the clock, whatever happens. */
  ghost predicate SeenFromNow(c: Config, s: State, key: Str, v: VClock) {
    forall later: seq<Step>, t: State, g: nat | Leads(c, s, later, t) && g !in s.gets && g in t.gets && t.gets[g].key == key :: Sees(t.gets[g], v)
  }

  lemma SeenExactly(c: Config, s: State, key: Str, v: VClock)
    requires Valid(c.ring) && Inv(c, s) && c.readQuorum >= 1 && !IsZero(v)
    ensures SeenFromNow(c, s, key, v) <==> |Lacking(c, s.servers, key, v)| < c.readQuorum
  {
    hide Inv, Leads, Lacking, Sees;
    if |Lacking(c, s.servers, key, v)| < c.readQuorum {
      forall later: seq<Step>, t: State, g: nat | Leads(c, s, later, t) && g !in s.gets && g in t.gets && t.gets[g].key == key
        ensures Sees(t.gets[g], v)
      {
        HeldIsRead(c, s, later, t, key, v, g);
      }
    } else {
      var later, t, g := MissedByLacking(c, s, key, v);
    }
  }

  // ----- for the writes of a run

  ghost predicate ClocksStarted(s: State) {
    forall id | id in s.puts :: !IsZero(Clock(s.puts[id].args.obj))
  }

  lemma StepStarts(c: Config, s: State, step: Step)
    requires ClocksStarted(s) && Enabled(c, s, step)
    ensures ClocksStarted(Next(c, s, step))
  {
    var next := Next(c, s, step);
    forall id | id in next.puts ensures !IsZero(Clock(next.puts[id].args.obj)) {
      if id in s.puts {
        PutGoesOnStep(c, s, step, id);
      } else {
        hide PlansFor, Prefs;
        assert step.BeginPut? && step.coordinator in Clock(next.puts[id].args.obj);
      }
    }
  }

  lemma {:induction false} RunStarts(c: Config, s: State, run: seq<Step>)
    requires ClocksStarted(s) && IsRun(c, s, run)
    ensures ClocksStarted(Reach(c, s, run))
    decreases run
  {
    if run != [] {
      StepStarts(c, s, run[0]);
      hide ClocksStarted, Next, Enabled;
      RunStarts(c, Next(c, s, run[0]), run[1..]);
    }
  }

  /** From any reachable state on, every read sees a write that was begun exactly when fewer than R members of its preference list lack it. */
  lemma WriteSeenExactly(c: Config, s0: State, run: seq<Step>, s1: State, id: nat)
    requires Valid(c.ring) && c.readQuorum >= 1 && Initial(s0) && Leads(c, s0, run, s1) && id in s1.puts
    ensures var args := s1.puts[id].args;
      SeenFromNow(c, s1, args.key, Clock(args.obj)) <==> |Lacking(c, s1.servers, args.key, Clock(args.obj))| < c.readQuorum
  {
    InitialInv(c, s0);
    RunKeepsInv(c, s0, run);
    RunStarts(c, s0, run);
    hide Inv, SeenFromNow, Lacking;
    SeenExactly(c, s1, s1.puts[id].args.key, Clock(s1.puts[id].args.obj));
  }
}
