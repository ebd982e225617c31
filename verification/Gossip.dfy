/** Gossip as a system: servers bump, send, merge and suspect in any order; snapshots may be lost, late or repeated. */
module Gossip {
  import opened Base
  import opened Membership

  datatype State = State(views: map<Str, Table>, counters: map<Str, nat>, sent: set<seq<MemberInfo>>)

  datatype Step =
    | Bump(server: Str)
    | Send(server: Str, infos: seq<MemberInfo>)
    | Receive(server: Str, infos: seq<MemberInfo>)
    | Detect(server: Str, times: Times, now: int, timeouts: Timeouts)

  predicate Enabled(s: State, step: Step) {
    && step.server in s.views && step.server in s.counters
    && match step
       case Send(server, infos) => Lists(infos, s.views[server])
       case Receive(_, infos) => infos in s.sent
       case _ => true
  }

  function WithView(s: State, server: Str, t: Table): State { s.(views := s.views[server := t]) }

  function WithMessage(s: State, infos: seq<MemberInfo>): State { s.(sent := s.sent + {infos}) }

  function Bumped(s: State, server: Str): State
    requires server in s.views && server in s.counters
  {
    var n := s.counters[server] + 1;
    WithView(s, server, WithEntry(s.views[server], server, n, Alive)).(counters := s.counters[server := n])
  }

  function Next(s: State, step: Step): State
    requires Enabled(s, step)
  {
    var t := s.views[step.server];
    match step
    case Bump(server) => Bumped(s, server)
    case Send(_, infos) => WithMessage(s, infos)
    case Receive(server, infos) => WithView(s, server, AcceptAll(t, infos))
    case Detect(server, times, now, d) => WithView(s, server, Detected(t, times, server, now, d))
  }

  predicate IsRun(s: State, run: seq<Step>)
    decreases run
  {
    run == [] || (Enabled(s, run[0]) && IsRun(Next(s, run[0]), run[1..]))
  }

  function Reach(s: State, run: seq<Step>): State
    requires IsRun(s, run)
    decreases run
  {
    if run == [] then s else Reach(Next(s, run[0]), run[1..])
  }

  /** No news is ahead of its subject's own counter. */
  predicate Bounded(counters: map<Str, nat>, m: MemberInfo) {
    m.serverID in counters && m.heartbeat <= counters[m.serverID]
  }

  predicate ViewOk(counters: map<Str, nat>, server: Str, t: Table) {
    && Keyed(t) && (forall id | id in t :: Bounded(counters, t[id]))
    && server in t && server in counters && t[server].heartbeat == counters[server]
  }

  predicate MessageOk(counters: map<Str, nat>, infos: seq<MemberInfo>) {
    forall i | 0 <= i < |infos| :: Bounded(counters, infos[i])
  }

  predicate Inv(s: State) {
    && s.views.Keys == s.counters.Keys
    && (forall id | id in s.views :: ViewOk(s.counters, id, s.views[id]))
    && (forall infos | infos in s.sent :: MessageOk(s.counters, infos))
  }

  /** Every counter and every view has only risen. */
  predicate Rises(a: State, b: State) {
    && CountersRise(a.counters, b.counters)
    && (forall id | id in a.views :: id in b.views && Raises(a.views[id], b.views[id]))
  }

  /** Every server starts as MakeKVServer leaves it. */
  predicate Initial(s: State) {
    && s.views.Keys == s.counters.Keys && s.sent == {}
    && forall id | id in s.views :: s.counters[id] == 0 && s.views[id] == map n | n in s.views.Keys :: MemberInfo(n, 0, Alive)
  }

  lemma InitialInv(s: State)
    requires Initial(s)
    ensures Inv(s)
  {
  }

  // ----- steps

  predicate CountersRise(a: map<Str, nat>, b: map<Str, nat>) {
    forall id | id in a :: id in b && a[id] <= b[id]
  }

  lemma RaisesSelf(t: Table)
    ensures Raises(t, t)
  {
  }

  /** A server replaced its view by one that is higher. */
  lemma ViewReplaced(s: State, server: Str, t: Table)
    requires Inv(s) && server in s.views && ViewOk(s.counters, server, t) && Raises(s.views[server], t)
    ensures Inv(WithView(s, server, t)) && Rises(s, WithView(s, server, t))
  {
    hide ViewOk, MessageOk, Raises;
    forall id | id in s.views ensures Raises(s.views[id], s.views[id]) { RaisesSelf(s.views[id]); }
  }

  lemma CounterRaised(counters: map<Str, nat>, more: map<Str, nat>, server: Str, t: Table, infos: seq<MemberInfo>)
    requires CountersRise(counters, more)
    ensures MessageOk(counters, infos) ==> MessageOk(more, infos)
    ensures ViewOk(counters, server, t) && server in more && more[server] == counters[server] ==> ViewOk(more, server, t)
  {
  }

  lemma BumpedView(counters: map<Str, nat>, server: Str, t: Table)
    requires ViewOk(counters, server, t)
    ensures var n := counters[server] + 1;
      ViewOk(counters[server := n], server, WithEntry(t, server, n, Alive)) && Raises(t, WithEntry(t, server, n, Alive))
  {
  }

  lemma BumpViewOk(s: State, server: Str, id: Str)
    requires Inv(s) && server in s.views && id in s.views
    ensures var next := Bumped(s, server);
      ViewOk(next.counters, id, next.views[id]) && Raises(s.views[id], next.views[id])
  {
    hide ViewOk, Raises, WithEntry, MessageOk;
    var next := Bumped(s, server);
    assert CountersRise(s.counters, next.counters);
    if id == server {
      BumpedView(s.counters, server, s.views[server]);
    } else {
      CounterRaised(s.counters, next.counters, id, s.views[id], []);
      RaisesSelf(s.views[id]);
    }
  }

  lemma BumpOk(s: State, server: Str)
    requires Inv(s) && server in s.views
    ensures Inv(Bumped(s, server)) && Rises(s, Bumped(s, server))
  {
    hide ViewOk, MessageOk, Raises, WithEntry;
    var next := Bumped(s, server);
    assert CountersRise(s.counters, next.counters);
    forall id | id in s.views ensures ViewOk(next.counters, id, next.views[id]) && Raises(s.views[id], next.views[id]) {
      BumpViewOk(s, server, id);
    }
    forall infos | infos in next.sent ensures MessageOk(next.counters, infos) {
      CounterRaised(s.counters, next.counters, server, map[], infos);
    }
  }

  lemma SendOk(s: State, server: Str, infos: seq<MemberInfo>)
    requires Inv(s) && server in s.views && MessageOk(s.counters, infos)
    ensures Inv(WithMessage(s, infos)) && Rises(s, WithMessage(s, infos))
  {
    hide ViewOk, MessageOk, Raises;
    forall id | id in s.views ensures Raises(s.views[id], s.views[id]) { RaisesSelf(s.views[id]); }
  }

  lemma ListedBounded(counters: map<Str, nat>, server: Str, t: Table, infos: seq<MemberInfo>)
    requires ViewOk(counters, server, t) && Lists(infos, t)
    ensures MessageOk(counters, infos)
  {
  }

  lemma MergedBounded(counters: map<Str, nat>, server: Str, t: Table, infos: seq<MemberInfo>)
    requires ViewOk(counters, server, t) && MessageOk(counters, infos)
    ensures ViewOk(counters, server, AcceptAll(t, infos)) && Raises(t, AcceptAll(t, infos))
  {
    MergeIsJoin(t, infos);
    MergeRaises(t, infos);
    var u := AcceptAll(t, infos);
    forall id | id in u ensures Bounded(counters, u[id]) {
      DigestGreatest(infos, id);
      if id in Digest(infos) { var i :| 0 <= i < |infos| && infos[i] == Digest(infos)[id]; }
    }
  }

  lemma StepKeepsInv(s: State, step: Step)
    requires Inv(s) && Enabled(s, step)
    ensures Inv(Next(s, step)) && Rises(s, Next(s, step))
  {
    var t := s.views[step.server];
    assert ViewOk(s.counters, step.server, t);
    match step
    case Bump(server) => BumpOk(s, server);
    case Send(server, infos) =>
      ListedBounded(s.counters, server, t, infos);
      SendOk(s, server, infos);
    case Receive(server, infos) =>
      MergedBounded(s.counters, server, t, infos);
      ViewReplaced(s, server, AcceptAll(t, infos));
    case Detect(server, times, now, d) =>
      var u := Detected(t, times, server, now, d);
      DetectionRaises(t, times, server, now, d);
      forall id | id in u ensures Bounded(s.counters, u[id]) { assert Bounded(s.counters, t[id]); }
      ViewReplaced(s, server, u);
  }

  lemma {:induction false} RunKeepsInv(s: State, run: seq<Step>)
    requires Inv(s) && IsRun(s, run)
    ensures Inv(Reach(s, run)) && Rises(s, Reach(s, run))
    decreases run
  {
    if run != [] {
      var next := Next(s, run[0]);
      StepKeepsInv(s, run[0]);
      RunKeepsInv(next, run[1..]);
      var last := Reach(next, run[1..]);
      forall id | id in s.views ensures id in last.views && Raises(s.views[id], last.views[id]) {
        RaisesTransitive(s.views[id], next.views[id], last.views[id]);
      }
    }
  }

  // ----- what every run keeps

  /** Whoever looks at whomever, a heartbeat never runs ahead of its server's own counter, and a server knows its own. */
  lemma HeartbeatsBounded(s0: State, run: seq<Step>, observer: Str, member: Str)
    requires Initial(s0) && IsRun(s0, run)
    requires observer in Reach(s0, run).views && member in Reach(s0, run).views[observer]
    ensures var s := Reach(s0, run);
      && member in s.counters && s.views[observer][member].heartbeat <= s.counters[member]
      && (observer == member ==> s.views[observer][member].heartbeat == s.counters[member])
  {
    InitialInv(s0);
    RunKeepsInv(s0, run);
    assert ViewOk(Reach(s0, run).counters, observer, Reach(s0, run).views[observer]);
  }

  /** A suspected or dead member is alive again in a view only on a heartbeat it made itself in the meantime or had not yet told. */
  lemma NoFalseRevival(s0: State, run: seq<Step>, s1: State, later: seq<Step>, observer: Str, member: Str)
    requires Initial(s0) && IsRun(s0, run) && s1 == Reach(s0, run) && IsRun(s1, later)
    requires observer in s1.views && member in s1.views[observer] && s1.views[observer][member].status != Alive
    ensures var s2 := Reach(s1, later);
      && observer in s2.views && member in s2.views[observer] && member in s2.counters
      && AtMost(s1.views[observer][member], s2.views[observer][member])
      && (s2.views[observer][member].status == Alive ==>
            s1.views[observer][member].heartbeat < s2.views[observer][member].heartbeat <= s2.counters[member])
  {
    InitialInv(s0);
    RunKeepsInv(s0, run);
    RunKeepsInv(s1, later);
    var s2 := Reach(s1, later);
    assert ViewOk(s2.counters, observer, s2.views[observer]);
  }

  /** A heartbeat that reaches another server clears whatever that server, or anyone it heard, believed. */
  lemma HeartbeatHeals(s: State, server: Str, other: Str, infos: seq<MemberInfo>)
    requires Inv(s) && server in s.views && other in s.views && server != other
    requires Lists(infos, Bumped(s, server).views[server])
    ensures var t := AcceptAll(s.views[other], infos);
      server in t && t[server] == MemberInfo(server, s.counters[server] + 1, Alive)
  {
    BumpOk(s, server);
    var told := Bumped(s, server).views[server];
    var mine := s.views[other];
    assert ViewOk(s.counters, server, s.views[server]) && ViewOk(s.counters, other, mine);
    assert told[server] == MemberInfo(server, s.counters[server] + 1, Alive);
    MergeIsJoin(mine, infos);
    assert ViewOk(Bumped(s, server).counters, server, told);
    ListingDigest(infos, told);
  }

  lemma ViewKeyed(s: State, server: Str)
    requires Inv(s) && server in s.views
    ensures server in s.counters && Keyed(s.views[server])
  {
    assert ViewOk(s.counters, server, s.views[server]);
  }

  lemma ReachEmpty(s: State)
    ensures IsRun(s, []) && Reach(s, []) == s
  {
  }

  lemma ReachStep(s: State, run: seq<Step>, step: Step)
    requires Enabled(s, step) && IsRun(Next(s, step), run)
    ensures IsRun(s, [step] + run) && Reach(s, [step] + run) == Reach(Next(s, step), run)
  {
    assert ([step] + run)[1..] == run;
    hide Next, Enabled;
  }

  /** The steps of one exchange with nothing in between leave both servers with the join of their views. */
  lemma ExchangeConverges(s: State, a: Str, b: Str, push: seq<MemberInfo>, pull: seq<MemberInfo>)
    requires Inv(s) && a in s.views && b in s.views && a != b
    requires Lists(push, s.views[a]) && Lists(pull, AcceptAll(s.views[b], push))
    ensures var run := [Send(a, push)] + ([Receive(b, push)] + ([Send(b, pull)] + ([Receive(a, pull)] + [])));
      IsRun(s, run) && Reach(s, run).views == s.views[a := Join(s.views[a], s.views[b])][b := Join(s.views[a], s.views[b])]
  {
    hide Lists, Join, AcceptAll, Keyed, Inv, IsRun, Reach;
    ViewKeyed(s, a);
    ViewKeyed(s, b);
    PushPull(s.views[a], s.views[b], push, pull);
    var s1 := WithMessage(s, push);
    var s2 := WithView(s1, b, AcceptAll(s.views[b], push));
    var s3 := WithMessage(s2, pull);
    var s4 := WithView(s3, a, AcceptAll(s.views[a], pull));
    ReachEmpty(s4);
    ReachStep(s3, [], Receive(a, pull));
    ReachStep(s2, [Receive(a, pull)] + [], Send(b, pull));
    ReachStep(s1, [Send(b, pull)] + ([Receive(a, pull)] + []), Receive(b, push));
    ReachStep(s, [Receive(b, push)] + ([Send(b, pull)] + ([Receive(a, pull)] + [])), Send(a, push));
  }
}
