/** Every step of the cluster keeps the invariant, and only adds to what the servers carry. */
module ClusterSteps {
  import opened Base
  import opened VectorClock
  import opened Siblings
  import opened SiblingAlgebra
  import opened RingState
  import opened HashRing
  import opened Replica
  import opened Membership
  import opened Coordinator
  import opened Cluster
  import opened ClusterInvariant

  lemma PrefsDistinct(c: Config, key: Str)
    requires Valid(c.ring)
    ensures Distinct(Prefs(c, key))
  {
    if SectorOf(c, key).0 < c.ring.numSectors {
      PreferenceListShape(c.ring, SectorOf(c, key).0);
    }
  }

  // ----- replacing one operation

  lemma ReplacePut(c: Config, s: State, servers: Servers, id: nat, op: PutOp)
    requires Inv(c, s) && Grows(s.servers, servers) && PutOk(c, servers, op)
    ensures Inv(c, s.(servers := servers, puts := s.puts[id := op]))
  {
    GrowsKeepsInv(c, s, servers);
    hide PutOk, GetOk, ReplayOk, Grows;
  }

  lemma ReplaceGet(c: Config, s: State, id: nat, op: GetOp)
    requires Inv(c, s) && GetOk(c, op)
    ensures Inv(c, s.(gets := s.gets[id := op]))
  {
    hide PutOk, GetOk, ReplayOk;
  }

  lemma ReplaceReplay(c: Config, s: State, servers: Servers, id: nat, r: Replay)
    requires Inv(c, s) && Grows(s.servers, servers) && ReplayOk(servers, r)
    ensures Inv(c, s.(servers := servers, replays := s.replays[id := r]))
  {
    GrowsKeepsInv(c, s, servers);
    hide PutOk, GetOk, ReplayOk, Grows;
  }

  // ----- writes

  lemma BegunPutOk(c: Config, servers: Servers, args: PutArgs, looks: seq<Looks>, on: bool)
    requires Valid(c.ring) && |looks| == |Prefs(c, args.key)|
    ensures var plans := PlansFor(Prefs(c, args.key), looks, Elements(Prefs(c, args.key)), on);
      PutOk(c, servers, PutOp(args, plans, Fill(|plans|, None), Fill(|plans|, Waiting), NO_RESULTS))
  {
    var prefs := Prefs(c, args.key);
    var plans := PlansFor(prefs, looks, Elements(prefs), on);
    PrefsDistinct(c, args.key);
    PlansAreApart(prefs, looks, on);
    forall i | 0 <= i < |plans| ensures plans[i].target in prefs {
      PlanShape(prefs, looks, Elements(prefs), on, plans[i]);
    }
    var op := PutOp(args, plans, Fill(|plans|, None), Fill(|plans|, Waiting), NO_RESULTS);
    assert OkSlots(op) == {};
    hide PlansFor, Prefs;
  }

  /** An executed call that answered OK left the write at its target or in a hint. */
  lemma PlanExecuted(c: Config, a: Servers, p: Plan, args: PutArgs)
    requires Receiver(p) in a
    ensures var e := PlanEffect(c, a[Receiver(p)], p, args);
      Grows(a, a[Receiver(p) := e.0]) && (e.1 == OK ==> Carried(a[Receiver(p) := e.0], p, args))
  {
    if p.handoff != [] {
      HintGrows(a, p.handoff, p.target, args);
    } else {
      PutGrows(c, a, p.target, args);
    }
  }

  lemma ExecutedPutOk(c: Config, a: Servers, b: Servers, op: PutOp, i: nat, err: Err)
    requires PutOk(c, a, op) && Grows(a, b)
    requires i < |op.executed| && op.executed[i].None? && (err == OK ==> Carried(b, op.plans[i], op.args))
    ensures PutOk(c, b, op.(executed := op.executed[i := Some(err)]))
  {
    var op' := op.(executed := op.executed[i := Some(err)]);
    GrowsKeepsPut(a, b, op);
    assert OkSlots(op') == OkSlots(op);
    hide Carried, Grows, PlansApart, Prefs;
  }

  lemma ReceivedSlots(c: Config, op: PutOp, i: nat, delivered: bool)
    requires |op.executed| == |op.delivery| && i < |op.delivery| && op.delivery[i] == Waiting && (delivered ==> op.executed[i].Some?)
    ensures |OkSlots(PutReceived(c, op, i, delivered))| == |OkSlots(op)| + if delivered && op.executed[i] == Some(OK) then 1 else 0
  {
    hide TakePut;
    var op' := PutReceived(c, op, i, delivered);
    if delivered && op.executed[i] == Some(OK) {
      assert i !in OkSlots(op);
      assert OkSlots(op') == OkSlots(op) + {i};
    } else {
      assert OkSlots(op') == OkSlots(op);
    }
  }

  lemma ReceivedCount(c: Config, op: PutOp, i: nat, delivered: bool)
    requires CountOk(c, op) && |op.executed| == |op.delivery|
    requires op.acc.reply.None? && i < |op.delivery| && op.delivery[i] == Waiting && (delivered ==> op.executed[i].Some?)
    ensures CountOk(c, PutReceived(c, op, i, delivered))
  {
    hide OkSlots;
    ReceivedSlots(c, op, i, delivered);
  }

  lemma ReceivedPutOk(c: Config, a: Servers, op: PutOp, i: nat, delivered: bool)
    requires PutOk(c, a, op) && op.acc.reply.None? && i < |op.delivery| && op.delivery[i] == Waiting
    requires delivered ==> op.executed[i].Some?
    ensures PutOk(c, a, PutReceived(c, op, i, delivered))
  {
    ReceivedCount(c, op, i, delivered);
    hide Carried, PlansApart, Prefs, CountOk, TakePut;
  }

  // ----- reads

  lemma {:induction false} LivingShape(prefs: seq<Str>, view: View)
    requires Distinct(prefs)
    ensures Distinct(Living(prefs, view)) && forall x | x in Living(prefs, view) :: x in prefs
  {
    if prefs != [] {
      assert prefs == [prefs[0]] + prefs[1..];
      LivingShape(prefs[1..], view);
      assert prefs[0] !in Living(prefs[1..], view);
      DistinctCons(prefs[0], Living(prefs[1..], view));
    }
  }

  function Shifted(places: seq<nat>): seq<nat> { seq(|places|, k requires 0 <= k < |places| => places[k] + 1) }

  lemma ShiftedMembers(places: seq<nat>, i: nat)
    ensures i in Shifted(places) <==> i >= 1 && i - 1 in places
  {
    if i >= 1 && i - 1 in places {
      var k :| 0 <= k < |places| && places[k] == i - 1;
      assert Shifted(places)[k] == i;
    }
  }

  predicate IsLiving(prefs: seq<Str>, view: View, i: nat) { i < |prefs| && prefs[i] in view && view[prefs[i]] in {Alive, Suspect} }

  /** The living are exactly the listed members that the view knows and does not take for dead, suspects included, in list order. */
  lemma {:induction false} LivingExactly(prefs: seq<Str>, view: View) returns (places: seq<nat>)
    ensures |places| == |Living(prefs, view)| && forall k | 0 <= k < |places| :: places[k] < |prefs| && prefs[places[k]] == Living(prefs, view)[k]
    ensures forall k, l | 0 <= k < l < |places| :: places[k] < places[l]
    ensures forall i: nat :: i in places <==> IsLiving(prefs, view, i)
  {
    places := [];
    if prefs != [] {
      var rest := LivingExactly(prefs[1..], view);
      var first := if prefs[0] in view && view[prefs[0]] != Dead then [0] else [];
      places := first + Shifted(rest);
      assert IsLiving(prefs, view, 0) <==> first != [];
      forall i: nat ensures i in places <==> IsLiving(prefs, view, i) {
        ShiftedMembers(rest, i);
        assert i >= 1 ==> (IsLiving(prefs, view, i) <==> IsLiving(prefs[1..], view, i - 1));
        hide IsLiving, Shifted;
      }
      hide IsLiving;
    }
  }

  lemma BegunGetOk(c: Config, key: Str, view: View)
    requires Valid(c.ring)
    ensures var asked := Living(Prefs(c, key), view);
      GetOk(c, GetOp(key, asked, Fill(|asked|, None), Fill(|asked|, Waiting), NO_ANSWERS))
  {
    PrefsDistinct(c, key);
    LivingShape(Prefs(c, key), view);
    var asked := Living(Prefs(c, key), view);
    var op := GetOp(key, asked, Fill(|asked|, None), Fill(|asked|, Waiting), NO_ANSWERS);
    assert AnswerSlots(op, OK) == {} && AnswerSlots(op, ErrNoKey) == {};
    hide Prefs, Living;
  }

  lemma ExecutedGetOk(c: Config, op: GetOp, i: nat, answer: GetAnswer)
    requires GetOk(c, op) && i < |op.executed| && op.executed[i].None?
    ensures GetOk(c, op.(executed := op.executed[i := Some(answer)]))
  {
    var op' := op.(executed := op.executed[i := Some(answer)]);
    hide Covers, Prefs, Antichain;
    forall j: nat, err: Err ensures Answered(op', j, err) <==> Answered(op, j, err) {}
    assert AnswerSlots(op', OK) == AnswerSlots(op, OK) && AnswerSlots(op', ErrNoKey) == AnswerSlots(op, ErrNoKey);
    assert forall j: nat | Answered(op', j, OK) :: op'.executed[j] == op.executed[j];
  }

  lemma ReceivedAnswers(c: Config, op: GetOp, i: nat, delivered: bool)
    requires AskedOk(c, op) && i < |op.delivery| && op.delivery[i] == Waiting && (delivered ==> op.executed[i].Some?)
    ensures var op' := GetReceived(c, op, i, delivered);
      forall j: nat, err: Err :: Answered(op', j, err) <==> Answered(op, j, err) || (j == i && delivered && op.executed[i].value.err == err)
  {
    hide TakeGet;
  }

  lemma ReceivedAnswerSlots(c: Config, op: GetOp, i: nat, delivered: bool, err: Err)
    requires AskedOk(c, op) && i < |op.delivery| && op.delivery[i] == Waiting && (delivered ==> op.executed[i].Some?)
    ensures |AnswerSlots(GetReceived(c, op, i, delivered), err)|
      == |AnswerSlots(op, err)| + if delivered && op.executed[i].value.err == err then 1 else 0
  {
    hide TakeGet;
    var op' := GetReceived(c, op, i, delivered);
    ReceivedAnswers(c, op, i, delivered);
    assert i !in AnswerSlots(op, err);
    hide Answered;
    if delivered && op.executed[i].value.err == err {
      assert AnswerSlots(op', err) == AnswerSlots(op, err) + {i};
    } else {
      assert AnswerSlots(op', err) == AnswerSlots(op, err);
    }
  }

  lemma ReceivedCounts(c: Config, op: GetOp, i: nat, delivered: bool)
    requires AskedOk(c, op) && AnswersCounted(c, op) && op.acc.reply.None?
    requires i < |op.delivery| && op.delivery[i] == Waiting && (delivered ==> op.executed[i].Some?)
    ensures AnswersCounted(c, GetReceived(c, op, i, delivered))
  {
    hide AnswerSlots, Merge;
    ReceivedAnswerSlots(c, op, i, delivered, OK);
    ReceivedAnswerSlots(c, op, i, delivered, ErrNoKey);
  }

  lemma ReceivedMerges(c: Config, op: GetOp, i: nat, delivered: bool)
    requires AskedOk(c, op) && AnswersMerged(op)
    requires i < |op.delivery| && op.delivery[i] == Waiting && (delivered ==> op.executed[i].Some?)
    ensures AnswersMerged(GetReceived(c, op, i, delivered))
  {
    var op' := GetReceived(c, op, i, delivered);
    ReceivedAnswers(c, op, i, delivered);
    if delivered && op.executed[i].value.err == OK {
      var objects := op.executed[i].value.objects;
      assert op'.acc.siblings == Merge(op.acc.siblings, objects);
      MergeKeeps(op.acc.siblings, objects);
      hide Answered, Antichain, Covers, Merge;
      forall j: nat, v: VClock | Answered(op', j, OK) && Covers(op'.executed[j].value.objects, v)
        ensures Covers(op'.acc.siblings, v)
      {
        MergeCovers(op.acc.siblings, objects, v);
      }
    } else {
      assert op'.acc.siblings == op.acc.siblings;
    }
  }

  lemma ReceivedGetOk(c: Config, op: GetOp, i: nat, delivered: bool)
    requires GetOk(c, op) && op.acc.reply.None?
    requires i < |op.delivery| && op.delivery[i] == Waiting && (delivered ==> op.executed[i].Some?)
    ensures GetOk(c, GetReceived(c, op, i, delivered))
  {
    ReceivedCounts(c, op, i, delivered);
    ReceivedMerges(c, op, i, delivered);
    hide AnswersCounted, AnswersMerged, TakeGet, Prefs;
  }

  // ----- hint replay

  lemma ReplayStep(c: Config, s: State, step: Step)
    requires Inv(c, s) && (step.BeginReplay? || step.ExecuteReplay? || step.FinishReplay?) && Enabled(c, s, step)
    ensures Inv(c, Next(c, s, step)) && Grows(s.servers, Next(c, s, step).servers)
  {
    GrowsSelf(s.servers);
    match step
    case BeginReplay(id, holder, target, hint) =>
      ReplaceReplay(c, s, s.servers, id, Replay(holder, target, hint, None, false));
    case ExecuteReplay(id) =>
      var r := s.replays[id];
      PutGrows(c, s.servers, r.target, r.hint);
      var (server, err) := Put(Place(c), s.servers[r.target], r.hint);
      ReplaceReplay(c, s, s.servers[r.target := server], id, r.(executed := Some(err)));
    case FinishReplay(id, delivered) =>
      var r := s.replays[id];
      assert ReplayOk(s.servers, r);
      if delivered && r.executed == Some(OK) {
        UnhintGrows(s.servers, r.holder, r.target, r.hint);
        var servers := s.servers[r.holder := Unhinted(s.servers[r.holder], r.target, r.hint)];
        assert ReplayOk(servers, r.(finished := true));
        ReplaceReplay(c, s, servers, id, r.(finished := true));
      } else {
        ReplaceReplay(c, s, s.servers, id, r.(finished := true));
      }
  }

  // ----- every step, every run

  lemma PutStep(c: Config, s: State, step: Step)
    requires Valid(c.ring) && Inv(c, s) && (step.BeginPut? || step.ExecutePut? || step.ReceivePut?) && Enabled(c, s, step)
    ensures Inv(c, Next(c, s, step)) && Grows(s.servers, Next(c, s, step).servers)
  {
    GrowsSelf(s.servers);
    hide PutOk, Grows, Prefs, PlansFor, PlanEffect;
    match step
    case BeginPut(id, coordinator, args, now, etag, looks, on) =>
      BegunPutOk(c, s.servers, Stamped(args, coordinator, now, etag), looks, on);
      ReplacePut(c, s, s.servers, id, Next(c, s, step).puts[id]);
    case ExecutePut(id, i) =>
      var op := s.puts[id];
      var at := Receiver(op.plans[i]);
      PlanExecuted(c, s.servers, op.plans[i], op.args);
      var e := PlanEffect(c, s.servers[at], op.plans[i], op.args);
      ExecutedPutOk(c, s.servers, s.servers[at := e.0], op, i, e.1);
      ReplacePut(c, s, s.servers[at := e.0], id, op.(executed := op.executed[i := Some(e.1)]));
    case ReceivePut(id, i, delivered) =>
      ReceivedPutOk(c, s.servers, s.puts[id], i, delivered);
      ReplacePut(c, s, s.servers, id, PutReceived(c, s.puts[id], i, delivered));
  }

  lemma GetStep(c: Config, s: State, step: Step)
    requires Valid(c.ring) && Inv(c, s) && (step.BeginGet? || step.ExecuteGet? || step.ReceiveGet?) && Enabled(c, s, step)
    ensures Inv(c, Next(c, s, step)) && Grows(s.servers, Next(c, s, step).servers)
  {
    GrowsSelf(s.servers);
    hide GetOk, Grows, Prefs, Living, Answer;
    match step
    case BeginGet(id, coordinator, key, view) =>
      BegunGetOk(c, key, view);
      ReplaceGet(c, s, id, Next(c, s, step).gets[id]);
    case ExecuteGet(id, i) =>
      ExecutedGetOk(c, s.gets[id], i, Answer(s.servers[s.gets[id].asked[i]], s.gets[id].key));
      ReplaceGet(c, s, id, Next(c, s, step).gets[id]);
    case ReceiveGet(id, i, delivered) =>
      ReceivedGetOk(c, s.gets[id], i, delivered);
      ReplaceGet(c, s, id, GetReceived(c, s.gets[id], i, delivered));
  }

  lemma RepairStep(c: Config, s: State, step: Step)
    requires Inv(c, s) && step.Repair? && Enabled(c, s, step)
    ensures Inv(c, Next(c, s, step)) && Grows(s.servers, Next(c, s, step).servers)
  {
    MergeGrows(c, s.servers, step.server, step.key, step.objects);
    GrowsKeepsInv(c, s, Next(c, s, step).servers);
  }

  /** What every step keeps: nothing acknowledged is lost, and the counters count. */
  lemma StepKeepsInv(c: Config, s: State, step: Step)
    requires Valid(c.ring) && Inv(c, s) && Enabled(c, s, step)
    ensures Inv(c, Next(c, s, step)) && Grows(s.servers, Next(c, s, step).servers)
  {
    hide Inv, Grows, Enabled;
    if step.BeginPut? || step.ExecutePut? || step.ReceivePut? {
      PutStep(c, s, step);
    } else if step.BeginGet? || step.ExecuteGet? || step.ReceiveGet? {
      GetStep(c, s, step);
    } else if step.Repair? {
      RepairStep(c, s, step);
    } else {
      ReplayStep(c, s, step);
    }
  }
}
