/** The coordinator's loops: collecting read and write results, and planning a write (src/kvsrv/server.go:183-415). */
module Coordinator {
  import opened Base
  import opened VectorClock
  import opened Siblings
  import opened SiblingAlgebra
  import opened Serialization
  import opened Membership
  import opened Replica
  import KVServer

  // ----- reads

  /** What a forwarded get brought back; a lost call has no answer. */
  datatype GetAnswer = GetAnswer(err: Err, objects: seq<Object>)

  /** CoordGet's counters while it collects; `reply` is set when the loop returns. */
  datatype GetAcc = GetAcc(received: nat, successCount: nat, noKeyCount: nat, siblings: seq<Object>, reply: Option<Err>)

  const NO_ANSWERS: GetAcc := GetAcc(0, 0, 0, [], None)

  /** One round of the loop, with `total` forwarded gets and read quorum `r`. */
  function TakeGet(acc: GetAcc, answer: Option<GetAnswer>, r: int, total: nat): GetAcc {
    var acc := acc.(received := acc.received + 1);
    var next :=
      if answer.None? then acc
      else if answer.value.err == OK then
        var acc := acc.(successCount := acc.successCount + 1, siblings := Merge(acc.siblings, answer.value.objects));
        if acc.successCount >= r then acc.(reply := Some(OK)) else acc
      else if answer.value.err == ErrNoKey then
        var acc := acc.(noKeyCount := acc.noKeyCount + 1);
        if acc.noKeyCount >= r then acc.(reply := Some(ErrNoKey)) else acc
      else acc;
    if next.reply.None? && next.received >= total then next.(reply := Some(ErrReadQuorumNotMet)) else next
  }

  /** The loop over the answers in the order of their arrival. */
  function TakeGets(acc: GetAcc, answers: seq<Option<GetAnswer>>, r: int, total: nat): GetAcc
    decreases answers
  {
    if answers == [] || acc.reply.Some? then acc else TakeGets(TakeGet(acc, answers[0], r, total), answers[1..], r, total)
  }

  method CollectGets(answers: seq<Option<GetAnswer>>, r: int) returns (err: Err, objects: seq<Object>)
    ensures answers != [] ==> Some(err) == TakeGets(NO_ANSWERS, answers, r, |answers|).reply
    ensures err == OK ==> objects == TakeGets(NO_ANSWERS, answers, r, |answers|).siblings
    ensures err == OK ==> Antichain(objects) && SortedByTime(objects)
  {
    var successCount, noKeyCount, siblings := 0, 0, [];
    ghost var acc := NO_ANSWERS;
    var i := 0;
    while i < |answers|
      invariant i <= |answers|
      invariant acc == GetAcc(i, successCount, noKeyCount, siblings, if i == |answers| > 0 then Some(ErrReadQuorumNotMet) else None)
      invariant TakeGets(NO_ANSWERS, answers, r, |answers|) == TakeGets(acc, answers[i..], r, |answers|)
      invariant Antichain(siblings) && SortedByTime(siblings)
    {
      assert answers[i..][0] == answers[i] && answers[i..][1..] == answers[i + 1..];
      acc := TakeGet(acc, answers[i], r, |answers|);
      var answer := answers[i];
      i := i + 1;
      if answer.Some? {
        if answer.value.err == OK {
          successCount := successCount + 1;
          MergeKeeps(siblings, answer.value.objects);
          var changed;
          siblings, changed := KVServer.FoldObjects(siblings, answer.value.objects);
          if successCount >= r { return OK, siblings; }
        } else if answer.value.err == ErrNoKey {
          noKeyCount := noKeyCount + 1;
          if noKeyCount >= r { return ErrNoKey, []; }
        }
      }
    }
    return ErrReadQuorumNotMet, [];
  }

  /** The answers of one kind. */
  function AnswerCount(answers: seq<Option<GetAnswer>>, err: Err): nat {
    if answers == [] then 0
    else (if answers[0].Some? && answers[0].value.err == err then 1 else 0) + AnswerCount(answers[1..], err)
  }

  predicate SomeAnswerCovers(answers: seq<Option<GetAnswer>>, v: VClock) {
    exists i | 0 <= i < |answers| :: answers[i].Some? && answers[i].value.err == OK && Covers(answers[i].value.objects, v)
  }

  lemma {:induction false} GetVerdictFrom(acc: GetAcc, answers: seq<Option<GetAnswer>>, r: int, total: nat)
    requires answers != [] && acc.reply.None? && acc.received + |answers| == total
    requires acc.successCount < r && acc.noKeyCount < r
    ensures var reply, oks, misses := TakeGets(acc, answers, r, total).reply,
        acc.successCount + AnswerCount(answers, OK), acc.noKeyCount + AnswerCount(answers, ErrNoKey);
      && reply.Some? && reply.value in {OK, ErrNoKey, ErrReadQuorumNotMet}
      && (reply.value == OK ==> oks >= r) && (reply.value == ErrNoKey ==> misses >= r)
      && (reply.value == ErrReadQuorumNotMet <==> oks < r && misses < r)
    decreases answers
  {
    hide Merge;
    var next := TakeGet(acc, answers[0], r, total);
    if next.reply.None? {
      GetVerdictFrom(next, answers[1..], r, total);
    } else {
      assert TakeGets(next, answers[1..], r, total) == next;
      if |answers| == 1 { assert answers[1..] == []; }
    }
  }

  /** Whatever the order of arrival: OK and ErrNoKey each need R answers of their kind, and only if neither has them is the quorum not met. */
  lemma GetVerdict(answers: seq<Option<GetAnswer>>, r: int)
    requires answers != [] && r >= 1
    ensures var reply, oks, misses := TakeGets(NO_ANSWERS, answers, r, |answers|).reply, AnswerCount(answers, OK), AnswerCount(answers, ErrNoKey);
      && reply.Some? && reply.value in {OK, ErrNoKey, ErrReadQuorumNotMet}
      && (reply.value == OK ==> oks >= r) && (reply.value == ErrNoKey ==> misses >= r)
      && (reply.value == ErrReadQuorumNotMet <==> oks < r && misses < r)
  {
    GetVerdictFrom(NO_ANSWERS, answers, r, |answers|);
  }

  lemma TakenCovers(acc: GetAcc, answer: Option<GetAnswer>, r: int, total: nat, v: VClock)
    ensures Covers(TakeGet(acc, answer, r, total).siblings, v) <==> Covers(acc.siblings, v) || SomeAnswerCovers([answer], v)
  {
    if answer.Some? && answer.value.err == OK { MergeCovers(acc.siblings, answer.value.objects, v); }
    hide Covers, Merge;
    assert SomeAnswerCovers([answer], v) <==> answer.Some? && answer.value.err == OK && Covers(answer.value.objects, v) by {
      assert [answer][0] == answer;
    }
  }

  /** A read returns no version that none of its answers had. */
  lemma {:induction false} NothingInvented(acc: GetAcc, answers: seq<Option<GetAnswer>>, r: int, total: nat, v: VClock)
    requires Covers(TakeGets(acc, answers, r, total).siblings, v)
    ensures Covers(acc.siblings, v) || SomeAnswerCovers(answers, v)
    decreases answers
  {
    if answers != [] && acc.reply.None? {
      hide Covers, TakeGet;
      NothingInvented(TakeGet(acc, answers[0], r, total), answers[1..], r, total, v);
      TakenCovers(acc, answers[0], r, total, v);
      if SomeAnswerCovers(answers[1..], v) {
        var i :| 0 <= i < |answers[1..]| && answers[1..][i].Some? && answers[1..][i].value.err == OK && Covers(answers[1..][i].value.objects, v);
        assert answers[i + 1] == answers[1..][i];
      }
    }
  }

  // ----- write plans

  /** `handoff` is empty when the target itself is to be written. */
  datatype Plan = Plan(target: Str, handoff: Str)

  function Receiver(p: Plan): Str { if p.handoff != [] then p.handoff else p.target }

  predicate IsDead(v: View, id: Str) { id in v && v[id] == Dead }

  predicate CanHost(v: View, used: set<Str>, id: Str) { id in v && id !in used && v[id] != Dead }

  function Hosts(v: View, used: set<Str>): set<Str> { set id | id in v && CanHost(v, used, id) }

  /** chooseHandoffNode: the first candidate in name order. */
  ghost function Handoff(v: View, used: set<Str>): (r: Option<Str>)
    ensures r.Some? ==> CanHost(v, used, r.value)
    ensures r.None? <==> Hosts(v, used) == {}
  {
    var l := Listing(Hosts(v, used));
    if l == [] then assert Elements(l) == {}; None
    else assert l[0] in Elements(l); Some(l[0])
  }

  method CollectHosts(v: View, used: set<Str>) returns (names: seq<Str>)
    ensures Distinct(names) && Elements(names) == Hosts(v, used)
  {
    names := [];
    var left := v.Keys;
    while left != {}
      invariant left <= v.Keys && Distinct(names)
      invariant Elements(names) == set id | id in v.Keys - left && CanHost(v, used, id)
      decreases |left|
    {
      var n :| n in left;
      left := left - {n};
      if !(n in used || v[n] == Dead) {
        assert n !in Elements(names);
        assert Elements(names + [n]) == Elements(names) + {n};
        names := names + [n];
      }
    }
  }

  method ChooseHandoffNode(v: View, used: set<Str>) returns (r: Option<Str>)
    ensures r == Handoff(v, used)
  {
    var names := CollectHosts(v, used);
    SortNamesListing(names);
    var sorted := SortNames(names);
    if |sorted| == 0 { return None; }
    return Some(sorted[0]);
  }

  lemma HandoffIsFirst(v: View, used: set<Str>, id: Str)
    requires CanHost(v, used, id)
    ensures Handoff(v, used).Some? && (Handoff(v, used).value == id || Less(Handoff(v, used).value, id))
  {
    var l := Listing(Hosts(v, used));
    assert id in Elements(l);
    var i :| 0 <= i < |l| && l[i] == id;
  }

  /** The looks at the member table that planning takes: each test and each choice locks anew. */
  datatype Looks = Looks(dead: View, hosts: View)

  /** The plans for the rest of a preference list. */
  ghost function PlansFor(prefs: seq<Str>, looks: seq<Looks>, used: set<Str>, handoffEnabled: bool): seq<Plan>
    requires |looks| == |prefs|
  {
    if prefs == [] then []
    else if !IsDead(looks[0].dead, prefs[0]) then
      [Plan(prefs[0], [])] + PlansFor(prefs[1..], looks[1..], used, handoffEnabled)
    else
      var h := if handoffEnabled then Handoff(looks[0].hosts, used) else None;
      if h.None? then PlansFor(prefs[1..], looks[1..], used, handoffEnabled)
      else [Plan(prefs[0], h.value)] + PlansFor(prefs[1..], looks[1..], used + {h.value}, handoffEnabled)
  }

  method BuildPlans(prefs: seq<Str>, looks: seq<Looks>, handoffEnabled: bool) returns (plans: seq<Plan>)
    requires |looks| == |prefs|
    ensures plans == PlansFor(prefs, looks, Elements(prefs), handoffEnabled)
    ensures Distinct(prefs) ==> PlansApart(plans)
  {
    var used := Elements(prefs);
    plans := [];
    for i := 0 to |prefs|
      invariant plans + PlansFor(prefs[i..], looks[i..], used, handoffEnabled) == PlansFor(prefs, looks, Elements(prefs), handoffEnabled)
    {
      assert prefs[i..][1..] == prefs[i + 1..] && looks[i..][1..] == looks[i + 1..];
      if IsDead(looks[i].dead, prefs[i]) {
        if handoffEnabled {
          var h := ChooseHandoffNode(looks[i].hosts, used);
          if h.Some? {
            used := used + {h.value};
            plans := plans + [Plan(prefs[i], h.value)];
          }
        }
      } else {
        plans := plans + [Plan(prefs[i], [])];
      }
    }
    if Distinct(prefs) { PlansAreApart(prefs, looks, handoffEnabled); }
  }

  /** The servers a plan may leave the write at. */
  function Footprint(p: Plan): set<Str> { {p.target, Receiver(p)} }

  /** No server can stand in for two plans. */
  predicate PlansApart(plans: seq<Plan>) {
    forall i, j | 0 <= i < j < |plans| :: Footprint(plans[i]) !! Footprint(plans[j])
  }

  lemma {:induction false} PlanShape(prefs: seq<Str>, looks: seq<Looks>, used: set<Str>, on: bool, p: Plan)
    requires |looks| == |prefs| && p in PlansFor(prefs, looks, used, on) && Elements(prefs) <= used
    ensures p.target in prefs && (p.handoff != [] ==> p.handoff !in used)
  {
    assert prefs == [prefs[0]] + prefs[1..];
    assert Elements(prefs[1..]) <= Elements(prefs);
    var h := if on then Handoff(looks[0].hosts, used) else None;
    if !IsDead(looks[0].dead, prefs[0]) {
      if p != Plan(prefs[0], []) { PlanShape(prefs[1..], looks[1..], used, on, p); }
    } else if h.None? {
      PlanShape(prefs[1..], looks[1..], used, on, p);
    } else if p != Plan(prefs[0], h.value) {
      PlanShape(prefs[1..], looks[1..], used + {h.value}, on, p);
    }
  }

  lemma ApartCons(p: Plan, rest: seq<Plan>)
    requires PlansApart(rest) && forall q | q in rest :: Footprint(p) !! Footprint(q)
    ensures PlansApart([p] + rest)
  {
    var plans := [p] + rest;
    forall i, j | 0 <= i < j < |plans| ensures Footprint(plans[i]) !! Footprint(plans[j]) {
      assert plans[j] == rest[j - 1] && (i > 0 ==> plans[i] == rest[i - 1]);
    }
  }

  lemma {:induction false} PlansApartFrom(prefs: seq<Str>, looks: seq<Looks>, used: set<Str>, on: bool)
    requires |looks| == |prefs| && Distinct(prefs) && Elements(prefs) <= used
    ensures PlansApart(PlansFor(prefs, looks, used, on))
  {
    if prefs != [] {
      assert prefs == [prefs[0]] + prefs[1..];
      assert Elements(prefs[1..]) <= Elements(prefs) && prefs[0] in Elements(prefs);
      var h := if on then Handoff(looks[0].hosts, used) else None;
      var alive := !IsDead(looks[0].dead, prefs[0]);
      var used' := if !alive && h.Some? then used + {h.value} else used;
      var rest := PlansFor(prefs[1..], looks[1..], used', on);
      PlansApartFrom(prefs[1..], looks[1..], used', on);
      if alive || h.Some? {
        var p := if alive then Plan(prefs[0], []) else Plan(prefs[0], h.value);
        forall q | q in rest ensures Footprint(p) !! Footprint(q) {
          PlanShape(prefs[1..], looks[1..], used', on, q);
          assert q.target in Elements(prefs[1..]);
        }
        ApartCons(p, rest);
      }
    }
  }

  /** Whatever the member tables say at each look, the receivers of a plan are pairwise distinct servers. */
  lemma PlansAreApart(prefs: seq<Str>, looks: seq<Looks>, on: bool)
    requires |looks| == |prefs| && Distinct(prefs)
    ensures PlansApart(PlansFor(prefs, looks, Elements(prefs), on))
  {
    PlansApartFrom(prefs, looks, Elements(prefs), on);
  }

  // ----- write results

  datatype PutAcc = PutAcc(received: nat, successCount: nat, versionErrCount: nat, noKeyCount: nat, reply: Option<Err>)

  const NO_RESULTS: PutAcc := PutAcc(0, 0, 0, 0, None)

  /** One round of CoordPut's result loop, with `total` plans and write quorum `w`. */
  function TakePut(acc: PutAcc, result: Option<Err>, w: int, total: nat): PutAcc {
    var acc := acc.(received := acc.received + 1);
    var next :=
      if result.None? then acc
      else if result.value == OK then
        var acc := acc.(successCount := acc.successCount + 1);
        if acc.successCount >= w then acc.(reply := Some(OK)) else acc
      else if result.value == ErrVersion then acc.(versionErrCount := acc.versionErrCount + 1)
      else if result.value == ErrNoKey then acc.(noKeyCount := acc.noKeyCount + 1)
      else acc;
    if next.reply.None? && next.received >= total then next.(reply := Some(Verdict(next, w))) else next
  }

  function Verdict(acc: PutAcc, w: int): Err {
    if acc.versionErrCount >= w then ErrVersion else if acc.noKeyCount >= w then ErrNoKey else ErrWriteQuorumNotMet
  }

  function TakePuts(acc: PutAcc, results: seq<Option<Err>>, w: int, total: nat): PutAcc
    decreases results
  {
    if results == [] || acc.reply.Some? then acc else TakePuts(TakePut(acc, results[0], w, total), results[1..], w, total)
  }

  function ResultCount(results: seq<Option<Err>>, err: Err): nat {
    if results == [] then 0 else (if results[0] == Some(err) then 1 else 0) + ResultCount(results[1..], err)
  }

  function VerdictOf(oks: nat, versionErrs: nat, noKeys: nat, w: int): Err {
    if oks >= w then OK else if versionErrs >= w then ErrVersion else if noKeys >= w then ErrNoKey else ErrWriteQuorumNotMet
  }

  lemma {:induction false} PutVerdictFrom(acc: PutAcc, results: seq<Option<Err>>, w: int, total: nat)
    requires results != [] && acc.reply.None? && acc.received + |results| == total && acc.successCount < w
    ensures TakePuts(acc, results, w, total).reply == Some(VerdictOf(acc.successCount + ResultCount(results, OK),
      acc.versionErrCount + ResultCount(results, ErrVersion), acc.noKeyCount + ResultCount(results, ErrNoKey), w))
    decreases results
  {
    var next := TakePut(acc, results[0], w, total);
    if next.reply.None? {
      PutVerdictFrom(next, results[1..], w, total);
    } else {
      assert TakePuts(next, results[1..], w, total) == next;
      if |results| == 1 { assert results[1..] == []; }
    }
  }

  /** The verdict on a write depends only on how many results of each kind there are, not on the order in which they arrive. */
  lemma PutVerdict(results: seq<Option<Err>>, w: int)
    requires results != [] && w >= 1
    ensures TakePuts(NO_RESULTS, results, w, |results|).reply
      == Some(VerdictOf(ResultCount(results, OK), ResultCount(results, ErrVersion), ResultCount(results, ErrNoKey), w))
  {
    PutVerdictFrom(NO_RESULTS, results, w, |results|);
  }

  method CollectPuts(results: seq<Option<Err>>, w: int) returns (err: Err)
    ensures results != [] ==> Some(err) == TakePuts(NO_RESULTS, results, w, |results|).reply
  {
    var successCount, versionErrCount, noKeyCount := 0, 0, 0;
    ghost var acc := NO_RESULTS;
    for i := 0 to |results|
      invariant var a := PutAcc(i, successCount, versionErrCount, noKeyCount, None);
        acc == if i == |results| > 0 then a.(reply := Some(Verdict(a, w))) else a
      invariant TakePuts(NO_RESULTS, results, w, |results|) == TakePuts(acc, results[i..], w, |results|)
    {
      assert results[i..][0] == results[i] && results[i..][1..] == results[i + 1..];
      acc := TakePut(acc, results[i], w, |results|);
      if results[i].Some? {
        if results[i].value == OK {
          successCount := successCount + 1;
          if successCount >= w { return OK; }
        } else if results[i].value == ErrVersion {
          versionErrCount := versionErrCount + 1;
        } else if results[i].value == ErrNoKey {
          noKeyCount := noKeyCount + 1;
        }
      }
    }
    if versionErrCount >= w { return ErrVersion; }
    if noKeyCount >= w { return ErrNoKey; }
    return ErrWriteQuorumNotMet;
  }
}
