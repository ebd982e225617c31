/**
 Which plans CoordPut makes (src/kvsrv/server.go:308-336): the decision at every member of the preference list, stated
 by itself, and how many plans there are when the member table does not change meanwhile.
 */
module WritePlans {
  import opened Base
  import opened Membership
  import opened Coordinator

  // ----- the decision at each preference

  /** The stand-ins chosen for dead members of the list. */
  function StandIns(prefs: seq<Str>, looks: seq<Looks>, choices: seq<Option<Plan>>): set<Str>
    requires |choices| <= |prefs| == |looks|
  {
    set i | 0 <= i < |choices| && IsDead(looks[i].dead, prefs[i]) && choices[i].Some? :: choices[i].value.handoff
  }

  /** The first member in name order that is not dead, not on the list and not chosen before. */
  ghost predicate FirstSpare(view: View, taken: set<Str>, h: Str) {
    && h in view && view[h] != Dead && h !in taken
    && forall x | x in view && view[x] != Dead && x !in taken :: x == h || Less(h, x)
  }

  /**
   The decision at place i: a member that is not dead is written directly. For a dead one, if handoff is enabled, the
   first spare member takes a hint; without handoff or without a spare member it is passed over.
   */
  ghost predicate Decided(prefs: seq<Str>, looks: seq<Looks>, on: bool, choices: seq<Option<Plan>>, i: nat)
    requires |choices| == |prefs| == |looks| && i < |prefs|
  {
    var taken := Elements(prefs) + StandIns(prefs, looks, choices[..i]);
    if !(prefs[i] in looks[i].dead && looks[i].dead[prefs[i]] == Dead) then choices[i] == Some(Plan(prefs[i], []))
    else if !on then choices[i] == None
    else match choices[i]
      case Some(p) => p.target == prefs[i] && FirstSpare(looks[i].hosts, taken, p.handoff)
      case None => forall x | x in looks[i].hosts && looks[i].hosts[x] != Dead :: x in taken
  }

  ghost predicate AllDecided(prefs: seq<Str>, looks: seq<Looks>, on: bool, choices: seq<Option<Plan>>) {
    |choices| == |prefs| == |looks| && forall i: nat | i < |prefs| :: Decided(prefs, looks, on, choices, i)
  }

  function Listed(choice: Option<Plan>): seq<Plan> { match choice case Some(p) => [p] case None => [] }

  /** The plans that were made, in the order of the list. */
  function Made(choices: seq<Option<Plan>>): seq<Plan> {
    if choices == [] then []
    else Made(choices[..|choices| - 1]) + Listed(choices[|choices| - 1])
  }

  // ----- the plans are exactly the decisions

  /** The plans for the first n preferences, and the servers used by then. */
  lemma {:induction false} Decisions(prefs: seq<Str>, looks: seq<Looks>, on: bool, n: nat) returns (choices: seq<Option<Plan>>)
    requires |looks| == |prefs| && n <= |prefs|
    ensures |choices| == |prefs| && (forall i: nat | i < n :: Decided(prefs, looks, on, choices, i))
    ensures var used := Elements(prefs) + StandIns(prefs, looks, choices[..n]);
      PlansFor(prefs, looks, Elements(prefs), on) == Made(choices[..n]) + PlansFor(prefs[n..], looks[n..], used, on)
  {
    if n == 0 {
      choices := seq(|prefs|, _ => None);
      assert prefs[0..] == prefs && looks[0..] == looks;
      assert StandIns(prefs, looks, choices[..0]) == {} && Made(choices[..0]) == [];
      assert Elements(prefs) + {} == Elements(prefs);
    } else {
      var before := Decisions(prefs, looks, on, n - 1);
      choices := OneMore(prefs, looks, on, n - 1, before);
    }
  }

  /** What CoordPut does about one member of the list. */
  ghost function Choice(target: Str, look: Looks, used: set<Str>, on: bool): Option<Plan> {
    if !IsDead(look.dead, target) then Some(Plan(target, []))
    else match (if on then Handoff(look.hosts, used) else None)
      case Some(h) => Some(Plan(target, h))
      case None => None
  }

  lemma PlansStep(prefs: seq<Str>, looks: seq<Looks>, used: set<Str>, on: bool, n: nat)
    requires |looks| == |prefs| && n < |prefs|
    ensures var choice := Choice(prefs[n], looks[n], used, on);
      var used' := used + if IsDead(looks[n].dead, prefs[n]) && choice.Some? then {choice.value.handoff} else {};
      PlansFor(prefs[n..], looks[n..], used, on) == Listed(choice) + PlansFor(prefs[n + 1..], looks[n + 1..], used', on)
  {
    assert prefs[n..][1..] == prefs[n + 1..] && looks[n..][1..] == looks[n + 1..];
    assert used + {} == used;
    hide Handoff;
  }

  lemma ChoiceIsDecided(prefs: seq<Str>, looks: seq<Looks>, on: bool, choices: seq<Option<Plan>>, i: nat)
    requires |choices| == |prefs| == |looks| && i < |prefs|
    requires choices[i] == Choice(prefs[i], looks[i], Elements(prefs) + StandIns(prefs, looks, choices[..i]), on)
    ensures Decided(prefs, looks, on, choices, i)
  {
    var taken := Elements(prefs) + StandIns(prefs, looks, choices[..i]);
    SpareIsHandoff(looks[i].hosts, taken);
    hide Handoff, FirstSpare, StandIns;
  }

  lemma MadeAppend(choices: seq<Option<Plan>>, choice: Option<Plan>)
    ensures Made(choices + [choice]) == Made(choices) + Listed(choice)
  {
    assert (choices + [choice])[..|choices|] == choices;
  }

  lemma DecidedByPrefix(prefs: seq<Str>, looks: seq<Looks>, on: bool, a: seq<Option<Plan>>, b: seq<Option<Plan>>, i: nat)
    requires |a| == |b| == |prefs| == |looks| && i < |prefs| && Decided(prefs, looks, on, a, i)
    requires forall j | 0 <= j <= i :: a[j] == b[j]
    ensures Decided(prefs, looks, on, b, i)
  {
    assert a[..i] == b[..i];
    hide FirstSpare, StandIns;
  }

  lemma OneMore(prefs: seq<Str>, looks: seq<Looks>, on: bool, n: nat, before: seq<Option<Plan>>) returns (choices: seq<Option<Plan>>)
    requires |looks| == |prefs| == |before| && n < |prefs| && forall i: nat | i < n :: Decided(prefs, looks, on, before, i)
    ensures |choices| == |prefs| && forall i: nat | i < n + 1 :: Decided(prefs, looks, on, choices, i)
    ensures var used, used' := Elements(prefs) + StandIns(prefs, looks, before[..n]), Elements(prefs) + StandIns(prefs, looks, choices[..n + 1]);
      Made(before[..n]) + PlansFor(prefs[n..], looks[n..], used, on)
      == Made(choices[..n + 1]) + PlansFor(prefs[n + 1..], looks[n + 1..], used', on)
  {
    hide Made, Choice, StandIns, Decided, PlansFor, Elements, Listed, IsDead;
    var used := Elements(prefs) + StandIns(prefs, looks, before[..n]);
    var choice := Choice(prefs[n], looks[n], used, on);
    choices := before[n := choice];
    var now := choices[..n + 1];
    assert choices[..n] == before[..n] && now == before[..n] + [choice];
    MadeAppend(before[..n], choice);
    forall i: nat | i < n ensures Decided(prefs, looks, on, choices, i) { DecidedByPrefix(prefs, looks, on, before, choices, i); }
    ChoiceIsDecided(prefs, looks, on, choices, n);
    StandInsStep(prefs, looks, choices, n);
    PlansStep(prefs, looks, used, on, n);
    var used' := used + if IsDead(looks[n].dead, prefs[n]) && choice.Some? then {choice.value.handoff} else {};
    assert Elements(prefs) + StandIns(prefs, looks, now) == used';
  }

  lemma StandInsStep(prefs: seq<Str>, looks: seq<Looks>, choices: seq<Option<Plan>>, n: nat)
    requires |looks| == |prefs| == |choices| && n < |prefs|
    ensures StandIns(prefs, looks, choices[..n + 1]) == StandIns(prefs, looks, choices[..n])
      + if IsDead(looks[n].dead, prefs[n]) && choices[n].Some? then {choices[n].value.handoff} else {}
  {
    var before, now := choices[..n], choices[..n + 1];
    assert forall i | 0 <= i < n :: now[i] == before[i];
  }

  lemma SpareIsHandoff(view: View, taken: set<Str>)
    ensures match Handoff(view, taken)
      case Some(h) => FirstSpare(view, taken, h)
      case None => forall x | x in view && view[x] != Dead :: x in taken
  {
    forall x | x in view && view[x] != Dead && x !in taken
      ensures Handoff(view, taken).Some? && (Handoff(view, taken).value == x || Less(Handoff(view, taken).value, x))
    {
      HandoffIsFirst(view, taken, x);
    }
  }

  /** The decisions of CoordPut, and its plans as those that were made. */
  lemma PlansAreDecisions(prefs: seq<Str>, looks: seq<Looks>, on: bool) returns (choices: seq<Option<Plan>>)
    requires |looks| == |prefs|
    ensures AllDecided(prefs, looks, on, choices) && PlansFor(prefs, looks, Elements(prefs), on) == Made(choices)
  {
    choices := Decisions(prefs, looks, on, |prefs|);
    assert choices[..|prefs|] == choices;
  }

  lemma {:induction false} DecisionsAgree(prefs: seq<Str>, looks: seq<Looks>, on: bool, a: seq<Option<Plan>>, b: seq<Option<Plan>>, n: nat)
    requires AllDecided(prefs, looks, on, a) && AllDecided(prefs, looks, on, b) && n <= |prefs|
    ensures a[..n] == b[..n]
  {
    if n > 0 {
      var i := n - 1;
      DecisionsAgree(prefs, looks, on, a, b, i);
      assert Decided(prefs, looks, on, a, i) && Decided(prefs, looks, on, b, i);
      hide StandIns, Elements;
      var taken := Elements(prefs) + StandIns(prefs, looks, a[..i]);
      if a[i].Some? && b[i].Some? && a[i] != b[i] { LessTotal(a[i].value.handoff, b[i].value.handoff); }
      assert a[..n] == a[..i] + [a[i]] && b[..n] == b[..i] + [b[i]];
    }
  }

  /** So the plans are those and no others: whatever satisfies the decisions is what CoordPut made. */
  lemma PlansExactly(prefs: seq<Str>, looks: seq<Looks>, on: bool, plans: seq<Plan>)
    requires |looks| == |prefs|
    ensures plans == PlansFor(prefs, looks, Elements(prefs), on) <==> exists choices :: AllDecided(prefs, looks, on, choices) && plans == Made(choices)
  {
    var made := PlansAreDecisions(prefs, looks, on);
    forall choices | AllDecided(prefs, looks, on, choices) ensures choices == made {
      DecisionsAgree(prefs, looks, on, choices, made, |prefs|);
      assert choices == choices[..|prefs|] && made == made[..|prefs|];
    }
  }

  // ----- what follows

  lemma {:induction false} MadeMembers(choices: seq<Option<Plan>>, p: Plan)
    ensures p in Made(choices) <==> Some(p) in choices
  {
    if choices != [] {
      var n := |choices| - 1;
      MadeMembers(choices[..n], p);
      assert choices == choices[..n] + [choices[n]];
    }
  }

  /** A member that is not dead at its look, be it suspected, is written directly; without handoff only those are written. */
  lemma LivingAreDirect(prefs: seq<Str>, looks: seq<Looks>, on: bool, i: nat)
    requires |looks| == |prefs| && i < |prefs|
    ensures !IsDead(looks[i].dead, prefs[i]) ==> Plan(prefs[i], []) in PlansFor(prefs, looks, Elements(prefs), on)
    ensures !on ==> forall p | p in PlansFor(prefs, looks, Elements(prefs), on) :: p.handoff == [] && p.target in prefs
  {
    var choices := PlansAreDecisions(prefs, looks, on);
    assert Decided(prefs, looks, on, choices, i);
    MadeMembers(choices, Plan(prefs[i], []));
    if !on {
      forall p | p in Made(choices) ensures p.handoff == [] && p.target in prefs {
        MadeMembers(choices, p);
        var j: nat :| j < |choices| && choices[j] == Some(p);
        assert Decided(prefs, looks, on, choices, j);
      }
    }
  }

  // ----- how many plans there are

  /** How many of the list the member table takes for dead. */
  function DeadCount(prefs: seq<Str>, view: View): (n: nat)
    ensures n <= |prefs|
  {
    if prefs == [] then 0 else (if IsDead(view, prefs[0]) then 1 else 0) + DeadCount(prefs[1..], view)
  }

  /** Every look sees the same member table. */
  function Steady(view: View, n: nat): seq<Looks> { seq(n, _ => Looks(view, view)) }

  lemma HostTaken(view: View, used: set<Str>, h: Str)
    requires CanHost(view, used, h)
    ensures |Hosts(view, used + {h})| == |Hosts(view, used)| - 1
  {
    assert Hosts(view, used + {h}) == Hosts(view, used) - {h};
  }

  lemma {:induction false} PlanCountFrom(prefs: seq<Str>, view: View, used: set<Str>, on: bool)
    ensures var dead, spare := DeadCount(prefs, view), if on then |Hosts(view, used)| else 0;
      |PlansFor(prefs, Steady(view, |prefs|), used, on)| == |prefs| - dead + if dead <= spare then dead else spare
  {
    if prefs != [] {
      var looks := Steady(view, |prefs|);
      assert looks[1..] == Steady(view, |prefs[1..]|) && looks[0] == Looks(view, view);
      hide CanHost, Hosts;
      if IsDead(view, prefs[0]) && on && Handoff(view, used).Some? {
        HostTaken(view, used, Handoff(view, used).value);
        PlanCountFrom(prefs[1..], view, used + {Handoff(view, used).value}, on);
      } else {
        PlanCountFrom(prefs[1..], view, used, on);
      }
    }
  }

  /**
   With a member table that does not change, there is a plan for every member that is not dead, and with handoff for as
   many dead ones as there are spare members: others that are not dead.
   */
  lemma PlanCount(prefs: seq<Str>, view: View, on: bool)
    ensures var dead, spare := DeadCount(prefs, view), if on then |set x | x in view && view[x] != Dead && x !in prefs| else 0;
      |PlansFor(prefs, Steady(view, |prefs|), Elements(prefs), on)| == |prefs| - dead + if dead <= spare then dead else spare
  {
    PlanCountFrom(prefs, view, Elements(prefs), on);
    assert Hosts(view, Elements(prefs)) == set x | x in view && view[x] != Dead && x !in prefs;
  }
}
