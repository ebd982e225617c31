/**
 Exactly when the install of a merge loses something. Any steps may come between the merge's two critical sections
 (src/kvsrv/server.go:672-693); the entry that was computed waits and is installed as it was.
 */
module LateInstall {
  import opened Base
  import opened VectorClock
  import opened Siblings
  import opened SiblingAlgebra
  import opened Replica
  import opened StoreRuns

  /** Where a waiting entry is after a step: entries before it may be finished. */
  function Moved(step: Step, p: nat): nat { if step.FinishMerge? && step.i < p then p - 1 else p }

  function Position(run: seq<Step>, p: nat): nat
    decreases run
  {
    if run == [] then p else Position(run[1..], Moved(run[0], p))
  }

  /** The entry is still waiting when the run ends. */
  predicate Waits(run: seq<Step>, p: nat)
    decreases run
  {
    run == [] || (run[0] != FinishMerge(p) && Waits(run[1..], Moved(run[0], p)))
  }

  lemma {:induction false} EntryStays(at: Placement, s: State, run: seq<Step>, p: nat)
    requires AllEnabled(at, s, run) && p < |s.pending| && Waits(run, p)
    ensures var t := Reach(at, s, run);
      Position(run, p) < |t.pending| && t.pending[Position(run, p)] == s.pending[p]
    decreases run
  {
    if run != [] {
      hide Put, Install, Merge, Changes;
      var next := Next(at, s, run[0]);
      assert Moved(run[0], p) < |next.pending| && next.pending[Moved(run[0], p)] == s.pending[p];
      EntryStays(at, next, run[1..], Moved(run[0], p));
    }
  }

  // ----- what comes in between

  /** The step changes what the key stores other than by a put: it deletes the key, or finishes a merge of it. */
  predicate Replaces(s: State, step: Step, key: Str)
    requires Enabled(s, step)
  {
    (step.DoDelete? && step.key == key) || (step.FinishMerge? && s.pending[step.i].key == key)
  }

  predicate Accepted(at: Placement, s: State, step: Step, key: Str) {
    step.DoPut? && step.args.key == key && Put(at, s.server, step.args).1 == OK
  }

  /** No step of the run deletes the key or finishes a merge of it; puts, hints, computes and other keys are free. */
  predicate Quiet(at: Placement, s: State, run: seq<Step>, key: Str)
    requires AllEnabled(at, s, run)
    decreases run
  {
    run == [] || (!Replaces(s, run[0], key) && Quiet(at, Next(at, s, run[0]), run[1..], key))
  }

  /** Every put on the key that the run accepts is covered by these objects. */
  predicate PutsCovered(at: Placement, s: State, run: seq<Step>, key: Str, objects: seq<Object>)
    requires AllEnabled(at, s, run)
    decreases run
  {
    run == []
    || ((Accepted(at, s, run[0], key) ==> Covers(objects, Clock(run[0].args.obj)))
        && PutsCovered(at, Next(at, s, run[0]), run[1..], key, objects))
  }

  lemma {:induction false} QuietWaits(at: Placement, s: State, run: seq<Step>, p: nat, key: Str)
    requires AllEnabled(at, s, run) && p < |s.pending| && s.pending[p].key == key && Quiet(at, s, run, key)
    ensures Waits(run, p)
    decreases run
  {
    if run != [] {
      hide Put, Install, Merge, Changes;
      var next := Next(at, s, run[0]);
      assert Moved(run[0], p) < |next.pending| && next.pending[Moved(run[0], p)] == s.pending[p];
      QuietWaits(at, next, run[1..], Moved(run[0], p), key);
    }
  }

  /** A step that does not replace what the key stores only adds an accepted put to what it covers. */
  lemma QuietStep(at: Placement, s: State, step: Step, key: Str, v: VClock)
    requires Enabled(s, step) && !Replaces(s, step, key)
    ensures Covers(Stored(Next(at, s, step).server, key), v) <==>
      Covers(Stored(s.server, key), v) || (Accepted(at, s, step, key) && Leq(v, Clock(step.args.obj)))
  {
    if step.DoPut? {
      PutCovers(at, s.server, step.args, key, v);
    } else {
      assert Stored(Next(at, s, step).server, key) == Stored(s.server, key);
    }
  }

  /** An accepted put was covered by nothing that was stored. */
  lemma AcceptedIsNew(at: Placement, s: State, step: Step, key: Str)
    requires Enabled(s, step) && Accepted(at, s, step, key)
    ensures !Covers(Stored(s.server, key), Clock(step.args.obj))
  {
    PutAddable(step.args, Stored(s.server, key));
  }

  // ----- both directions

  lemma {:induction false} CoveredPutsAddNothing(at: Placement, s: State, run: seq<Step>, key: Str, incoming: seq<Object>, v: VClock)
    requires AllEnabled(at, s, run) && Quiet(at, s, run, key) && PutsCovered(at, s, run, key, incoming)
    requires Covers(Stored(Reach(at, s, run).server, key), v)
    ensures Covers(Stored(s.server, key), v) || Covers(incoming, v)
    decreases run
  {
    if run != [] {
      hide Covers, Next, Put, Replaces;
      var next := Next(at, s, run[0]);
      CoveredPutsAddNothing(at, next, run[1..], key, incoming, v);
      QuietStep(at, s, run[0], key, v);
      if run[0].DoPut? && Accepted(at, s, run[0], key) && Leq(v, Clock(run[0].args.obj)) {
        CoversDown(incoming, v, Clock(run[0].args.obj));
      }
    }
  }

  lemma {:induction false} QuietRunKeeps(at: Placement, s: State, run: seq<Step>, key: Str, v: VClock)
    requires AllEnabled(at, s, run) && Quiet(at, s, run, key) && Covers(Stored(s.server, key), v)
    ensures Covers(Stored(Reach(at, s, run).server, key), v)
    decreases run
  {
    if run != [] {
      hide Covers, Next, Accepted, Replaces;
      QuietStep(at, s, run[0], key, v);
      QuietRunKeeps(at, Next(at, s, run[0]), run[1..], key, v);
    }
  }

  /** What was stored when the merge was computed. */
  ghost predicate Knows(s: seq<Object>, early: seq<Object>) {
    forall v: VClock | Covers(early, v) :: Covers(s, v)
  }

  lemma {:induction false} NothingLostMeansCovered(at: Placement, s: State, run: seq<Step>, key: Str, early: seq<Object>, incoming: seq<Object>)
    requires AllEnabled(at, s, run) && Quiet(at, s, run, key) && Knows(Stored(s.server, key), early)
    requires forall v: VClock | Covers(Stored(Reach(at, s, run).server, key), v) :: Covers(early, v) || Covers(incoming, v)
    ensures PutsCovered(at, s, run, key, incoming)
    decreases run
  {
    if run != [] {
      hide Covers, Next, Put, Replaces;
      var step, next := run[0], Next(at, s, run[0]);
      forall v: VClock | Covers(early, v) ensures Covers(Stored(next.server, key), v) { QuietStep(at, s, step, key, v); }
      NothingLostMeansCovered(at, next, run[1..], key, early, incoming);
      if Accepted(at, s, step, key) {
        var c := Clock(step.args.obj);
        QuietStep(at, s, step, key, c);
        QuietRunKeeps(at, next, run[1..], key, c);
        AcceptedIsNew(at, s, step, key);
      }
    }
  }

  /** The state when the merge has been computed, and what it will install. */
  function Computed(at: Placement, s: State, key: Str, incoming: seq<Object>): State { Next(at, s, ComputeMerge(key, incoming)) }

  lemma ComputedIs(at: Placement, s: State, key: Str, incoming: seq<Object>)
    requires Changes(Stored(s.server, key), incoming)
    ensures Computed(at, s, key, incoming).server == s.server
    ensures Computed(at, s, key, incoming).pending == s.pending + [Pending(key, Merge(Stored(s.server, key), incoming))]
    ensures Merge(Stored(s.server, key), incoming) != []
  {
    var i :| 0 <= i < |incoming| && CanBeAdded(incoming[i], Stored(s.server, key));
    MergeKeeps(Stored(s.server, key), incoming);
  }

  lemma InstalledStored(at: Placement, s: State, p: nat)
    requires p < |s.pending| && s.pending[p].objects != []
    ensures Stored(Next(at, s, FinishMerge(p)).server, s.pending[p].key) == s.pending[p].objects
  {
  }

  /** What the key stores before and after the entry is finished. */
  lemma FinishedMerge(at: Placement, s: State, key: Str, incoming: seq<Object>, mid: seq<Step>)
    requires Changes(Stored(s.server, key), incoming) && AllEnabled(at, Computed(at, s, key, incoming), mid) && Waits(mid, |s.pending|)
    ensures var t, p := Reach(at, Computed(at, s, key, incoming), mid), Position(mid, |s.pending|);
      && p < |t.pending| && t.pending[p].key == key
      && Stored(Next(at, t, FinishMerge(p)).server, key) == Merge(Stored(s.server, key), incoming)
  {
    ComputedIs(at, s, key, incoming);
    var s1, p := Computed(at, s, key, incoming), |s.pending|;
    assert s1.pending[p] == Pending(key, Merge(Stored(s.server, key), incoming));
    hide Computed, Merge, Changes, AllEnabled, Reach, Waits, Position;
    EntryStays(at, s1, mid, p);
    InstalledStored(at, Reach(at, s1, mid), Position(mid, p));
  }

  /**
   A merge whose install comes late loses nothing of its key exactly when every put on the key that was accepted in
   between is covered by the objects that were being merged. In between anything may happen except that the key is
   deleted or another merge of it finished.
   */
  lemma LateInstallExactly(at: Placement, s: State, key: Str, incoming: seq<Object>, mid: seq<Step>)
    requires Changes(Stored(s.server, key), incoming) && AllEnabled(at, Computed(at, s, key, incoming), mid)
    requires Quiet(at, Computed(at, s, key, incoming), mid, key)
    ensures var s1, p := Computed(at, s, key, incoming), Position(mid, |s.pending|);
      var s2 := Reach(at, s1, mid);
      && p < |s2.pending| && s2.pending[p].key == key
      && (NoRollback(Stored(s2.server, key), Stored(Next(at, s2, FinishMerge(p)).server, key)) <==> PutsCovered(at, s1, mid, key, incoming))
  {
    var s1, p, early := Computed(at, s, key, incoming), Position(mid, |s.pending|), Stored(s.server, key);
    ComputedIs(at, s, key, incoming);
    hide Computed, Merge, Changes, Next, Covers;
    QuietWaits(at, s1, mid, |s.pending|, key);
    FinishedMerge(at, s, key, incoming, mid);
    var s2 := Reach(at, s1, mid);
    var installed := Merge(early, incoming);
    forall v: VClock ensures Covers(installed, v) <==> Covers(early, v) || Covers(incoming, v) { MergeCovers(early, incoming, v); }
    if PutsCovered(at, s1, mid, key, incoming) {
      forall v: VClock | Covers(Stored(s2.server, key), v) ensures Covers(installed, v) {
        CoveredPutsAddNothing(at, s1, mid, key, incoming, v);
      }
    }
    if NoRollback(Stored(s2.server, key), installed) {
      NothingLostMeansCovered(at, s1, mid, key, early, incoming);
    }
  }

  // ----- anything in between

  /** Every accepted put on the key and every finished merge of it is covered by these objects. */
  predicate ChangesCovered(at: Placement, s: State, run: seq<Step>, key: Str, objects: seq<Object>)
    requires AllEnabled(at, s, run)
    decreases run
  {
    run == []
    || (StepCovered(at, s, run[0], key, objects) && ChangesCovered(at, Next(at, s, run[0]), run[1..], key, objects))
  }

  predicate StepCovered(at: Placement, s: State, step: Step, key: Str, objects: seq<Object>)
    requires Enabled(s, step)
  {
    && (Accepted(at, s, step, key) ==> Covers(objects, Clock(step.args.obj)))
    && (step.FinishMerge? && s.pending[step.i].key == key ==> AllCovered(s.pending[step.i].objects, objects))
  }

  predicate AllCovered(listed: seq<Object>, objects: seq<Object>) {
    forall i | 0 <= i < |listed| :: Covers(objects, Clock(listed[i]))
  }

  lemma AllCoveredKnown(listed: seq<Object>, objects: seq<Object>, v: VClock)
    requires AllCovered(listed, objects) && Covers(listed, v)
    ensures Covers(objects, v)
  {
    var i :| 0 <= i < |listed| && Leq(v, Clock(listed[i]));
    CoversDown(objects, v, Clock(listed[i]));
  }

  lemma CoveredStep(at: Placement, s: State, step: Step, key: Str, objects: seq<Object>, v: VClock)
    requires Enabled(s, step) && StepCovered(at, s, step, key, objects)
    requires Covers(Stored(Next(at, s, step).server, key), v)
    ensures Covers(Stored(s.server, key), v) || Covers(objects, v)
  {
    if !Replaces(s, step, key) {
      QuietStep(at, s, step, key, v);
      if Accepted(at, s, step, key) && Leq(v, Clock(step.args.obj)) { CoversDown(objects, v, Clock(step.args.obj)); }
    } else if step.FinishMerge? && s.pending[step.i].objects != [] {
      InstalledStored(at, s, step.i);
      AllCoveredKnown(s.pending[step.i].objects, objects, v);
    }
  }

  lemma {:induction false} CoveredRun(at: Placement, s: State, run: seq<Step>, key: Str, objects: seq<Object>, v: VClock)
    requires AllEnabled(at, s, run) && ChangesCovered(at, s, run, key, objects)
    requires Covers(Stored(Reach(at, s, run).server, key), v)
    ensures Covers(Stored(s.server, key), v) || Covers(objects, v)
    decreases run
  {
    if run != [] {
      hide Covers, Next, StepCovered;
      CoveredRun(at, Next(at, s, run[0]), run[1..], key, objects, v);
      if !Covers(objects, v) { CoveredStep(at, s, run[0], key, objects, v); }
    }
  }

  /** Whatever comes in between, deletes and other merges of the key included: nothing is lost if what it put or installed is covered by the result. */
  lemma LateInstallSafe(at: Placement, s: State, key: Str, incoming: seq<Object>, mid: seq<Step>)
    requires Changes(Stored(s.server, key), incoming) && AllEnabled(at, Computed(at, s, key, incoming), mid) && Waits(mid, |s.pending|)
    requires ChangesCovered(at, Computed(at, s, key, incoming), mid, key, Merge(Stored(s.server, key), incoming))
    ensures var s2, p := Reach(at, Computed(at, s, key, incoming), mid), Position(mid, |s.pending|);
      && p < |s2.pending| && s2.pending[p].key == key
      && NoRollback(Stored(s2.server, key), Stored(Next(at, s2, FinishMerge(p)).server, key))
  {
    var s1, early := Computed(at, s, key, incoming), Stored(s.server, key);
    ComputedIs(at, s, key, incoming);
    hide Computed, Merge, Changes, Next, Covers;
    FinishedMerge(at, s, key, incoming, mid);
    var installed := Merge(early, incoming);
    forall v: VClock | Covers(Stored(Reach(at, s1, mid).server, key), v) ensures Covers(installed, v) {
      CoveredRun(at, s1, mid, key, installed, v);
      MergeCovers(early, incoming, v);
    }
  }
}
