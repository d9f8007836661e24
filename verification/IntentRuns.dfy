/** Runs of phase attempts, edits, reviews and amendments, in any order. */
module IntentRuns {
  import opened Options
  import opened JsonText
  import opened Json
  import opened Intent
  import Seqs

  datatype Step =
    | Attempt(target: Phase, force: bool)
    | Load(tasks: nat, force: bool)
    | EditGoals(goals: Option<Document>)
    | EditSpec(spec: Option<Text>)
    | EditPlan(plan: Option<Text>)
    | EditIndex(index: Option<Json>)
    | Interviewed(interview: Interview)
    | Review(gate: Gate)
    | Amend(hash: Option<string>)
    | Check
    | Archive(archived: bool)

  /** One step; a refused verb is a step too. */
  function Do(b: Bundle, step: Step): Bundle {
    match step
    case Attempt(target, force) => SetPhase(b, target, force).0
    case Load(tasks, force) => LoadPlan(b, tasks, force).0
    case EditGoals(goals) => b.(goals := goals)
    case EditSpec(spec) => b.(spec := spec)
    case EditPlan(plan) => b.(plan := plan)
    case EditIndex(index) => b.(index := index)
    case Interviewed(interview) => b.(interview := interview)
    case Review(gate) => if GateKey(b, gate).Some? then Logged(b, GateReviewed(gate, GateKey(b, gate).value)) else b
    case Amend(hash) => Logged(b, GoalAmended(hash))
    case Check => Logged(b, GoalChecked)
    case Archive(archived) => b.(archived := archived)
  }

  function Run(b: Bundle, steps: seq<Step>): Bundle
    decreases |steps|
  {
    if steps == [] then b else Run(Do(b, steps[0]), steps[1..])
  }

  // ---- the log ----

  function Freezes(log: seq<Event>): nat {
    if log == [] then 0 else Freezes(log[..|log| - 1]) + if log[|log| - 1].GoalsFrozen? then 1 else 0
  }

  lemma Snoc(log: seq<Event>, e: Event)
    ensures Committed(log + [e]) == if IsLineage(e) then e.hash else Committed(log)
    ensures Freezes(log + [e]) == Freezes(log) + if e.GoalsFrozen? then 1 else 0
    ensures HasFreeze(log + [e]) <==> HasFreeze(log) || e.GoalsFrozen?
  {
    assert (log + [e])[..|log|] == log;
    assert (log + [e])[|log|] == e;
    if HasFreeze(log) {
      var i :| 0 <= i < |log| && log[i].GoalsFrozen?;
      assert (log + [e])[i] == log[i];
    }
  }

  lemma {:induction false} NoFreeze(log: seq<Event>)
    ensures HasFreeze(log) <==> Freezes(log) > 0
  {
    if log != [] {
      var n := |log| - 1;
      NoFreeze(log[..n]);
      Snoc(log[..n], log[n]);
      Seqs.Init(log);
    }
  }

  lemma LoggedEffect(b: Bundle, e: Event)
    ensures Committed(Logged(b, e).log) == if IsLineage(e) && !b.archived then e.hash else Committed(b.log)
    ensures Freezes(Logged(b, e).log) == Freezes(b.log) + if e.GoalsFrozen? && !b.archived then 1 else 0
    ensures HasFreeze(Logged(b, e).log) <==> HasFreeze(b.log) || (e.GoalsFrozen? && !b.archived)
  {
    Snoc(b.log, e);
  }

  // ---- one entry to plan ----

  /** A refused entry to plan changes nothing at all, with --force or without. */
  lemma RefusedChangesNothing(b: Bundle, force: bool)
    requires !EnterPlan(b, force).1
    ensures EnterPlan(b, force).0 == b
  {
  }

  /** An entry to plan succeeds exactly when intent and hash are in order, the gate is reviewed or
      forced, and no freeze is owed by an archived bundle. */
  lemma EntersIff(b: Bundle, force: bool)
    ensures EnterPlan(b, force).1 <==>
              && IntentSound(b) && Undrifted(b) && (force || Reviewed(b, SpecGate))
              && (GoalsEnabled(b) && b.archived ==> HasFreeze(b.log))
  {
    LoggedEffect(b, GateBypassed(SpecGate));
  }

  /** What a successful entry writes: the audit of a forced gate, the freeze, and the phase. */
  lemma EntryWrites(b: Bundle, force: bool)
    requires EnterPlan(b, force).1 && GoalsEnabled(b)
    ensures b.goals.Some?
    ensures EnterPlan(b, force).0
         == Freeze(
              if force then Logged(b, GateBypassed(SpecGate)) else b, Some(b.goals.value.canonical)).0.(phase := Plan)
  {
  }

  lemma FreezeLog(b: Bundle, hash: string)
    requires HasFreeze(b.log) || !b.archived
    ensures var after := Freeze(b, Some(hash)).0;
            && HasFreeze(after.log)
            && Freezes(after.log) == (if HasFreeze(b.log) then Freezes(b.log) else 1)
            && Committed(after.log) == (if HasFreeze(b.log) then Committed(b.log) else Some(hash))
  {
    if !HasFreeze(b.log) {
      Unfrozen(b.log);
      LoggedEffect(b, GoalsFrozen(Some(hash)));
    }
  }

  lemma Unfrozen(log: seq<Event>)
    requires !HasFreeze(log)
    ensures Freezes(log) == 0
  {
    NoFreeze(log);
  }

  lemma EntryLog(b: Bundle, force: bool)
    requires EnterPlan(b, force).1 && GoalsEnabled(b)
    ensures var after := EnterPlan(b, force).0;
            && after.phase == Plan && after.goals == b.goals && b.goals.Some?
            && HasFreeze(after.log)
            && Freezes(after.log) == (if HasFreeze(b.log) then Freezes(b.log) else 1)
            && Committed(after.log) == (if HasFreeze(b.log) then Committed(b.log) else Some(b.goals.value.canonical))
  {
    EntryWrites(b, force);
    EntersIff(b, force);
    LoggedEffect(b, GateBypassed(SpecGate));
    FreezeLog(if force then Logged(b, GateBypassed(SpecGate)) else b, b.goals.value.canonical);
  }

  /** A successful entry leaves the committed hash equal to that of goals.md exactly when a log that
      holds a freeze commits to some hash: a freeze followed by an amendment without a hash does not. */
  lemma EntryCommitsIff(b: Bundle, force: bool)
    requires EnterPlan(b, force).1 && GoalsEnabled(b)
    ensures Committed(EnterPlan(b, force).0.log) == Some(b.goals.value.canonical)
       <==> (HasFreeze(b.log) ==> Committed(b.log).Some?)
  {
    EntryLog(b, force);
  }

  /** Such a log: it enters plan on any goals.md. */
  lemma HashlessAmendment(names: Names, goals: Document, spec: Text)
    requires goals.valid
    ensures var log := [GoalsFrozen(Some("")), GoalAmended(None)];
            var b := Bundle(Brainstorm, false, true, 0, names, Some(goals), Some(spec), None, None, NeverRan, log);
            EnterPlan(b, true).1 && Committed(EnterPlan(b, true).0.log) == None
  {
    var log := [GoalsFrozen(Some("")), GoalAmended(None)];
    var b := Bundle(Brainstorm, false, true, 0, names, Some(goals), Some(spec), None, None, NeverRan, log);
    assert log[0].GoalsFrozen?;
    assert log == [GoalsFrozen(Some(""))] + [GoalAmended(None)];
    Snoc([GoalsFrozen(Some(""))], GoalAmended(None));
    EntersIff(b, true);
    EntryLog(b, true);
  }

  // ---- whole runs ----

  /** Every freeze and amendment in the log carries its hash. */
  predicate HashedLineage(log: seq<Event>) { forall i :: 0 <= i < |log| && IsLineage(log[i]) ==> log[i].hash.Some? }

  predicate Hashed(steps: seq<Step>) { forall i :: 0 <= i < |steps| && steps[i].Amend? ==> steps[i].hash.Some? }

  lemma {:induction false} HashedCommits(log: seq<Event>)
    requires HashedLineage(log) && HasFreeze(log)
    ensures Committed(log).Some?
  {
    var n := |log| - 1;
    if !IsLineage(log[n]) {
      var i :| 0 <= i < |log| && log[i].GoalsFrozen?;
      assert log[..n][i] == log[i];
      HashedCommits(log[..n]);
    }
  }

  lemma LoggedHashed(b: Bundle, e: Event)
    requires HashedLineage(b.log) && (IsLineage(e) ==> e.hash.Some?)
    ensures HashedLineage(Logged(b, e).log)
  {
  }

  lemma EntryHashed(b: Bundle, force: bool)
    requires HashedLineage(b.log)
    ensures HashedLineage(EnterPlan(b, force).0.log)
  {
    LoggedHashed(b, GateBypassed(SpecGate));
    if EnterPlan(b, force).1 && GoalsEnabled(b) {
      EntryWrites(b, force);
      LoggedHashed(if force then Logged(b, GateBypassed(SpecGate)) else b, GoalsFrozen(Some(b.goals.value.canonical)));
    }
  }

  lemma StepHashed(b: Bundle, step: Step)
    requires HashedLineage(b.log) && (step.Amend? ==> step.hash.Some?)
    ensures HashedLineage(Do(b, step).log)
  {
    match step
    case Attempt(target, force) =>
      if target == Plan { EntryHashed(b, force); }
      else if target == Execute { LoggedHashed(b, GateBypassed(PlanGate)); }
    case Load(_, _) => LoggedHashed(b, GateBypassed(PlanGate));
    case Review(gate) => if GateKey(b, gate).Some? { LoggedHashed(b, GateReviewed(gate, GateKey(b, gate).value)); }
    case Amend(hash) => LoggedHashed(b, GoalAmended(hash));
    case Check => LoggedHashed(b, GoalChecked);
    case _ =>
  }

  lemma {:induction false} RunHashed(b: Bundle, steps: seq<Step>)
    requires HashedLineage(b.log) && Hashed(steps)
    ensures HashedLineage(Run(b, steps).log)
    decreases |steps|
  {
    if steps != [] {
      StepHashed(b, steps[0]);
      RunHashed(Do(b, steps[0]), steps[1..]);
    }
  }

  // ---- freezes ----

  /** A freeze is only ever added to a log without one. */
  predicate FrozeOnce(before: seq<Event>, after: seq<Event>) {
    Freezes(after) == Freezes(before) || (Freezes(before) == 0 && Freezes(after) == 1)
  }

  lemma EntryFreezes(b: Bundle, force: bool)
    ensures FrozeOnce(b.log, EnterPlan(b, force).0.log)
  {
    LoggedEffect(b, GateBypassed(SpecGate));
    if EnterPlan(b, force).1 && GoalsEnabled(b) {
      EntryLog(b, force);
      NoFreeze(b.log);
    }
  }

  lemma StepFreezes(b: Bundle, step: Step)
    ensures FrozeOnce(b.log, Do(b, step).log)
  {
    match step
    case Attempt(target, force) =>
      if target == Plan { EntryFreezes(b, force); }
      else if target == Execute { LoggedEffect(b, GateBypassed(PlanGate)); }
    case Load(_, _) => LoggedEffect(b, GateBypassed(PlanGate));
    case Review(gate) => if GateKey(b, gate).Some? { LoggedEffect(b, GateReviewed(gate, GateKey(b, gate).value)); }
    case Amend(hash) => LoggedEffect(b, GoalAmended(hash));
    case Check => LoggedEffect(b, GoalChecked);
    case _ =>
  }

  /** Over any run a log without a freeze gets at most one, and a log with one gets none. */
  lemma {:induction false} FrozenOnce(b: Bundle, steps: seq<Step>)
    ensures FrozeOnce(b.log, Run(b, steps).log)
    decreases |steps|
  {
    if steps != [] {
      StepFreezes(b, steps[0]);
      FrozenOnce(Do(b, steps[0]), steps[1..]);
    }
  }

  /** Whenever a run reaches a successful entry to plan on a bundle with goals, the committed hash is
      that of goals.md, which is valid and whose interview owes nothing. */
  lemma EntryCommits(b: Bundle, steps: seq<Step>, force: bool)
    requires HashedLineage(b.log) && Hashed(steps)
    requires GoalsEnabled(Run(b, steps)) && EnterPlan(Run(b, steps), force).1
    ensures var after := EnterPlan(Run(b, steps), force).0;
            && after.phase == Plan && after.goals.Some? && after.goals.value.valid && !after.interview.Owing?
            && Committed(after.log) == Some(after.goals.value.canonical)
  {
    var before := Run(b, steps);
    RunHashed(b, steps);
    if HasFreeze(before.log) { HashedCommits(before.log); }
    EntryLog(before, force);
    EntryCommitsIff(before, force);
    EntersIff(before, force);
  }

  // ---- a drifted goals.md ----

  /** goals.md is not what the log commits to. */
  predicate Drifted(b: Bundle) {
    GoalsEnabled(b) && Committed(b.log).Some? && !(b.goals.Some? && b.goals.value.canonical == Committed(b.log).value)
  }

  lemma LoggedEnabled(b: Bundle, e: Event)
    requires GoalsEnabled(b)
    ensures GoalsEnabled(Logged(b, e))
  {
    if !b.marked {
      var i :| 0 <= i < |b.log| && ShowsGoals(b.log[i]);
      assert b.archived || Logged(b, e).log[i] == b.log[i];
    }
  }

  lemma DriftLogged(b: Bundle, e: Event)
    requires Drifted(b) && !IsLineage(e)
    ensures Drifted(Logged(b, e)) && Logged(b, e).phase == b.phase
  {
    LoggedEffect(b, e);
    LoggedEnabled(b, e);
  }

  lemma DriftRefuses(b: Bundle, target: Phase, force: bool)
    requires Drifted(b)
    ensures Drifted(SetPhase(b, target, force).0)
    ensures SetPhase(b, target, force).0.phase == (if target == Brainstorm then Brainstorm else b.phase)
  {
    assert !Undrifted(b);
  }

  lemma DriftStep(b: Bundle, step: Step)
    requires Drifted(b) && !step.EditGoals? && !step.Amend?
    ensures Drifted(Do(b, step))
    ensures Do(b, step).phase == b.phase || Do(b, step).phase == Brainstorm
  {
    match step
    case Attempt(target, force) => DriftRefuses(b, target, force);
    case Load(tasks, force) => assert !Undrifted(b);
    case Review(gate) => if GateKey(b, gate).Some? { DriftLogged(b, GateReviewed(gate, GateKey(b, gate).value)); }
    case Check => DriftLogged(b, GoalChecked);
    case _ =>
  }

  /** Once goals.md has drifted, nothing but restoring it or amending the lineage lets the bundle enter
      plan or execute: no review, no force, no archiving. */
  lemma {:induction false} DriftBlocks(b: Bundle, steps: seq<Step>)
    requires Drifted(b) && forall i :: 0 <= i < |steps| ==> !steps[i].EditGoals? && !steps[i].Amend?
    ensures Drifted(Run(b, steps))
    ensures Run(b, steps).phase == b.phase || Run(b, steps).phase == Brainstorm
    decreases |steps|
  {
    if steps != [] {
      DriftStep(b, steps[0]);
      DriftBlocks(Do(b, steps[0]), steps[1..]);
    }
  }
}
