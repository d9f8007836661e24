/** What each phase transition does to every bundle, told from its fields and its log. */
module IntentEffects {
  import opened Options
  import opened JsonText
  import opened Json
  import opened Intent
  import opened GateHash
  import opened IntentRuns
  import Seqs

  // ---- what the log says ----

  /** Lineage that commits to a hash: freezes and amendments. */
  predicate Lineage(e: Event) { e.GoalsFrozen? || e.GoalAmended? }

  /** The committed hash is the one the last freeze or amendment carries, if it carries one; without any,
      nothing is committed. */
  lemma {:induction false} CommittedLast(log: seq<Event>, i: nat)
    ensures (forall k :: 0 <= k < |log| ==> !Lineage(log[k])) ==> Committed(log) == None
    ensures i < |log| && Lineage(log[i]) && (forall k :: i < k < |log| ==> !Lineage(log[k])) ==>
              Committed(log) == log[i].hash
  {
    if log != [] {
      var n := |log| - 1;
      CommittedLast(log[..n], i);
    }
  }

  /** A bundle has goals if its state is marked so, or any event of its log shows it. */
  predicate HasGoals(b: Bundle) {
    || b.marked
    || exists e :: e in b.log
         && (e.GoalsFrozen? || e.GoalAmended? || e.GoalChecked? || (e.BundleCreated? && e.goalsEnabled))
  }

  lemma HasGoalsIff(b: Bundle)
    ensures GoalsEnabled(b) <==> HasGoals(b)
  {
    if e :| e in b.log && ShowsGoals(e) {
      var i :| 0 <= i < |b.log| && b.log[i] == e;
      assert ShowsGoals(b.log[i]);
    }
    if i :| 0 <= i < |b.log| && ShowsGoals(b.log[i]) {
      assert b.log[i] in b.log;
    }
  }

  /** goals.md is there and has the committed hash, if there is one. */
  predicate Faithful(b: Bundle) {
    HasGoals(b) && Committed(b.log).Some? ==> b.goals.Some? && b.goals.value.canonical == Committed(b.log).value
  }

  predicate ReviewedNow(b: Bundle, gate: Gate) {
    GateKey(b, gate).Some? && GateReviewed(gate, GateKey(b, gate).value) in b.log
  }

  predicate Frozen(log: seq<Event>) { exists e :: e in log && e.GoalsFrozen? }

  lemma LogFacts(b: Bundle, gate: Gate)
    ensures GoalsEnabled(b) <==> HasGoals(b)
    ensures Undrifted(b) <==> Faithful(b)
    ensures Reviewed(b, gate) <==> ReviewedNow(b, gate)
    ensures HasFreeze(b.log) <==> Frozen(b.log)
  {
    HasGoalsIff(b);
    if HasFreeze(b.log) {
      var i :| 0 <= i < |b.log| && b.log[i].GoalsFrozen?;
      assert b.log[i] in b.log;
    }
  }

  /** The audit of a forced gate, which an archived bundle does not take. */
  function Audit(b: Bundle, gate: Gate, force: bool): seq<Event> {
    if force && !b.archived then [GateBypassed(gate)] else []
  }

  /** One artifact as it is hashed: its name, a NUL, its bytes, a NUL. */
  function Piece(name: Text, bytes: Text): Text { name + [0] + bytes + [0] }

  lemma PieceIs(name: Text, bytes: Text)
    ensures Chunk(Raw(name, bytes)) == Piece(name, bytes)
  {
    Seqs.Assoc(name, [NUL], bytes + [NUL]);
    Seqs.Assoc(name + [NUL], bytes, [NUL]);
  }

  /** What the spec gate hashes: the spec and, on a bundle with goals, goals.md; nothing if one is missing. */
  lemma SpecKeyIs(b: Bundle)
    ensures GateKey(b, SpecGate) ==
              if b.spec.None? || (HasGoals(b) && b.goals.None?) then None
              else if HasGoals(b)
              then Some(Piece(b.names.spec, b.spec.value) + Piece(b.names.goals, b.goals.value.bytes))
              else Some(Piece(b.names.spec, b.spec.value))
  {
    HasGoalsIff(b);
    if b.spec.Some? {
      var spec := Raw(b.names.spec, b.spec.value);
      PieceIs(b.names.spec, b.spec.value);
      PreimageOne(spec);
      if b.goals.Some? {
        var goals := Raw(b.names.goals, b.goals.value.bytes);
        PieceIs(b.names.goals, b.goals.value.bytes);
        PreimageOne(goals);
        PreimageCons(spec, [goals]);
        assert [spec] + [goals] == [spec, goals];
      }
    }
  }

  lemma PreimageOne(a: Artifact)
    ensures Preimage([a]) == Chunk(a)
  {
    PreimageCons(a, []);
    assert [a] + [] == [a] && Chunk(a) + [] == Chunk(a);
  }

  /** What the plan gate hashes: spec, plan and normalized index, in this order. */
  lemma PlanKeyIs(b: Bundle)
    ensures GateKey(b, PlanGate) ==
              if b.spec.None? || b.plan.None? || b.index.None? then None
              else Some(Piece(b.names.spec, b.spec.value)
                        + (Piece(b.names.plan, b.plan.value) + Piece(b.names.index, Stringify(Normal(b.index.value)))))
  {
    if b.spec.Some? && b.plan.Some? && b.index.Some? {
      var x, y, z := Raw(b.names.spec, b.spec.value), Raw(b.names.plan, b.plan.value),
        Index(b.names.index, b.index.value);
      PieceIs(b.names.spec, b.spec.value);
      PieceIs(b.names.plan, b.plan.value);
      PieceIs(b.names.index, Stringify(Normal(b.index.value)));
      PreimageOne(z);
      PreimageCons(y, [z]);
      PreimageCons(x, [y, z]);
      assert [y] + [z] == [y, z] && [x] + [y, z] == [x, y, z];
    }
  }

  // ---- one transition ----

  predicate CanPlan(b: Bundle, force: bool) {
    && (HasGoals(b) ==>
          && b.goals.Some? && b.goals.value.valid && b.interview != Owing
          && (b.archived ==> Frozen(b.log)))
    && Faithful(b)
    && (force || ReviewedNow(b, SpecGate))
  }

  /** The freeze that an entry to plan adds: for a bundle with goals, unless its log has one. */
  function Freezing(b: Bundle): seq<Event> {
    if HasGoals(b) && b.goals.Some? && !Frozen(b.log) then [GoalsFrozen(Some(b.goals.value.canonical))] else []
  }

  /** Entering plan, on every bundle: when it goes through, and exactly what it leaves. */
  lemma PlansExactly(b: Bundle, force: bool)
    ensures var (after, ok) := SetPhase(b, Plan, force);
            && (ok <==> CanPlan(b, force))
            && after == if ok then b.(phase := Plan, log := (b.log + Audit(b, SpecGate, force)) + Freezing(b)) else b
  {
    LogFacts(b, SpecGate);
    EntersIff(b, force);
    if !EnterPlan(b, force).1 { RefusedChangesNothing(b, force); }
    EnteredIs(b, force);
    assert b.log + [] == b.log && (b.log + Audit(b, SpecGate, force)) + [] == b.log + Audit(b, SpecGate, force);
  }

  lemma EnteredIs(b: Bundle, force: bool)
    ensures EnterPlan(b, force).1 ==>
              var gated := if force then Logged(b, GateBypassed(SpecGate)) else b;
              && EnterPlan(b, force).0
                 == (if GoalsEnabled(b) && b.goals.Some? && !HasFreeze(b.log)
                     then Logged(gated, GoalsFrozen(Some(b.goals.value.canonical))) else gated).(phase := Plan)
  {
    var gated := PassGate(b, SpecGate, force).0;
    assert HasFreeze(gated.log) <==> HasFreeze(b.log) by { LoggedEffect(b, GateBypassed(SpecGate)); }
  }

  predicate CanExecute(b: Bundle, force: bool) {
    (b.tasks > 0 || force) && Faithful(b) && (force || ReviewedNow(b, PlanGate))
  }

  /** Entering execute by set-phase. */
  lemma ExecutesExactly(b: Bundle, force: bool)
    ensures var (after, ok) := SetPhase(b, Execute, force);
            && (ok <==> CanExecute(b, force))
            && after == if ok then b.(phase := Execute, log := b.log + Audit(b, PlanGate, force)) else b
  {
    LogFacts(b, PlanGate);
    assert b.log + [] == b.log;
  }

  /** Going back to brainstorm is always allowed and writes nothing else. */
  lemma BrainstormsExactly(b: Bundle, force: bool)
    ensures SetPhase(b, Brainstorm, force) == (b.(phase := Brainstorm), true)
  {
  }

  /** Entering execute by load-plan: never onto existing tasks, never with an empty index; a forced attempt
      with an empty index leaves the audit of its gate behind. */
  lemma LoadsExactly(b: Bundle, tasks: nat, force: bool)
    ensures var (after, ok) := LoadPlan(b, tasks, force);
            var gated := b.tasks == 0 && Faithful(b) && (force || ReviewedNow(b, PlanGate));
            && (ok <==> gated && tasks > 0)
            && after == if ok then b.(tasks := tasks, phase := Execute, log := b.log + Audit(b, PlanGate, force))
                        else if gated then b.(log := b.log + Audit(b, PlanGate, force)) else b
  {
    LogFacts(b, PlanGate);
    assert b.log + [] == b.log;
  }

  // ---- execute is never entered without tasks ----

  predicate Unforced(steps: seq<Step>) {
    forall i :: 0 <= i < |steps| ==> (steps[i].Attempt? || steps[i].Load? ==> !steps[i].force)
  }

  lemma TasksStep(b: Bundle, step: Step)
    requires b.phase == Execute ==> b.tasks > 0
    requires step.Attempt? || step.Load? ==> !step.force
    ensures Do(b, step).phase == Execute ==> Do(b, step).tasks > 0
    ensures Do(b, step).tasks >= b.tasks
  {
    match step
    case Attempt(target, force) =>
      if target == Plan { PlansExactly(b, force); } else if target == Execute { ExecutesExactly(b, force); }
    case Load(tasks, force) => LoadsExactly(b, tasks, force);
    case _ =>
  }

  /** No unforced steps bring a bundle that is not in execute into it without tasks. */
  lemma {:induction false} NoEmptyExecute(b: Bundle, steps: seq<Step>)
    requires (b.phase == Execute ==> b.tasks > 0) && Unforced(steps)
    ensures Run(b, steps).phase == Execute ==> Run(b, steps).tasks > 0
    decreases |steps|
  {
    if steps != [] {
      TasksStep(b, steps[0]);
      NoEmptyExecute(Do(b, steps[0]), steps[1..]);
    }
  }

  /** Forced, a reviewed bundle without tasks does enter it. */
  lemma ForcedEmptyExecute(b: Bundle)
    requires b.tasks == 0 && Faithful(b)
    ensures Run(b, [Attempt(Execute, true)]).phase == Execute && Run(b, [Attempt(Execute, true)]).tasks == 0
  {
    ExecutesExactly(b, true);
    assert [Attempt(Execute, true)][1..] == [];
  }
}
