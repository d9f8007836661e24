/** What an entry to plan or to execute rests on: reviews recorded earlier in the run. */
module IntentReviews {
  import opened Options
  import opened JsonText
  import opened Intent
  import opened IntentRuns
  import opened GateHash
  import Seqs

  // ---- reviews ----

  predicate Logs(log: seq<Event>, e: Event) { exists i :: 0 <= i < |log| && log[i] == e }

  lemma LogsSnoc(log: seq<Event>, added: Event, e: Event)
    ensures Logs(log + [added], e) <==> Logs(log, e) || e == added
  {
    if Logs(log, e) {
      var i :| 0 <= i < |log| && log[i] == e;
      assert (log + [added])[i] == e;
    }
    assert (log + [added])[|log|] == added;
  }

  lemma LoggedLogs(b: Bundle, added: Event, e: Event)
    requires Logs(Logged(b, added).log, e)
    ensures Logs(b.log, e) || e == added
  {
    LogsSnoc(b.log, added, e);
  }

  lemma EntryLogs(b: Bundle, force: bool, e: Event)
    requires e.GateReviewed? && Logs(EnterPlan(b, force).0.log, e)
    ensures Logs(b.log, e)
  {
    if EnterPlan(b, force).1 {
      LogsSnoc(b.log, GateBypassed(SpecGate), e);
      if b.goals.Some? {
        var frozen := GoalsFrozen(Some(b.goals.value.canonical));
        LogsSnoc(b.log, frozen, e);
        LogsSnoc(Logged(b, GateBypassed(SpecGate)).log, frozen, e);
      }
    }
  }

  /** A review enters the log only by the step that records it, under the key of that moment. */
  lemma StepLogs(b: Bundle, step: Step, gate: Gate, key: Text)
    requires Logs(Do(b, step).log, GateReviewed(gate, key)) && !Logs(b.log, GateReviewed(gate, key))
    ensures step == Review(gate) && GateKey(b, gate) == Some(key)
  {
    var e := GateReviewed(gate, key);
    match step
    case Attempt(Plan, force) => EntryLogs(b, force, e);
    case Attempt(Execute, force) => LogsSnoc(b.log, GateBypassed(PlanGate), e);
    case Load(_, _) => LogsSnoc(b.log, GateBypassed(PlanGate), e);
    case Review(g) => if GateKey(b, g).Some? { LoggedLogs(b, GateReviewed(g, GateKey(b, g).value), e); }
    case Amend(hash) => LoggedLogs(b, GoalAmended(hash), e);
    case Check => LoggedLogs(b, GoalChecked, e);
    case _ =>
  }

  lemma {:induction false} ReviewWasRecorded(b: Bundle, steps: seq<Step>, gate: Gate, key: Text) returns (n: nat)
    requires Logs(Run(b, steps).log, GateReviewed(gate, key)) && !Logs(b.log, GateReviewed(gate, key))
    ensures n < |steps| && steps[n] == Review(gate) && GateKey(Run(b, steps[..n]), gate) == Some(key)
    decreases |steps|
  {
    var next := Do(b, steps[0]);
    if Logs(next.log, GateReviewed(gate, key)) {
      StepLogs(b, steps[0], gate, key);
      n := 0;
      assert steps[..0] == [];
    } else {
      n := ReviewWasRecorded(next, steps[1..], gate, key);
      assert steps[..n + 1][1..] == steps[1..][..n];
      n := n + 1;
    }
  }

  // ---- what a key says about the artifacts ----

  /** What the spec gate's preimage holds between the spec's name and the last NUL. */
  function Covered(b: Bundle): Text
    requires Artifacts(b, SpecGate).Some?
  {
    if GoalsEnabled(b) then Joined(b.spec.value, b.names.goals, b.goals.value.bytes) else b.spec.value
  }

  lemma SpecGateUnfolds(b: Bundle)
    requires Artifacts(b, SpecGate).Some?
    ensures GateKey(b, SpecGate) == Some(b.names.spec + ([NUL] + (Covered(b) + [NUL])))
  {
    var spec := Raw(b.names.spec, b.spec.value);
    assert [spec] == [spec] + [];
    if GoalsEnabled(b) {
      var goals := Raw(b.names.goals, b.goals.value.bytes);
      assert [spec, goals] == [spec] + ([goals] + []);
      PreimageCons(goals, []);
      PreimageCons(spec, [goals] + []);
      Flatten2(b.names.spec, b.spec.value, b.names.goals, b.goals.value.bytes);
    } else {
      PreimageCons(spec, []);
      assert Chunk(spec) + [] == Chunk(spec);
    }
  }

  lemma Flatten2(n: Text, spec: Text, m: Text, goals: Text)
    ensures (n + ([NUL] + (spec + [NUL]))) + ((m + ([NUL] + (goals + [NUL]))) + [])
         == n + ([NUL] + (Joined(spec, m, goals) + [NUL]))
  {
    var z := [NUL];
    Seqs.Assoc(n, z + (spec + z), (m + (z + (goals + z))) + []);
    Seqs.Assoc(z, spec + z, (m + (z + (goals + z))) + []);
    assert (spec + z) + ((m + (z + (goals + z))) + []) == Joined(spec, m, goals) + z;
  }

  /** Two bundles with the same file names have the same spec key exactly when spec and goals.md are the
      same once joined, or the spec alone of one is the same as those of the other joined. */
  lemma SpecKeysIff(a: Bundle, b: Bundle)
    requires a.names == b.names && Artifacts(a, SpecGate).Some? && Artifacts(b, SpecGate).Some?
    ensures GateKey(a, SpecGate) == GateKey(b, SpecGate) <==> Covered(a) == Covered(b)
  {
    SpecGateUnfolds(a);
    SpecGateUnfolds(b);
    if GateKey(a, SpecGate) == GateKey(b, SpecGate) { CancelEnds(a.names.spec, Covered(a), Covered(b)); }
  }

  /** The same spec and, if the gate covers it, the same goals.md, byte for byte. */
  predicate SameReviewed(a: Bundle, b: Bundle)
    requires Artifacts(a, SpecGate).Some? && Artifacts(b, SpecGate).Some?
  {
    && a.spec == b.spec && (GoalsEnabled(a) <==> GoalsEnabled(b))
    && (GoalsEnabled(a) ==> a.goals.value.bytes == b.goals.value.bytes)
  }

  lemma JoinedHasNul(spec: Text, name: Text, goals: Text)
    ensures !NulFree(Joined(spec, name, goals))
  {
    assert Joined(spec, name, goals)[|spec|] == NUL;
  }

  lemma NulFreeDecides(a: Bundle, b: Bundle)
    requires a.names == b.names && Artifacts(a, SpecGate).Some? && Artifacts(b, SpecGate).Some?
    requires NulFree(a.spec.value) && NulFree(b.spec.value) && Covered(a) == Covered(b)
    ensures SameReviewed(a, b)
  {
    var name := a.names.goals;
    if GoalsEnabled(a) { JoinedHasNul(a.spec.value, name, a.goals.value.bytes); }
    if GoalsEnabled(b) { JoinedHasNul(b.spec.value, name, b.goals.value.bytes); }
    if GoalsEnabled(a) && GoalsEnabled(b) {
      var x, y := a.goals.value.bytes, b.goals.value.bytes;
      FirstChunk(a.spec.value, name + ([NUL] + x), b.spec.value, name + ([NUL] + y));
      CancelStart(name, [NUL] + x, [NUL] + y);
      CancelStart([NUL], x, y);
    }
  }

  // ---- entries ----

  lemma {:induction false} NamesStay(b: Bundle, steps: seq<Step>)
    ensures Run(b, steps).names == b.names
    decreases |steps|
  {
    if steps != [] { NamesStay(Do(b, steps[0]), steps[1..]); }
  }

  /** An unforced entry to plan, in any run from a log without reviews, rests on a review recorded under
      the key of now; and if no NUL is in the spec, neither then nor now, spec and goals.md were then byte
      for byte what they are now. */
  lemma EntryWasReviewed(b: Bundle, steps: seq<Step>) returns (n: nat)
    requires forall key :: !Logs(b.log, GateReviewed(SpecGate, key))
    requires EnterPlan(Run(b, steps), false).1
    ensures n < |steps| && steps[n] == Review(SpecGate)
    ensures var past, now := Run(b, steps[..n]), Run(b, steps);
            && Artifacts(past, SpecGate).Some? && Artifacts(now, SpecGate).Some?
            && Covered(past) == Covered(now)
            && (NulFree(past.spec.value) && NulFree(now.spec.value) ==> SameReviewed(past, now))
  {
    var now := Run(b, steps);
    EntersIff(now, false);
    n := ReviewWasRecorded(b, steps, SpecGate, GateKey(now, SpecGate).value);
    var past := Run(b, steps[..n]);
    NamesStay(b, steps);
    NamesStay(b, steps[..n]);
    SpecKeysIff(past, now);
    if NulFree(past.spec.value) && NulFree(now.spec.value) { NulFreeDecides(past, now); }
  }

  /** Likewise an unforced entry to execute, and the plan index up to its stamps and the order of its names. */
  lemma ExecuteWasReviewed(b: Bundle, steps: seq<Step>, tasks: nat) returns (n: nat)
    requires forall key :: !Logs(b.log, GateReviewed(PlanGate, key))
    requires EnterExecute(Run(b, steps), false).1 || LoadPlan(Run(b, steps), tasks, false).1
    ensures n < |steps| && steps[n] == Review(PlanGate)
    ensures var past, now := Run(b, steps[..n]), Run(b, steps);
            && Artifacts(past, PlanGate).Some? && Artifacts(now, PlanGate).Some?
            && GateKey(past, PlanGate) == GateKey(now, PlanGate)
            && (Proper(past.index.value) && Proper(now.index.value) ==>
                  && SameIndex(past.index.value, now.index.value)
                  && Joined(past.spec.value, b.names.plan, past.plan.value)
                       == Joined(now.spec.value, b.names.plan, now.plan.value)
                  && (NulFree(past.spec.value) && NulFree(now.spec.value) ==>
                       past.spec == now.spec && past.plan == now.plan))
  {
    var now := Run(b, steps);
    n := ReviewWasRecorded(b, steps, PlanGate, GateKey(now, PlanGate).value);
    var past := Run(b, steps[..n]);
    NamesStay(b, steps);
    NamesStay(b, steps[..n]);
    if Proper(past.index.value) && Proper(now.index.value) { PlanKeys(past, now); }
  }

  lemma PlanKeys(a: Bundle, b: Bundle)
    requires a.names == b.names && Artifacts(a, PlanGate).Some? && Artifacts(b, PlanGate).Some?
    requires Proper(a.index.value) && Proper(b.index.value) && GateKey(a, PlanGate) == GateKey(b, PlanGate)
    ensures SameIndex(a.index.value, b.index.value)
    ensures Joined(a.spec.value, a.names.plan, a.plan.value) == Joined(b.spec.value, a.names.plan, b.plan.value)
    ensures NulFree(a.spec.value) && NulFree(b.spec.value) ==> a.spec == b.spec && a.plan == b.plan
  {
    var names: (Text, Text, Text) := (a.names.spec, a.names.plan, a.names.index);
    GateCollision(names, a.spec.value, a.plan.value, a.index.value, b.spec.value, b.plan.value, b.index.value);
    if NulFree(a.spec.value) && NulFree(b.spec.value) {
      GateInjective(names, a.spec.value, a.plan.value, a.index.value, b.spec.value, b.plan.value, b.index.value);
    }
  }

  // ---- a goals.md with its own name between NULs ----

  /** The bundle with another spec and another goals.md. */
  function With(b: Bundle, spec: Text, goals: Document): Bundle { b.(spec := Some(spec), goals := Some(goals)) }

  lemma WithCovered(b: Bundle, spec: Text, goals: Document)
    requires GoalsEnabled(b)
    ensures GoalsEnabled(With(b, spec, goals)) && Artifacts(With(b, spec, goals), SpecGate).Some?
    ensures Covered(With(b, spec, goals)) == Joined(spec, b.names.goals, goals.bytes)
  {
    assert With(b, spec, goals).log == b.log;
  }

  /** The review of a bundle with a NUL-free spec holds for one with another spec and goals.md too exactly
      when its goals.md holds the name goals.md between NULs, the first of which may be the one before the file. */
  lemma SpecGateCollidesIff(b: Bundle)
    requires GoalsEnabled(b) && Artifacts(b, SpecGate).Some? && NulFree(b.spec.value)
    ensures (exists spec, goals :: spec != b.spec.value
              && GateKey(With(b, spec, goals), SpecGate) == GateKey(b, SpecGate))
       <==> (exists p, q :: CutAt(b.names.goals, b.goals.value.bytes, p, q))
  {
    var name, s, g := b.names.goals, b.spec.value, b.goals.value.bytes;
    CollidesIff(name, s, g);
    if spec, goals :| spec != s && GateKey(With(b, spec, goals), SpecGate) == GateKey(b, SpecGate) {
      WithCovered(b, spec, goals);
      SpecKeysIff(With(b, spec, goals), b);
    }
    if spec, goals :| spec != s && Joined(spec, name, goals) == Joined(s, name, g) {
      var other := Document(goals, "", false);
      WithCovered(b, spec, other);
      SpecKeysIff(With(b, spec, other), b);
      assert GateKey(With(b, spec, other), SpecGate) == GateKey(b, SpecGate);
    }
  }

  lemma OnceReviewed(b: Bundle, key: Text)
    requires b.marked && b.goals.Some? && b.goals.value.valid && !b.archived && !b.interview.Owing?
    requires GateKey(b, SpecGate) == Some(key) && b.log == [GateReviewed(SpecGate, key)]
    ensures EnterPlan(b, false).1
  {
    assert b.log[0] == GateReviewed(SpecGate, key);
    assert [] + [GateReviewed(SpecGate, key)] == b.log;
    Snoc([], GateReviewed(SpecGate, key));
    assert Committed(b.log) == None;
    EntersIff(b, false);
  }

  lemma KeyCarriesOver(b: Bundle, p: Text, q: Text, goals: Document)
    requires b.marked && Artifacts(b, SpecGate).Some? && CutAt(b.names.goals, b.goals.value.bytes, p, q)
               && goals.bytes == q
    ensures var spec := b.spec.value + ([NUL] + (b.names.goals + p));
            spec != b.spec.value && GateKey(With(b, spec, goals), SpecGate) == GateKey(b, SpecGate)
  {
    var spec := b.spec.value + ([NUL] + (b.names.goals + p));
    CutMeets(b.names.goals, b.spec.value, b.goals.value.bytes, p, q);
    WithCovered(b, spec, goals);
    SpecKeysIff(With(b, spec, goals), b);
  }

  /** A marked bundle's key does not depend on its log. */
  lemma KeyOffLog(b: Bundle, log: seq<Event>)
    requires b.marked
    ensures GateKey(b.(log := log), SpecGate) == GateKey(b, SpecGate)
  {
  }

  /** Then the review carries over: after it, both files are replaced, and plan is entered unforced with a
      spec that nobody has reviewed. */
  lemma ReviewCarriesOver(b: Bundle, p: Text, q: Text, goals: Document) returns (steps: seq<Step>)
    requires b.marked && !b.archived && !b.interview.Owing? && b.log == [] && Artifacts(b, SpecGate).Some?
    requires CutAt(b.names.goals, b.goals.value.bytes, p, q) && goals.bytes == q && goals.valid
    ensures |steps| == 3 && steps[0] == Review(SpecGate) && !steps[1].Review? && !steps[2].Review?
    ensures EnterPlan(Run(b, steps), false).1 && Run(b, steps).spec != b.spec
  {
    var spec := b.spec.value + ([NUL] + (b.names.goals + p));
    steps := [Review(SpecGate), EditSpec(Some(spec)), EditGoals(Some(goals))];
    ThreeSteps(b, steps[0], steps[1], steps[2]);
    KeyCarriesOver(b, p, q, goals);
    var key := GateKey(b, SpecGate).value;
    assert [] + [GateReviewed(SpecGate, key)] == [GateReviewed(SpecGate, key)];
    var now := With(b, spec, goals).(log := [GateReviewed(SpecGate, key)]);
    assert Run(b, steps) == now;
    KeyOffLog(With(b, spec, goals), now.log);
    OnceReviewed(now, key);
  }

  lemma ThreeSteps(b: Bundle, x: Step, y: Step, z: Step)
    ensures Run(b, [x, y, z]) == Do(Do(Do(b, x), y), z)
  {
    assert [x, y, z][1..] == [y, z];
    assert [y, z][1..] == [z];
    assert [z][1..] == [];
    assert Run(Do(Do(b, x), y), [z]) == Run(Do(Do(Do(b, x), y), z), []);
  }
}
