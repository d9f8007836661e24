/**
 Phase transitions of a bundle: capturing the run's intent when it enters plan, the guard against a
 goals.md that drifted from the committed hash, and the review gates. The log is the authority.
 */
module Intent {
  import opened Options
  import opened JsonText
  import opened Json
  import GateHash

  /** goals.md: its bytes, what its canonical hash covers, and whether topic, intent block and fields are in order. */
  datatype Document = Document(bytes: Text, canonical: string, valid: bool)

  datatype Gate = SpecGate | PlanGate

  datatype Event =
    | BundleCreated(goalsEnabled: bool)
    | GoalsFrozen(hash: Option<string>)
    | GoalAmended(hash: Option<string>)
    | GoalChecked
    | GateReviewed(gate: Gate, key: Text)
    | GateBypassed(gate: Gate)
    | OtherEvent(kind: string)

  /** No interview ledger; an exit that satisfies the gate; or an interview still owing something. */
  datatype Interview = NeverRan | Exited | Owing

  datatype Phase = Brainstorm | Plan | Execute

  /** File names hold no NUL. */
  type FileName = t: Text | GateHash.NulFree(t) witness []

  /** The names under which a gate hashes the artifacts. */
  datatype Names = Names(spec: FileName, goals: FileName, plan: FileName, index: FileName)

  /** An artifact is none if its file is missing or, in case of the plan index, no JSON. */
  datatype Bundle = Bundle(
    phase: Phase, archived: bool, marked: bool, tasks: nat, names: Names,
    goals: Option<Document>, spec: Option<Text>, plan: Option<Text>, index: Option<Json>,
    interview: Interview, log: seq<Event>)

  predicate IsLineage(e: Event) { e.GoalsFrozen? || e.GoalAmended? }

  /** The hash of the last freeze or amendment; none without one, or if that one carries none. */
  function Committed(log: seq<Event>): Option<string> {
    var n := |log| - 1;
    if log == [] then None
    else if IsLineage(log[n]) then log[n].hash
    else Committed(log[..n])
  }

  predicate HasFreeze(log: seq<Event>) { exists i :: 0 <= i < |log| && log[i].GoalsFrozen? }

  predicate ShowsGoals(e: Event) { IsLineage(e) || e.GoalChecked? || (e.BundleCreated? && e.goalsEnabled) }

  predicate GoalsEnabled(b: Bundle) { b.marked || exists i :: 0 <= i < |b.log| && ShowsGoals(b.log[i]) }

  /** An event appended, which an archived bundle refuses. */
  function Logged(b: Bundle, e: Event): Bundle { if b.archived then b else b.(log := b.log + [e]) }

  /** The artifacts a gate covers; none if one is missing. */
  function Artifacts(b: Bundle, gate: Gate): Option<seq<GateHash.Artifact>> {
    if b.spec.None? then None
    else
      match gate
      case SpecGate =>
        var spec := GateHash.Raw(b.names.spec, b.spec.value);
        if !GoalsEnabled(b) then Some([spec])
        else if b.goals.None? then None
        else Some([spec, GateHash.Raw(b.names.goals, b.goals.value.bytes)])
      case PlanGate =>
        if b.plan.None? || b.index.None? then None
        else Some(GateHash.PlanGate((b.names.spec, b.names.plan, b.names.index), b.spec.value, b.plan.value,
          b.index.value))
  }

  /** What a gate hashes. */
  function GateKey(b: Bundle, gate: Gate): Option<Text> {
    var artifacts := Artifacts(b, gate);
    if artifacts.None? then None else Some(GateHash.Preimage(artifacts.value))
  }

  predicate Reviewed(b: Bundle, gate: Gate) {
    GateKey(b, gate).Some? && exists i :: 0 <= i < |b.log| && b.log[i] == GateReviewed(gate, GateKey(b, gate).value)
  }

  /** What the document and interview validation lets through: every bundle without goals. */
  predicate IntentSound(b: Bundle) {
    GoalsEnabled(b) ==> b.goals.Some? && b.goals.value.valid && !b.interview.Owing?
  }

  /** goals.md has not drifted from the committed hash. */
  predicate Undrifted(b: Bundle) {
    GoalsEnabled(b) && Committed(b.log).Some? ==> b.goals.Some? && b.goals.value.canonical == Committed(b.log).value
  }

  function PassGate(b: Bundle, gate: Gate, force: bool): (Bundle, bool) {
    if force then (Logged(b, GateBypassed(gate)), true) else (b, Reviewed(b, gate))
  }

  /** The freeze: once per log, and only for a bundle with goals. An archived bundle cannot take it. */
  function Freeze(b: Bundle, hash: Option<string>): (Bundle, bool) {
    if hash.None? || HasFreeze(b.log) then (b, true)
    else (Logged(b, GoalsFrozen(hash)), !b.archived)
  }

  function EnterPlan(b: Bundle, force: bool): (Bundle, bool) {
    if !IntentSound(b) || !Undrifted(b) then (b, false)
    else
      var hash := if GoalsEnabled(b) then Some(b.goals.value.canonical) else None;
      var (gated, passed) := PassGate(b, SpecGate, force);
      if !passed then (gated, false)
      else
        var (frozen, kept) := Freeze(gated, hash);
        if !kept then (frozen, false) else (frozen.(phase := Plan), true)
  }

  function EnterExecute(b: Bundle, force: bool): (Bundle, bool) {
    if (b.tasks == 0 && !force) || !Undrifted(b) then (b, false)
    else
      var (gated, passed) := PassGate(b, PlanGate, force);
      if !passed then (gated, false) else (gated.(phase := Execute), true)
  }

  function SetPhase(b: Bundle, target: Phase, force: bool): (Bundle, bool) {
    match target
    case Plan => EnterPlan(b, force)
    case Execute => EnterExecute(b, force)
    case Brainstorm => (b.(phase := Brainstorm), true)
  }

  /** Loading the plan's tasks, which also enters execute. */
  function LoadPlan(b: Bundle, tasks: nat, force: bool): (Bundle, bool) {
    if b.tasks > 0 || !Undrifted(b) then (b, false)
    else
      var (gated, passed) := PassGate(b, PlanGate, force);
      if !passed || tasks == 0 then (gated, false) else (gated.(tasks := tasks, phase := Execute), true)
  }

  /** The bundle's files. */
  class BundleDir {
    var b: Bundle

    constructor (contents: Bundle)
      ensures b == contents
    {
      b := contents;
    }

    method Append(e: Event) returns (ok: bool)
      modifies this
      ensures b == Logged(old(b), e) && ok == !old(b).archived
    {
      ok := !b.archived;
      if ok { b := b.(log := b.log + [e]); }
    }

    method CommittedHash() returns (hash: Option<string>)
      ensures hash == Committed(b.log)
    {
      hash := None;
      var i := |b.log|;
      assert b.log[..i] == b.log;
      while i > 0
        invariant 0 <= i <= |b.log|
        invariant Committed(b.log) == Committed(b.log[..i])
      {
        i := i - 1;
        assert b.log[..i + 1][..i] == b.log[..i];
        if IsLineage(b.log[i]) { return b.log[i].hash; }
      }
    }

    method EnforceGate(gate: Gate, force: bool) returns (ok: bool)
      modifies this
      ensures (b, ok) == PassGate(old(b), gate, force)
    {
      if force {
        var audited := Append(GateBypassed(gate));
        return true;
      }
      return Reviewed(b, gate);
    }

    method EnforceUndrifted() returns (ok: bool)
      ensures ok == Undrifted(b)
    {
      if !GoalsEnabled(b) { return true; }
      var committed := CommittedHash();
      if committed.None? { return true; }
      return b.goals.Some? && b.goals.value.canonical == committed.value;
    }

    method AppendFreeze(hash: Option<string>) returns (ok: bool)
      modifies this
      ensures (b, ok) == Freeze(old(b), hash)
    {
      if hash.None? || HasFreeze(b.log) { return true; }
      ok := Append(GoalsFrozen(hash));
    }

    /** The set-phase verb: validation, drift guard, review gate, freeze, and only then the phase. */
    method Run(target: Phase, force: bool) returns (ok: bool)
      modifies this
      ensures (b, ok) == SetPhase(old(b), target, force)
    {
      if target == Execute && b.tasks == 0 && !force { return false; }
      if target == Plan {
        if !IntentSound(b) { return false; }
        var hash := if GoalsEnabled(b) then Some(b.goals.value.canonical) else None;
        ok := EnforceUndrifted();
        if !ok { return false; }
        ok := EnforceGate(SpecGate, force);
        if !ok { return false; }
        ok := AppendFreeze(hash);
        if !ok { return false; }
      }
      if target == Execute {
        ok := EnforceUndrifted();
        if !ok { return false; }
        ok := EnforceGate(PlanGate, force);
        if !ok { return false; }
      }
      b := b.(phase := target);
      ok := true;
    }
  }
}
