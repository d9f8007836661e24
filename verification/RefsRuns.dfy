/**
 Refs verbs of several sessions step by step: the source is read, then both bundles are locked, the
 target is written, the source is written, the locks are given back.
 */
module RefsRuns {
  import opened Refs

  datatype Pc =
    | Start | HasRead(source: Bundle) | Held(source: Bundle) | Half(source: Bundle) | Written
    | Finished | Failed

  datatype Proc = Proc(job: Job, pc: Pc)

  datatype State = State(w: World, locks: map<Id, nat>, procs: seq<Proc>)

  /** The bundles a verb locks: a target that does not exist is not locked, nor one that the source's slug names. */
  function Needs(w: World, job: Job, source: Bundle): set<Id> {
    if job.target in w && job.target != Signed(job, source) then {job.source, job.target} else {job.source}
  }

  function Take(locks: map<Id, nat>, ids: set<Id>, p: nat): map<Id, nat> {
    map id | id in locks.Keys + ids :: if id in ids then p else locks[id]
  }

  function Give(locks: map<Id, nat>, p: nat): map<Id, nat> { map id | id in locks && locks[id] != p :: locks[id] }

  predicate Taken(s: State, ids: set<Id>) { exists id :: id in ids && id in s.locks }

  predicate Enabled(s: State, p: nat) {
    p < |s.procs| && !s.procs[p].pc.Finished? && !s.procs[p].pc.Failed?
  }

  /** One step of process p. */
  function Step(s: State, p: nat): State
    requires p < |s.procs|
  {
    var Proc(job, pc) := s.procs[p];
    match pc
    case Start => Move(s, p, if Refused(s.w, job) then Failed else HasRead(s.w[job.source]))
    case HasRead(source) =>
      if Taken(s, Needs(s.w, job, source)) then Move(s, p, Failed)
      else Move(s, p, Held(source)).(locks := Take(s.locks, Needs(s.w, job, source), p))
    case Held(source) => Move(s, p, Half(source)).(w := WriteTarget(s.w, job, source))
    case Half(source) => Move(s, p, Written).(w := WriteSource(s.w, job, source))
    case Written => Move(s, p, Finished).(locks := Give(s.locks, p))
    case _ => s
  }

  function Move(s: State, p: nat, pc: Pc): State
    requires p < |s.procs|
  {
    s.(procs := s.procs[p := Proc(s.procs[p].job, pc)])
  }

  predicate Runs(s: State, schedule: seq<nat>)
    decreases |schedule|
  {
    schedule == [] || (Enabled(s, schedule[0]) && Runs(Step(s, schedule[0]), schedule[1..]))
  }

  function After(s: State, schedule: seq<nat>): State
    requires Runs(s, schedule)
    decreases |schedule|
  {
    if schedule == [] then s else After(Step(s, schedule[0]), schedule[1..])
  }

  /** If process p is about to write its source, what it read of it still fits. */
  ghost predicate WritesFitting(s: State, p: nat)
    requires p < |s.procs|
  {
    var Proc(job, pc) := s.procs[p]; pc.Half? ==> Fits(s.w, job, pc.source)
  }

  /** Every source is written from a reading that fits. */
  ghost predicate Fitting(s: State, schedule: seq<nat>)
    requires Runs(s, schedule)
    decreases |schedule|
  {
    schedule == [] || (WritesFitting(s, schedule[0]) && Fitting(Step(s, schedule[0]), schedule[1..]))
  }

  /** If process p is about to take its locks, what it read of its source still fits. */
  ghost predicate LocksFitting(s: State, p: nat)
    requires p < |s.procs|
  {
    var Proc(job, pc) := s.procs[p]; pc.HasRead? ==> Fits(s.w, job, pc.source)
  }

  ghost predicate FittingAtLock(s: State, schedule: seq<nat>)
    requires Runs(s, schedule)
    decreases |schedule|
  {
    schedule == [] || (LocksFitting(s, schedule[0]) && FittingAtLock(Step(s, schedule[0]), schedule[1..]))
  }
}
