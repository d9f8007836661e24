/**
 The repository-wide seed lock: seeding a bundle and recording an overlap review are transactions
 that judge the inventory of runs and then act on it, step by step, while other processes run.
 */
module SeedLock {
  import opened Options

  type Slug = string

  /** What the inventory digest covers of one run. The digest is taken as the inventory itself. */
  datatype Row = Row(status: string, phase: string, planned: set<string>)

  type Digest = map<Slug, Row>

  datatype Event =
    | BundleCreated(slug: Slug)
    | OverlapReview(inventory: Digest, outcome: string)
    | ConfigWarning
    | Other(kind: string)

  /** The lock file with its owner's token, the state.yml files, and the events.jsonl files. */
  datatype Disk = Disk(lock: Option<nat>, states: map<Slug, Row>, ledgers: map<Slug, seq<Event>>)

  /** A review that is not given its file has a meaningless digest and outcome. */
  datatype Job =
    | Seed(slug: Slug, row: Row, judged: Digest, outcome: string, predecessor: Option<Slug>, force: bool, warns: bool)
    | Review(slug: Slug, judged: Digest, outcome: string, given: bool)

  /** Where a process is in its verb. Declining, Breaking and Passing are about to release the lock; a
      process that has Exited ended inside its transaction, without releasing it. */
  datatype Pc =
    | Start | Locked | Unclaimed | Judged | Cleared
    | Written | Emptied | Opened | Reviewed
    | Declining | Breaking | Passing
    | Refused | Broken | Succeeded | Exited
    | Crashed

  predicate Archived(disk: Disk, slug: Slug) { slug in disk.states && disk.states[slug].status == "archived" }

  function Ledger(disk: Disk, slug: Slug): seq<Event> { if slug in disk.ledgers then disk.ledgers[slug] else [] }

  function Append(disk: Disk, slug: Slug, event: Event): Disk {
    disk.(ledgers := disk.ledgers[slug := Ledger(disk, slug) + [event]])
  }

  /** An event appended to a bundle; an archived bundle accepts none of those used here. */
  function Appending(disk: Disk, slug: Slug, event: Event, done: Pc, refused: Pc): (Disk, Pc) {
    if Archived(disk, slug) then (disk, refused) else (Append(disk, slug, event), done)
  }

  /** One step of process p. */
  function Advance(p: nat, job: Job, disk: Disk, pc: Pc): (Disk, Pc) {
    match pc
    case Start =>
      if job.Seed? && job.slug in disk.states && !job.force then (disk, Refused)
      else if disk.lock.Some? then (disk, Refused)
      else (disk.(lock := Some(p)), Locked)
    case Locked =>
      if job.Review? && !job.given then (disk, Exited)
      else if job.Seed? && job.slug in disk.states && !job.force then (disk, Declining)
      else (disk, Unclaimed)
    case Unclaimed => (disk, if job.judged == disk.states then Judged else Declining)
    case Judged =>
      if job.Review? then Appending(disk, job.slug, OverlapReview(job.judged, job.outcome), Passing, Declining)
      else if job.predecessor.Some? && job.predecessor.value !in disk.states then (disk, Declining)
      else (disk, Cleared)
    case Cleared => if job.Seed? then (disk.(states := disk.states[job.slug := job.row]), Written) else (disk, pc)
    case Written => (disk.(ledgers := disk.ledgers[job.slug := []]), Emptied)
    case Emptied => Appending(disk, job.slug, BundleCreated(job.slug), Opened, Breaking)
    case Opened => Appending(disk, job.slug, OverlapReview(job.judged, job.outcome), Reviewed, Breaking)
    case Reviewed =>
      if job.Seed? && job.warns then Appending(disk, job.slug, ConfigWarning, Passing, Breaking) else (disk, Passing)
    case Declining => (Released(disk, p), Refused)
    case Breaking => (Released(disk, p), Broken)
    case Passing => (Released(disk, p), Succeeded)
    case _ => (disk, pc)
  }

  /** Only the acquirer's own token releases the lock. */
  function Released(disk: Disk, p: nat): Disk { if disk.lock == Some(p) then disk.(lock := None) else disk }

  /** Inside its transaction. */
  predicate Holds(pc: Pc) { Alive(pc) && !pc.Start? }

  predicate Alive(pc: Pc) { !Ended(pc) && !pc.Crashed? }

  predicate Ended(pc: Pc) { pc.Refused? || pc.Broken? || pc.Succeeded? || pc.Exited? }

  // ---- all processes together ----

  /** A process and its host; how many commits had happened when it found its digest current; whether a sweep has
      unlinked its lock; and what other verbs have logged to its bundle since it emptied the ledger,
      before its creation event and between that and its review. */
  datatype Proc = Proc(
    job: Job, host: nat, pc: Pc, checked: nat, swept: bool, early: seq<Event>, between: seq<Event>)

  /** A state file written by a seed, or a review appended to a resumed run. */
  datatype Commit = Commit(job: Job, first: bool, checked: nat)

  /** A seed that got as far as its review, and what others had logged meanwhile. */
  datatype Birth = Birth(job: Job, early: seq<Event>, between: seq<Event>)

  /** Sweepers that found the lock's owner dead and have not unlinked it yet; bundles whose seed got as
      far as the review, and which no seed has begun to replace since; and the commits so far. */
  datatype State = State(disk: Disk, procs: seq<Proc>, sweeping: set<nat>, born: map<Slug, Birth>, commits: seq<Commit>)

  datatype Step =
    | Own(p: nat)
    | Crash(p: nat)
    | Inspect(sweeper: nat, host: nat)
    | Unlink(sweeper: nat)
    | Rewrite(slug: Slug, row: Row)
    | Log(slug: Slug, event: Event)

  /** A sweep looks for the owner's process on its own host, and so may take any owner on another one for dead. */
  predicate Enabled(s: State, step: Step) {
    match step
    case Own(p) => p < |s.procs| && Alive(s.procs[p].pc)
    case Crash(p) => p < |s.procs| && Alive(s.procs[p].pc)
    case Inspect(_, host) =>
      && s.disk.lock.Some? && s.disk.lock.value < |s.procs|
      && var owner := s.procs[s.disk.lock.value]; owner.host == host ==> !Alive(owner.pc)
    case Unlink(k) => k in s.sweeping
    case Rewrite(slug, _) => slug in s.disk.states
    case Log(_, _) => true
  }

  predicate Commits(before: Pc, after: Pc) {
    || (before.Cleared? && after.Written?)
    || (before.Judged? && after.Passing?)
  }

  function Born(born: map<Slug, Birth>, was: Proc, after: Pc): map<Slug, Birth> {
    if was.pc.Cleared? && after.Written? then born - {was.job.slug}
    else if was.pc.Opened? && after.Reviewed? then born[was.job.slug := Birth(was.job, was.early, was.between)]
    else born
  }

  function Moved(was: Proc, after: Pc, commits: nat): Proc {
    if after.Judged? then was.(pc := after, checked := commits)
    else if after.Emptied? then was.(pc := after, early := [], between := [])
    else was.(pc := after)
  }

  function OwnStep(s: State, p: nat): State
    requires p < |s.procs|
  {
    var was := s.procs[p];
    var (disk, pc) := Advance(p, was.job, s.disk, was.pc);
    State(
      disk,
      s.procs[p := Moved(was, pc, |s.commits|)],
      s.sweeping,
      Born(s.born, was, pc),
      if Commits(was.pc, pc) then s.commits + [Commit(was.job, was.job.slug !in s.disk.states, was.checked)]
        else s.commits)
  }

  /** A process while another verb logs to a bundle. */
  function Hearing(proc: Proc, slug: Slug, event: Event): Proc {
    if proc.job.slug != slug then proc
    else if proc.pc.Emptied? then proc.(early := proc.early + [event])
    else if proc.pc.Opened? then proc.(between := proc.between + [event])
    else proc
  }

  function Swept(s: State): seq<Proc> {
    if s.disk.lock.Some? && s.disk.lock.value < |s.procs|
    then s.procs[s.disk.lock.value := s.procs[s.disk.lock.value].(swept := true)]
    else s.procs
  }

  function Apply(s: State, step: Step): State
    requires Enabled(s, step)
  {
    match step
    case Own(p) => OwnStep(s, p)
    case Crash(p) => s.(procs := s.procs[p := s.procs[p].(pc := Crashed)])
    case Inspect(k, _) => s.(sweeping := s.sweeping + {k})
    case Unlink(k) => s.(disk := s.disk.(lock := None), procs := Swept(s), sweeping := s.sweeping - {k})
    case Rewrite(slug, row) => s.(disk := s.disk.(states := s.disk.states[slug := row]))
    case Log(slug, event) =>
      s.(disk := Append(s.disk, slug, event),
         procs := seq(|s.procs|, i requires 0 <= i < |s.procs| => Hearing(s.procs[i], slug, event)))
  }

  predicate Runs(s: State, steps: seq<Step>)
    decreases |steps|
  {
    steps == [] || (Enabled(s, steps[0]) && Runs(Apply(s, steps[0]), steps[1..]))
  }

  function After(s: State, steps: seq<Step>): State
    requires Runs(s, steps)
    decreases |steps|
  {
    if steps == [] then s else After(Apply(s, steps[0]), steps[1..])
  }

  predicate Inside(s: State) { exists p :: 0 <= p < |s.procs| && Holds(s.procs[p].pc) }

  /** No lock is unlinked by a sweep while some process is inside its transaction. */
  predicate Unbroken(s: State, steps: seq<Step>)
    requires Runs(s, steps)
    decreases |steps|
  {
    steps == [] || (!(steps[0].Unlink? && Inside(s)) && Unbroken(Apply(s, steps[0]), steps[1..]))
  }

  /** Sweeps look at the lock on its owner's host, and not while another sweep has looked at it and not
      yet unlinked it. */
  predicate CarefulSweeps(s: State, steps: seq<Step>)
    requires Runs(s, steps)
    decreases |steps|
  {
    steps == [] || (CarefulSweep(s, steps[0]) && CarefulSweeps(Apply(s, steps[0]), steps[1..]))
  }

  predicate CarefulSweep(s: State, step: Step)
    requires Enabled(s, step)
  {
    step.Inspect? ==> s.sweeping == {} && step.host == s.procs[s.disk.lock.value].host
  }

  /** The ledger begins with the bundle's creation and its overlap review. */
  predicate Opens(disk: Disk, slug: Slug) {
    && slug in disk.ledgers
    && |disk.ledgers[slug]| >= 2
    && disk.ledgers[slug][0].BundleCreated? && disk.ledgers[slug][1].OverlapReview?
  }

  /** Nothing runs yet. */
  predicate Initial(s: State) {
    && s.disk.lock.None? && s.sweeping == {} && s.born == map[] && s.commits == []
    && forall p :: 0 <= p < |s.procs| ==> s.procs[p].pc.Start? && !s.procs[p].swept
  }
}
