/** What every run of seeders, review recorders, sweepers and other verbs keeps. */
module SeedLockProofs {
  import opened Options
  import opened SeedLock

  // ---- mutual exclusion ----

  /** Whoever is inside a transaction owns the lock. */
  predicate Owns(s: State) {
    forall p :: 0 <= p < |s.procs| && Holds(s.procs[p].pc) ==> s.disk.lock == Some(p)
  }

  lemma AdvanceLock(p: nat, job: Job, disk: Disk, pc: Pc)
    requires Alive(pc) && (Holds(pc) ==> disk.lock == Some(p))
    ensures var (d, n) := Advance(p, job, disk, pc);
            && (Holds(n) || n.Exited? ==> d.lock == Some(p))
            && (!Holds(n) && !n.Exited? ==> d.lock != Some(p) || pc.Start?)
            && (!Holds(pc) && Holds(n) ==> disk.lock == None)
            && (!Holds(pc) && !Holds(n) ==> d.lock == disk.lock)
  {
  }

  lemma OwnsOwn(s: State, p: nat)
    requires Owns(s) && p < |s.procs| && Alive(s.procs[p].pc)
    ensures Owns(OwnStep(s, p))
  {
    AdvanceLock(p, s.procs[p].job, s.disk, s.procs[p].pc);
  }

  /** The one kind of step that ends ownership. */
  lemma OwnsStep(s: State, step: Step)
    requires Owns(s) && Enabled(s, step)
    ensures Owns(Apply(s, step)) <==> !(step.Unlink? && Inside(s))
  {
    match step
    case Own(p) => OwnsOwn(s, p);
    case Unlink(k) =>
      var t := Apply(s, step);
      if p :| 0 <= p < |s.procs| && Holds(s.procs[p].pc) {
        assert Holds(t.procs[p].pc);
      }
    case _ =>
  }

  predicate AlwaysOwned(s: State, steps: seq<Step>)
    requires Runs(s, steps)
    decreases |steps|
  {
    Owns(s) && (steps == [] || AlwaysOwned(Apply(s, steps[0]), steps[1..]))
  }

  lemma {:induction false} OwnedRun(s: State, steps: seq<Step>)
    requires Owns(s) && Runs(s, steps)
    ensures AlwaysOwned(s, steps) <==> Unbroken(s, steps)
    ensures Unbroken(s, steps) ==> Owns(After(s, steps))
    decreases |steps|
  {
    if steps != [] {
      OwnsStep(s, steps[0]);
      if Owns(Apply(s, steps[0])) {
        OwnedRun(Apply(s, steps[0]), steps[1..]);
      }
    }
  }

  /** Whoever is inside owns the lock all through a run if and only if no sweep ever unlinks it while
      someone is inside; and then no two processes are ever inside at once. */
  lemma OneAtATime(s: State, steps: seq<Step>)
    requires Initial(s) && Runs(s, steps)
    ensures AlwaysOwned(s, steps) <==> Unbroken(s, steps)
    ensures Unbroken(s, steps) ==>
              var t := After(s, steps);
              forall p, q :: 0 <= p < |t.procs| && 0 <= q < |t.procs| && Holds(t.procs[p].pc) && Holds(t.procs[q].pc)
                ==> p == q
  {
    OwnedRun(s, steps);
  }

  /** A lock that is being swept has an owner that no longer runs. */
  predicate Sweeping(s: State) {
    && (forall a, b :: a in s.sweeping && b in s.sweeping ==> a == b)
    && (s.sweeping != {} ==>
         s.disk.lock.Some? && s.disk.lock.value < |s.procs| && !Alive(s.procs[s.disk.lock.value].pc))
  }

  lemma SweepingStep(s: State, step: Step)
    requires Owns(s) && Sweeping(s) && Enabled(s, step) && CarefulSweep(s, step)
    ensures Sweeping(Apply(s, step)) && !(step.Unlink? && Inside(s))
  {
    match step
    case Own(p) =>
      AdvanceLock(p, s.procs[p].job, s.disk, s.procs[p].pc);
    case Log(slug, event) =>
      assert s.disk.lock.Some? && s.disk.lock.value < |s.procs| ==>
               Apply(s, step).procs[s.disk.lock.value].pc == s.procs[s.disk.lock.value].pc;
    case _ =>
  }

  /** Sweeps on the owner's host that do not overlap never unlink the lock while someone is inside. */
  lemma {:induction false} CarefulSweepsAreEnough(s: State, steps: seq<Step>)
    requires Owns(s) && Sweeping(s) && Runs(s, steps) && CarefulSweeps(s, steps)
    ensures Unbroken(s, steps)
    decreases |steps|
  {
    if steps != [] {
      SweepingStep(s, steps[0]);
      OwnsStep(s, steps[0]);
      CarefulSweepsAreEnough(Apply(s, steps[0]), steps[1..]);
    }
  }

  // ---- ended processes and the lock ----

  /** Whose lock it is, and what became of it. */
  predicate Tenure(s: State, p: nat)
    requires p < |s.procs|
  {
    var proc := s.procs[p];
    && (Holds(proc.pc) || proc.pc.Exited? ==> (s.disk.lock == Some(p) <==> !proc.swept))
    && (proc.pc.Start? ==> s.disk.lock != Some(p) && !proc.swept)
    && (Ended(proc.pc) && !proc.pc.Exited? ==> s.disk.lock != Some(p))
    && (proc.pc.Exited? ==> proc.job.Review? && !proc.job.given)
    && (proc.job.Review? && !proc.job.given ==>
          proc.pc.Start? || proc.pc.Locked? || proc.pc.Refused? || proc.pc.Exited? || proc.pc.Crashed?)
  }

  lemma TenureOwn(s: State, p: nat, q: nat)
    requires p < |s.procs| && q < |s.procs| && Alive(s.procs[p].pc) && Tenure(s, p) && Tenure(s, q)
    ensures Tenure(OwnStep(s, p), q)
  {
  }

  lemma TenureStep(s: State, step: Step, p: nat)
    requires Enabled(s, step) && forall q :: 0 <= q < |s.procs| ==> Tenure(s, q)
    requires p < |s.procs|
    ensures |Apply(s, step).procs| == |s.procs| && Tenure(Apply(s, step), p)
  {
    match step
    case Own(q) => TenureOwn(s, q, p);
    case Crash(q) => assert Tenure(s, p);
    case Unlink(k) => assert Tenure(s, p);
    case Log(slug, event) =>
      assert Tenure(s, p);
      assert Apply(s, step).procs[p] == Hearing(s.procs[p], slug, event);
    case _ => assert Tenure(s, p);
  }

  lemma {:induction false} TenureRun(s: State, steps: seq<Step>)
    requires Runs(s, steps) && forall q :: 0 <= q < |s.procs| ==> Tenure(s, q)
    ensures var t := After(s, steps); |t.procs| == |s.procs| && forall q :: 0 <= q < |t.procs| ==> Tenure(t, q)
    decreases |steps|
  {
    if steps != [] {
      var t := Apply(s, steps[0]);
      forall q | 0 <= q < |s.procs| ensures |t.procs| == |s.procs| && Tenure(t, q) {
        TenureStep(s, steps[0], q);
      }
      TenureRun(t, steps[1..]);
    }
  }

  /** In every run whatsoever, a process that has ended holds the lock if and only if it is a review
      that was not given its file, it did not fail to get the lock, and no sweep has unlinked it since. */
  lemma EndedHoldsIff(s: State, steps: seq<Step>, p: nat)
    requires Initial(s) && Runs(s, steps) && p < |s.procs|
    ensures var t := After(s, steps);
            && |t.procs| == |s.procs|
            && (Ended(t.procs[p].pc) ==>
                  (t.disk.lock == Some(p) <==>
                     var proc := t.procs[p]; proc.job.Review? && !proc.job.given && !proc.pc.Refused? && !proc.swept))
  {
    TenureRun(s, steps);
    assert Tenure(After(s, steps), p);
  }

  /** The lock of such a review stops every other process until a sweep: it is not released, nobody gets
      inside, and nothing commits. */
  lemma {:induction false} LeakStopsAll(s: State, steps: seq<Step>, p: nat)
    requires Owns(s) && Runs(s, steps) && p < |s.procs| && s.procs[p].pc.Exited? && s.disk.lock == Some(p)
    requires forall i :: 0 <= i < |steps| ==> !steps[i].Unlink?
    ensures var t := After(s, steps);
            && |t.procs| == |s.procs| && t.procs[p].pc.Exited?
            && t.disk.lock == Some(p) && !Inside(t) && t.commits == s.commits
    decreases |steps|
  {
    if steps != [] {
      var t := Apply(s, steps[0]);
      LeakStep(s, steps[0], p);
      LeakStopsAll(t, steps[1..], p);
    }
  }

  lemma LeakStep(s: State, step: Step, p: nat)
    requires Owns(s) && Enabled(s, step) && p < |s.procs| && s.procs[p].pc.Exited? && s.disk.lock == Some(p)
    requires !step.Unlink?
    ensures var t := Apply(s, step);
            && Owns(t) && |t.procs| == |s.procs| && t.procs[p].pc.Exited? && t.disk.lock == Some(p)
                 && t.commits == s.commits
  {
    OwnsStep(s, step);
  }

  // ---- a check and its commit are not separated by another commit ----

  predicate Judging(pc: Pc) { pc.Judged? || pc.Cleared? }

  /** The i-th commit was judged when exactly the i commits before it had happened, and whoever has
      judged and not yet committed did so after all commits. */
  predicate Decisive(s: State) {
    && (forall i :: 0 <= i < |s.commits| ==> s.commits[i].checked == i)
    && (forall p :: 0 <= p < |s.procs| && Judging(s.procs[p].pc) ==> s.procs[p].checked == |s.commits|)
  }

  lemma AdvanceJudges(p: nat, job: Job, disk: Disk, pc: Pc)
    ensures var (d, n) := Advance(p, job, disk, pc);
            && (Judging(n) && !n.Judged? ==> Judging(pc))
            && (Commits(pc, n) ==> Judging(pc) && !Judging(n))
            && (n.Judged? && !pc.Judged? ==> job.judged == disk.states && d == disk)
            && (Judging(n) ==> d.states == disk.states)
            && (Judging(pc) ==> Holds(pc))
  {
  }

  lemma DecisiveOwn(s: State, p: nat)
    requires Owns(s) && Decisive(s) && p < |s.procs|
    ensures Decisive(OwnStep(s, p))
  {
    AdvanceJudges(p, s.procs[p].job, s.disk, s.procs[p].pc);
  }

  lemma DecisiveStep(s: State, step: Step)
    requires Owns(s) && Decisive(s) && Enabled(s, step)
    ensures Decisive(Apply(s, step))
  {
    match step
    case Own(p) => DecisiveOwn(s, p);
    case _ =>
  }

  // ---- digests tell commits apart ----

  /** Seeded bundles stay in the inventory, so every later digest covers them. */
  predicate Includes(commits: seq<Commit>, inventory: Digest) {
    forall i :: 0 <= i < |commits| && commits[i].job.Seed? ==> commits[i].job.slug in inventory
  }

  predicate Recorded(s: State) {
    && Includes(s.commits, s.disk.states)
    && (forall i :: 0 <= i < |s.commits| ==> Includes(s.commits[..i], s.commits[i].job.judged))
    && (forall p :: 0 <= p < |s.procs| && Judging(s.procs[p].pc) ==>
          Includes(s.commits, s.procs[p].job.judged) && s.procs[p].job.judged.Keys <= s.disk.states.Keys)
    && (forall i :: 0 <= i < |s.commits| && s.commits[i].job.Seed? && s.commits[i].first ==>
          s.commits[i].job.slug !in s.commits[i].job.judged)
  }

  lemma AdvanceKeepsRuns(p: nat, job: Job, disk: Disk, pc: Pc)
    ensures var (d, n) := Advance(p, job, disk, pc);
            && disk.states.Keys <= d.states.Keys
            && (Commits(pc, n) && job.Seed? ==> job.slug in d.states)
  {
  }

  lemma CommitRecorded(commits: seq<Commit>, c: Commit)
    requires forall i :: 0 <= i < |commits| ==> Includes(commits[..i], commits[i].job.judged)
    requires Includes(commits, c.job.judged)
    ensures var all := commits + [c]; forall i :: 0 <= i < |all| ==> Includes(all[..i], all[i].job.judged)
  {
    var all := commits + [c];
    forall i | 0 <= i < |all| ensures Includes(all[..i], all[i].job.judged) {
      assert all[..i] == commits[..i];
    }
  }

  lemma RecordedOwn(s: State, p: nat)
    requires Owns(s) && Recorded(s) && p < |s.procs|
    ensures Recorded(OwnStep(s, p))
  {
    var job, pc := s.procs[p].job, s.procs[p].pc;
    AdvanceJudges(p, job, s.disk, pc);
    AdvanceKeepsRuns(p, job, s.disk, pc);
    var (d, n) := Advance(p, job, s.disk, pc);
    if Commits(pc, n) {
      CommitRecorded(s.commits, Commit(job, job.slug !in s.disk.states, s.procs[p].checked));
    }
  }

  lemma RecordedStep(s: State, step: Step)
    requires Owns(s) && Recorded(s) && Enabled(s, step)
    ensures Recorded(Apply(s, step))
  {
    match step
    case Own(p) => RecordedOwn(s, p);
    case _ =>
  }

  // ---- ledgers ----

  /** How a ledger begins that a seed has completed. */
  function Beginning(b: Birth): seq<Event> {
    b.early + [BundleCreated(b.job.slug)] + b.between + [OverlapReview(b.job.judged, b.job.outcome)]
  }

  predicate Starts(beginning: seq<Event>, disk: Disk, slug: Slug) {
    slug in disk.ledgers && beginning <= disk.ledgers[slug]
  }

  /** The state file is written and the ledger does not yet hold both the creation and the review. */
  predicate Creating(pc: Pc) { pc.Written? || pc.Emptied? || pc.Opened? }

  predicate Progress(s: State, proc: Proc) {
    var job := proc.job;
    && (Creating(proc.pc) ==> job.Seed? && job.slug !in s.born)
    && (proc.pc.Emptied? ==> job.slug in s.disk.ledgers && s.disk.ledgers[job.slug] == proc.early && proc.between == [])
    && (proc.pc.Opened? ==>
          job.slug in s.disk.ledgers
            && s.disk.ledgers[job.slug] == proc.early + [BundleCreated(job.slug)] + proc.between)
    && (proc.pc.Cleared? || proc.pc.Reviewed? ==> job.Seed?)
  }

  /** A completed ledger begins with its seed's two events and what others logged meanwhile, whatever
      was logged since; a ledger being created holds exactly these so far. */
  predicate Ledgers(s: State) {
    && (forall slug :: slug in s.born
         ==> s.born[slug].job.slug == slug && Starts(Beginning(s.born[slug]), s.disk, slug))
    && (forall p :: 0 <= p < |s.procs| ==> Progress(s, s.procs[p]))
  }

  lemma AppendStarts(beginning: seq<Event>, disk: Disk, slug: Slug, event: Event, other: Slug)
    requires Starts(beginning, disk, other)
    ensures Starts(beginning, Append(disk, slug, event), other)
  {
  }

  /** Only the appends, the truncation and the state file of a step matter to the ledgers. */
  lemma AdvanceStarts(p: nat, job: Job, disk: Disk, pc: Pc, beginning: seq<Event>, other: Slug)
    requires Starts(beginning, disk, other) && !(pc.Written? && job.slug == other)
    ensures Starts(beginning, Advance(p, job, disk, pc).0, other)
  {
    forall e ensures Starts(beginning, Append(disk, job.slug, e), other) {
      AppendStarts(beginning, disk, job.slug, e, other);
    }
  }

  lemma ReviewedStarts(s: State, p: nat)
    requires p < |s.procs| && Progress(s, s.procs[p])
    ensures var was, t := s.procs[p], OwnStep(s, p);
            was.pc.Opened? && t.procs[p].pc.Reviewed? ==>
              Starts(Beginning(Birth(was.job, was.early, was.between)), t.disk, was.job.slug)
  {
  }

  lemma BornOwn(s: State, p: nat, slug: Slug)
    requires Ledgers(s) && p < |s.procs| && slug in OwnStep(s, p).born
    ensures var t := OwnStep(s, p); t.born[slug].job.slug == slug && Starts(Beginning(t.born[slug]), t.disk, slug)
  {
    var was, t := s.procs[p], OwnStep(s, p);
    assert Progress(s, was);
    if was.pc.Opened? && t.procs[p].pc.Reviewed? && slug == was.job.slug {
      ReviewedStarts(s, p);
    } else {
      AdvanceStarts(p, was.job, s.disk, was.pc, Beginning(s.born[slug]), slug);
    }
  }

  lemma ProgressSelf(s: State, p: nat)
    requires p < |s.procs| && Progress(s, s.procs[p])
    ensures Progress(OwnStep(s, p), OwnStep(s, p).procs[p])
  {
    var was := s.procs[p];
    var first := was.early + [BundleCreated(was.job.slug)];
    assert first + [] == first;
  }

  lemma ProgressOther(s: State, p: nat, q: nat)
    requires Owns(s) && p < |s.procs| && q < |s.procs| && p != q && Alive(s.procs[p].pc)
    requires Progress(s, s.procs[p]) && Progress(s, s.procs[q])
    ensures Progress(OwnStep(s, p), s.procs[q])
  {
  }

  lemma LedgersOwn(s: State, p: nat)
    requires Owns(s) && Ledgers(s) && p < |s.procs| && Alive(s.procs[p].pc)
    ensures Ledgers(OwnStep(s, p))
  {
    var t := OwnStep(s, p);
    forall slug | slug in t.born
      ensures t.born[slug].job.slug == slug && Starts(Beginning(t.born[slug]), t.disk, slug) {
      BornOwn(s, p, slug);
    }
    forall q | 0 <= q < |t.procs| ensures Progress(t, t.procs[q]) {
      assert Progress(s, s.procs[q]) && Progress(s, s.procs[p]);
      if q == p { ProgressSelf(s, p); } else { ProgressOther(s, p, q); }
    }
  }

  lemma LedgersLog(s: State, slug: Slug, event: Event)
    requires Ledgers(s)
    ensures Ledgers(Apply(s, Log(slug, event)))
  {
    var t := Apply(s, Log(slug, event));
    forall other | other in t.born ensures Starts(Beginning(t.born[other]), t.disk, other) {
      AppendStarts(Beginning(s.born[other]), s.disk, slug, event, other);
    }
    forall q | 0 <= q < |t.procs| ensures Progress(t, t.procs[q]) {
      ProgressLog(s, slug, event, q);
    }
  }

  lemma ProgressLog(s: State, slug: Slug, event: Event, q: nat)
    requires q < |s.procs| && Progress(s, s.procs[q])
    ensures var t := Apply(s, Log(slug, event)); Progress(t, t.procs[q])
  {
    var was, t := s.procs[q], Apply(s, Log(slug, event));
    assert t.procs[q] == Hearing(was, slug, event);
    var created := [BundleCreated(was.job.slug)];
    assert (was.early + created + was.between) + [event] == was.early + created + (was.between + [event]);
  }

  lemma LedgersStep(s: State, step: Step)
    requires Owns(s) && Ledgers(s) && Enabled(s, step)
    ensures Ledgers(Apply(s, step))
  {
    match step
    case Own(p) => LedgersOwn(s, p);
    case Log(slug, event) => LedgersLog(s, slug, event);
    case Unlink(k) => LedgersUnlink(s, k);
    case Rewrite(slug, row) => assert forall p :: 0 <= p < |s.procs| ==> Progress(Apply(s, step), s.procs[p]);
    case Inspect(_, _) => assert forall p :: 0 <= p < |s.procs| ==> Progress(Apply(s, step), s.procs[p]);
    case Crash(q) =>
      var t := Apply(s, step);
      forall p | 0 <= p < |s.procs| ensures Progress(t, t.procs[p]) { assert Progress(s, s.procs[p]); }
  }

  lemma LedgersUnlink(s: State, k: nat)
    requires Ledgers(s) && k in s.sweeping
    ensures Ledgers(Apply(s, Unlink(k)))
  {
    var t := Apply(s, Unlink(k));
    forall p | 0 <= p < |t.procs| ensures Progress(t, t.procs[p]) { assert Progress(s, s.procs[p]); }
  }

  // ---- every run ----

  predicate Safe(s: State) { Owns(s) && Decisive(s) && Recorded(s) && Ledgers(s) }

  lemma SafeStep(s: State, step: Step)
    requires Safe(s) && Enabled(s, step) && !(step.Unlink? && Inside(s))
    ensures Safe(Apply(s, step))
  {
    OwnsStep(s, step);
    DecisiveStep(s, step);
    RecordedStep(s, step);
    LedgersStep(s, step);
  }

  lemma InitialIsSafe(s: State)
    requires Initial(s)
    ensures Safe(s)
  {
  }

  lemma {:induction false} SafeRun(s: State, steps: seq<Step>)
    requires Safe(s) && Runs(s, steps) && Unbroken(s, steps)
    ensures Safe(After(s, steps))
    decreases |steps|
  {
    if steps != [] {
      SafeStep(s, steps[0]);
      SafeRun(Apply(s, steps[0]), steps[1..]);
    }
  }

  /** Between the digest check of a seed or a review and its own commit, nothing else commits. */
  lemma NothingBetween(s: State, steps: seq<Step>, i: nat)
    requires Initial(s) && Runs(s, steps) && Unbroken(s, steps)
    requires i < |After(s, steps).commits|
    ensures After(s, steps).commits[i].checked == i
  {
    InitialIsSafe(s);
    SafeRun(s, steps);
  }

  /** A seed of a new bundle is never followed by a commit on the inventory it was judged on: two seeds
      with new slugs never both commit on the same digest. */
  lemma DigestsDiffer(s: State, steps: seq<Step>, i: nat, j: nat)
    requires Initial(s) && Runs(s, steps) && Unbroken(s, steps)
    requires i < j < |After(s, steps).commits|
    requires var c := After(s, steps).commits[i]; c.job.Seed? && c.first
    ensures After(s, steps).commits[i].job.judged != After(s, steps).commits[j].job.judged
  {
    InitialIsSafe(s);
    SafeRun(s, steps);
    var commits := After(s, steps).commits;
    assert commits[..j][i] == commits[i];
  }

  /** While an unforced seed is past its look at the state file and has not written it, nobody else creates
      that bundle; so what it commits is new. */
  predicate Unclaimed(s: State) {
    && (forall p :: 0 <= p < |s.procs| ==>
          var Proc(job, _, pc, _, _, _, _) := s.procs[p];
          job.Seed? && !job.force && (pc.Unclaimed? || Judging(pc)) ==> job.slug !in s.disk.states)
    && (forall i :: 0 <= i < |s.commits| && s.commits[i].job.Seed? && !s.commits[i].job.force ==> s.commits[i].first)
  }

  lemma UnclaimedOwn(s: State, p: nat)
    requires Owns(s) && Unclaimed(s) && p < |s.procs| && Alive(s.procs[p].pc)
    ensures Unclaimed(OwnStep(s, p))
  {
    var job, pc := s.procs[p].job, s.procs[p].pc;
    AdvanceJudges(p, job, s.disk, pc);
    if !Holds(pc) { AdvanceLock(p, job, s.disk, pc); }
  }

  lemma UnclaimedStep(s: State, step: Step)
    requires Owns(s) && Unclaimed(s) && Enabled(s, step)
    ensures Unclaimed(Apply(s, step))
  {
    match step
    case Own(p) => UnclaimedOwn(s, p);
    case _ =>
  }

  lemma {:induction false} UnclaimedRun(s: State, steps: seq<Step>)
    requires Owns(s) && Unclaimed(s) && Runs(s, steps) && Unbroken(s, steps)
    ensures Unclaimed(After(s, steps))
    decreases |steps|
  {
    if steps != [] {
      OwnsStep(s, steps[0]);
      UnclaimedStep(s, steps[0]);
      UnclaimedRun(Apply(s, steps[0]), steps[1..]);
    }
  }

  /** In every run in which no lock is unlinked under a process inside, a seed without --force never
      replaces a bundle: the state file it writes is the first of its slug. */
  lemma UnforcedIsFirst(s: State, steps: seq<Step>, i: nat)
    requires Initial(s) && Runs(s, steps) && Unbroken(s, steps)
    requires i < |After(s, steps).commits|
    ensures var c := After(s, steps).commits[i]; c.job.Seed? && !c.job.force ==> c.first
  {
    UnclaimedRun(s, steps);
  }

  /** A verb enters its transaction if and only if the lock is free and it is not an unforced seed of a bundle
      that exists; otherwise it has ended without touching the disk. */
  lemma BeginsIff(s: State, p: nat)
    requires p < |s.procs| && s.procs[p].pc.Start?
    ensures var job := s.procs[p].job;
            var begins := s.disk.lock == None && (job.Seed? && job.slug in s.disk.states ==> job.force);
            var after := OwnStep(s, p);
            && after.procs[p].pc == (if begins then Locked else Pc.Refused)
            && after.disk == (if begins then s.disk.(lock := Some(p)) else s.disk)
            && after.commits == s.commits && after.born == s.born
  {
  }

  /** Recording a review takes no step that writes a bundle. */
  predicate OnCourse(proc: Proc) {
    var pc := proc.pc;
    proc.job.Review? ==> !pc.Cleared? && !pc.Written? && !pc.Emptied? && !pc.Opened? && !pc.Reviewed?
  }

  predicate AllOnCourse(s: State) { forall p :: 0 <= p < |s.procs| ==> OnCourse(s.procs[p]) }

  lemma {:induction false} OnCourseRun(s: State, steps: seq<Step>)
    requires AllOnCourse(s) && Runs(s, steps)
    ensures AllOnCourse(After(s, steps))
    decreases |steps|
  {
    if steps != [] { OnCourseRun(Apply(s, steps[0]), steps[1..]); }
  }

  /** In every run, a step of a process is counted as a commit if and only if it writes its seed's state file
      or appends its review; no other one changes a state file or, of a review recorder, a ledger. */
  lemma CommitsExactly(s: State, steps: seq<Step>, p: nat)
    requires Initial(s) && Runs(s, steps) && Enabled(After(s, steps), Own(p))
    ensures var now := After(s, steps);
            var next := OwnStep(now, p);
            var job := now.procs[p].job;
            var kept := next.disk.states == now.disk.states && (job.Review? ==> next.disk.ledgers == now.disk.ledgers);
            var review := OverlapReview(job.judged, job.outcome);
            if |next.commits| == |now.commits| then next.commits == now.commits && kept
            else
              && next.commits[..|next.commits| - 1] == now.commits && next.commits[|now.commits|].job == job
              && if job.Seed? then next.disk.states == now.disk.states[job.slug := job.row]
                 else next.disk.ledgers == now.disk.ledgers[job.slug := Ledger(now.disk, job.slug) + [review]]
  {
    OnCourseRun(s, steps);
  }

  /** No event here is a creation or a review. */
  predicate Unlike(events: seq<Event>) { forall e :: e in events ==> !e.BundleCreated? && !e.OverlapReview? }

  /** What others must have logged during a seed for its ledger to open properly all the same. */
  predicate Harmless(b: Birth) {
    || (b.early == [] && (b.between == [] || b.between[0].OverlapReview?))
    || (|b.early| >= 2 && b.early[0].BundleCreated? && b.early[1].OverlapReview?)
  }

  /** In every run in which no lock is unlinked under a process inside: a completed ledger begins from
      then on with its seed's creation event and review and what others logged before and between them.
      So it opens properly if and only if nothing was logged there meanwhile, or an event that is itself
      a creation or a review stood in for the seed's own. */
  lemma LedgersOpen(s: State, steps: seq<Step>, slug: Slug)
    requires Initial(s) && Runs(s, steps) && Unbroken(s, steps)
    requires slug in After(s, steps).born
    ensures var t := After(s, steps); var b := t.born[slug];
            && Starts(Beginning(b), t.disk, slug)
            && (Opens(t.disk, slug) <==> Harmless(b))
            && (Unlike(b.early + b.between) ==> (Opens(t.disk, slug) <==> b.early + b.between == []))
  {
    InitialIsSafe(s);
    SafeRun(s, steps);
    var t := After(s, steps);
    OpensIff(t.born[slug], t.disk, slug);
  }

  lemma OpensIff(b: Birth, disk: Disk, slug: Slug)
    requires Starts(Beginning(b), disk, slug)
    ensures Opens(disk, slug) <==> Harmless(b)
    ensures Unlike(b.early + b.between) ==> (Opens(disk, slug) <==> b.early + b.between == [])
  {
    var all := Beginning(b);
    assert disk.ledgers[slug][0] == all[0] && disk.ledgers[slug][1] == all[1];
    assert |b.early| > 0 ==> all[0] == b.early[0] && b.early[0] == (b.early + b.between)[0];
    assert |b.early| > 1 ==> all[1] == b.early[1];
    assert |b.early| == 0 && |b.between| > 0 ==> all[1] == b.between[0] && b.between[0] == (b.early + b.between)[0];
  }

  // ---- a refused verb ----

  predicate Unwritten(pc: Pc) {
    pc.Start? || pc.Locked? || pc.Unclaimed? || Judging(pc) || pc.Declining? || pc.Refused? || pc.Exited?
  }

  /** No step of p changed a state file or a ledger. */
  predicate Untouched(s: State, steps: seq<Step>, p: nat)
    requires Runs(s, steps)
    decreases |steps|
  {
    steps == [] ||
    var t := Apply(s, steps[0]);
    && (steps[0] == Own(p) ==> t.disk.states == s.disk.states && t.disk.ledgers == s.disk.ledgers)
    && Untouched(t, steps[1..], p)
  }

  lemma AdvanceUnwritten(p: nat, job: Job, disk: Disk, pc: Pc)
    ensures var (d, n) := Advance(p, job, disk, pc);
            && (Unwritten(n) ==> Unwritten(pc) && d.states == disk.states && d.ledgers == disk.ledgers)
            && (pc.Crashed? ==> n.Crashed?)
  {
  }

  lemma StepUnwritten(s: State, step: Step, p: nat)
    requires Enabled(s, step) && p < |s.procs|
    ensures |Apply(s, step).procs| == |s.procs|
    ensures Unwritten(Apply(s, step).procs[p].pc) ==>
              && Unwritten(s.procs[p].pc)
              && (step == Own(p) ==>
                    Apply(s, step).disk.states == s.disk.states && Apply(s, step).disk.ledgers == s.disk.ledgers)
  {
    if step == Own(p) { AdvanceUnwritten(p, s.procs[p].job, s.disk, s.procs[p].pc); }
  }

  /** In every run whatsoever, a seed or review that ends refused, or for want of its file, has changed no
      state and no ledger. */
  lemma {:induction false} RefusedWroteNothing(s: State, steps: seq<Step>, p: nat)
    requires Runs(s, steps) && p < |s.procs|
    ensures |After(s, steps).procs| == |s.procs|
    ensures Unwritten(After(s, steps).procs[p].pc) ==> Unwritten(s.procs[p].pc) && Untouched(s, steps, p)
    decreases |steps|
  {
    if steps != [] {
      StepUnwritten(s, steps[0], p);
      RefusedWroteNothing(Apply(s, steps[0]), steps[1..], p);
    }
  }

  // ---- what the conditions are for ----

  lemma {:induction false} Snoc(s: State, steps: seq<Step>, step: Step)
    requires Runs(s, steps) && Enabled(After(s, steps), step)
    ensures Runs(s, steps + [step])
    ensures After(s, steps + [step]) == Apply(After(s, steps), step)
    decreases |steps|
  {
    if steps == [] {
      assert [] + [step] == [step];
      assert [step][1..] == [];
    } else {
      Snoc(Apply(s, steps[0]), steps[1..], step);
      assert (steps + [step])[1..] == steps[1..] + [step];
    }
  }

  /** Processes on host 0. */
  function New(job: Job): Proc { Proc(job, 0, Start, 0, false, [], []) }

  function Fresh(jobs: seq<Job>): State {
    State(Disk(None, map[], map[]), seq(|jobs|, i requires 0 <= i < |jobs| => New(jobs[i])), {}, map[], [])
  }

  lemma Then(s: State, steps: seq<Step>, t: State, step: Step) returns (longer: seq<Step>, u: State)
    requires Runs(s, steps) && After(s, steps) == t && Enabled(t, step)
    ensures u == Apply(t, step)
    ensures Runs(s, longer) && After(s, longer) == u
  {
    Snoc(s, steps, step);
    longer, u := steps + [step], Apply(t, step);
  }

  /** record-overlap-review without --review-file: it ends inside its transaction, and the lock stays. */
  lemma LeakedLock(slug: Slug) returns (s: State, steps: seq<Step>)
    ensures s == Fresh([Review(slug, map[], "", false)]) && Initial(s) && Runs(s, steps)
    ensures var t := After(s, steps); |t.procs| == 1 && Ended(t.procs[0].pc) && t.disk.lock == Some(0)
  {
    s := Fresh([Review(slug, map[], "", false)]);
    steps := [];
    var t := s;
    steps, t := Then(s, steps, t, Own(0));
    steps, t := Then(s, steps, t, Own(0));
  }

  /** A seed dies inside, and two sweeps find its lock. */
  lemma DeadOwner(jobs: seq<Job>) returns (s: State, steps: seq<Step>, t: State)
    requires |jobs| == 3 && jobs[0].Seed?
    ensures s == Fresh(jobs) && Runs(s, steps) && After(s, steps) == t
    ensures t == State(Disk(Some(0), map[], map[]),
                       [New(jobs[0]).(pc := Crashed), New(jobs[1]), New(jobs[2])], {0, 1}, map[], [])
  {
    s := Fresh(jobs);
    t := s;
    steps := [];
    steps, t := Then(s, steps, t, Own(0));
    assert t.procs == [New(jobs[0]).(pc := Locked), New(jobs[1]), New(jobs[2])];
    steps, t := Then(s, steps, t, Crash(0));
    assert t.procs == [New(jobs[0]).(pc := Crashed), New(jobs[1]), New(jobs[2])];
    steps, t := Then(s, steps, t, Inspect(0, 0));
    steps, t := Then(s, steps, t, Inspect(1, 0));
  }

  /** Two sweeps that both saw the dead owner: the second one unlinks the lock of a live seed, and two
      seeds are inside their transactions at once. */
  lemma TwoSweepsBreakTheLock(jobs: seq<Job>) returns (s: State, steps: seq<Step>)
    requires |jobs| == 3 && jobs[0].Seed? && jobs[1].Seed? && jobs[2].Seed?
    ensures Initial(s) && Runs(s, steps)
    ensures s == Fresh(jobs)
    ensures var t := After(s, steps);
            && t.commits == [] && t.disk.states == map[] && |t.procs| == 3
            && t.procs[1] == New(jobs[1]).(pc := Locked, swept := true) && t.procs[2] == New(jobs[2]).(pc := Locked)
  {
    var t;
    s, steps, t := DeadOwner(jobs);
    steps, t := Then(s, steps, t, Unlink(0));
    steps, t := Then(s, steps, t, Own(1));
    steps, t := Then(s, steps, t, Unlink(1));
    steps, t := Then(s, steps, t, Own(2));
  }

  /** One sweep on another host is enough: it finds no such process there, unlinks the lock of a seed that
      runs, and two seeds are inside at once. */
  lemma ForeignSweepBreaksTheLock(jobs: seq<Job>) returns (s: State, steps: seq<Step>)
    requires |jobs| == 2 && jobs[0].Seed? && jobs[1].Seed?
    ensures s == Fresh(jobs) && Initial(s) && Runs(s, steps) && !Unbroken(s, steps)
    ensures var t := After(s, steps);
            && t.sweeping == {} && |t.procs| == 2
            && t.procs[0] == New(jobs[0]).(pc := Locked, swept := true) && t.procs[1] == New(jobs[1]).(pc := Locked)
  {
    s := Fresh(jobs);
    var t := s;
    steps := [];
    steps, t := Then(s, steps, t, Own(0));
    assert t == State(Disk(Some(0), map[], map[]), [New(jobs[0]).(pc := Locked), New(jobs[1])], {}, map[], []);
    steps, t := Then(s, steps, t, Inspect(0, 1));
    steps, t := Then(s, steps, t, Unlink(0));
    steps, t := Then(s, steps, t, Own(1));
    OneAtATime(s, steps);
    assert Holds(t.procs[0].pc) && Holds(t.procs[1].pc);
  }

  /** A seed of a new bundle, judged on the inventory as it is, gets as far as creating it. */
  lemma ToCleared(s: State, steps: seq<Step>, t: State, p: nat) returns (longer: seq<Step>, u: State)
    requires Runs(s, steps) && After(s, steps) == t && p < |t.procs| && t.procs[p].pc.Locked?
    requires var job := t.procs[p].job;
             job.Seed? && job.slug !in t.disk.states && job.judged == t.disk.states && job.predecessor.None?
    ensures Runs(s, longer) && After(s, longer) == u
    ensures u == t.(procs := t.procs[p := t.procs[p].(pc := Cleared, checked := |t.commits|)])
  {
    longer, u := steps, t;
    longer, u := Then(s, longer, u, Own(p));
    longer, u := Then(s, longer, u, Own(p));
    longer, u := Then(s, longer, u, Own(p));
  }

  /** ... and both commit on the same, empty, inventory. */
  lemma TwoSweepsCommitTwice(jobs: seq<Job>) returns (s: State, steps: seq<Step>)
    requires |jobs| == 3 && jobs[0].Seed? && jobs[1].Seed? && jobs[2].Seed?
    requires jobs[1].judged == map[] && jobs[2].judged == map[] && jobs[1].slug != jobs[2].slug
    requires jobs[1].predecessor.None? && jobs[2].predecessor.None?
    ensures Initial(s) && Runs(s, steps)
    ensures After(s, steps).commits == [Commit(jobs[1], true, 0), Commit(jobs[2], true, 0)]
  {
    s, steps := TwoSweepsBreakTheLock(jobs);
    var t := After(s, steps);
    steps, t := ToCleared(s, steps, t, 1);
    steps, t := ToCleared(s, steps, t, 2);
    steps, t := Then(s, steps, t, Own(1));
    steps, t := Then(s, steps, t, Own(2));
  }

  lemma ToCreating(job: Job) returns (s: State, steps: seq<Step>, t: State)
    requires job.Seed? && job.judged == map[] && job.predecessor.None?
    ensures s == Fresh([job]) && Runs(s, steps) && After(s, steps) == t
    ensures t == State(Disk(Some(0), map[], map[]), [New(job).(pc := Cleared)], {}, map[], [])
  {
    s := Fresh([job]);
    t := s;
    steps := [];
    steps, t := Then(s, steps, t, Own(0));
    assert t == State(Disk(Some(0), map[], map[]), [New(job).(pc := Locked)], {}, map[], []);
    steps, t := ToCleared(s, steps, t, 0);
  }

  lemma ToEmptied(job: Job) returns (s: State, steps: seq<Step>, t: State)
    requires job.Seed? && job.judged == map[] && job.predecessor.None?
    ensures s == Fresh([job]) && Runs(s, steps) && After(s, steps) == t
    ensures t == State(Disk(Some(0), map[job.slug := job.row], map[job.slug := []]),
                       [New(job).(pc := Emptied)], {}, map[], [Commit(job, true, 0)])
  {
    s, steps, t := ToCreating(job);
    steps, t := Then(s, steps, t, Own(0));
    steps, t := Then(s, steps, t, Own(0));
  }

  /** The only process, a seed that creates its bundle, with this ledger so far. */
  predicate Bearing(t: State, pc: Pc, job: Job, ledger: seq<Event>) {
    && job.Seed? && !job.warns && job.row.status != "archived"
    && |t.procs| == 1 && t.procs[0].pc == pc && t.procs[0].job == job
    && job.slug in t.disk.states && t.disk.states[job.slug] == job.row
    && job.slug in t.disk.ledgers && t.disk.ledgers[job.slug] == ledger
  }

  lemma BirthOpens(s: State, steps: seq<Step>, t: State, job: Job, ledger: seq<Event>)
    returns (longer: seq<Step>, u: State)
    requires Runs(s, steps) && After(s, steps) == t && Bearing(t, Emptied, job, ledger)
    ensures Runs(s, longer) && After(s, longer) == u
    ensures Bearing(u, Reviewed, job, (ledger + [BundleCreated(job.slug)]) + [OverlapReview(job.judged, job.outcome)])
    ensures job.slug in u.born
  {
    longer, u := Then(s, steps, t, Own(0));
    assert Bearing(u, Opened, job, ledger + [BundleCreated(job.slug)]);
    longer, u := Then(s, longer, u, Own(0));
  }

  lemma BirthEnds(s: State, steps: seq<Step>, t: State, job: Job, ledger: seq<Event>)
    returns (longer: seq<Step>, u: State)
    requires Runs(s, steps) && After(s, steps) == t && Bearing(t, Reviewed, job, ledger)
    ensures Runs(s, longer) && After(s, longer) == u
    ensures Bearing(u, Succeeded, job, ledger) && u.born == t.born
  {
    longer, u := Then(s, steps, t, Own(0));
    assert Bearing(u, Passing, job, ledger);
    longer, u := Then(s, longer, u, Own(0));
  }

  /** A verb of another session that logs to a bundle between the truncation of its ledger by a seed and
      the creation event leaves a completed seed whose ledger begins with something else. */
  lemma LoggedDuringBirth(job: Job, kind: string) returns (s: State, steps: seq<Step>)
    requires job.Seed? && job.judged == map[] && job.predecessor.None? && !job.warns && job.row.status != "archived"
    ensures Initial(s) && Runs(s, steps)
    ensures var t := After(s, steps);
            |t.procs| == 1 && t.procs[0].pc.Succeeded? && job.slug in t.born && !Opens(t.disk, job.slug)
  {
    var t := Fresh([job]);
    s, steps, t := ToEmptied(job);
    steps, t := Then(s, steps, t, Log(job.slug, Other(kind)));
    steps, t := BirthOpens(s, steps, t, job, [Other(kind)]);
    steps, t := BirthEnds(s, steps, t, job, t.disk.ledgers[job.slug]);
  }

  /** A seed that asks for an archived bundle writes the state file and then fails: the bundle is left
      with an empty ledger. */
  lemma ArchivedSeedBreaks(job: Job) returns (s: State, steps: seq<Step>)
    requires job.Seed? && job.judged == map[] && job.predecessor.None? && job.row.status == "archived"
    ensures Initial(s) && Runs(s, steps)
    ensures var t := After(s, steps);
            && |t.procs| == 1 && t.procs[0].pc.Broken?
            && t.disk == Disk(None, map[job.slug := job.row], map[job.slug := []])
  {
    var t := Fresh([job]);
    s, steps, t := ToEmptied(job);
    steps, t := Then(s, steps, t, Own(0));
    assert t.procs == [New(job).(pc := Breaking)];
    assert t.disk == Disk(Some(0), map[job.slug := job.row], map[job.slug := []]);
    steps, t := Then(s, steps, t, Own(0));
  }
}
