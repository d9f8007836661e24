/** The two verbs as they are written, and what they do when nothing else runs. */
module SeedVerb {
  import opened Options
  import opened SeedLock

  function Rank(pc: Pc): nat {
    match pc
    case Start => 10 case Locked => 9 case Unclaimed => 8 case Judged => 7 case Cleared => 6
    case Written => 5 case Emptied => 4 case Opened => 3 case Reviewed => 2
    case Declining => 1 case Breaking => 1 case Passing => 1
    case _ => 0
  }

  /** All steps of one process, with nothing in between. */
  function Finish(p: nat, job: Job, disk: Disk, pc: Pc): (Disk, Pc)
    decreases Rank(pc)
  {
    if Rank(pc) == 0 || (pc.Cleared? && job.Review?) then (disk, pc)
    else var (d, n) := Advance(p, job, disk, pc); Finish(p, job, d, n)
  }

  /** What validation finds wrong with a seed. */
  predicate Rejects(job: Job, states: map<Slug, Row>)
    requires job.Seed?
  {
    || (job.slug in states && !job.force)
    || job.judged != states
    || (job.predecessor.Some? && job.predecessor.value !in states)
  }

  function FirstEvents(job: Job): seq<Event>
    requires job.Seed?
  {
    [BundleCreated(job.slug), OverlapReview(job.judged, job.outcome)] + if job.warns then [ConfigWarning] else []
  }

  /** A seed alone: refused, it leaves everything as it was; otherwise the bundle is there with a ledger
      of exactly its first events, unless it was asked to be created archived; and the lock is free again. */
  lemma SeedAlone(p: nat, job: Job, disk: Disk)
    requires job.Seed? && disk.lock.None?
    ensures Finish(p, job, disk, Start)
         == if Rejects(job, disk.states) then (disk, Refused)
            else
              var states := disk.states[job.slug := job.row];
              if job.row.status == "archived" then (Disk(None, states, disk.ledgers[job.slug := []]), Broken)
              else (Disk(None, states, disk.ledgers[job.slug := FirstEvents(job)]), Succeeded)
  {
    if disk.lock.None? && !(job.slug in disk.states && !job.force) {
      SeedCreates(p, job, disk.(lock := Some(p)));
    }
  }

  /** A review alone. Given its file, it is appended or refused, and the lock is free again; not given
      its file, it changes nothing and leaves the lock taken. */
  lemma ReviewAlone(p: nat, job: Job, disk: Disk)
    requires job.Review? && disk.lock.None?
    ensures Finish(p, job, disk, Start)
         == if !job.given then (disk.(lock := Some(p)), Exited)
            else if job.judged != disk.states || Archived(disk, job.slug) then (disk, Refused)
            else (Append(disk, job.slug, OverlapReview(job.judged, job.outcome)), Succeeded)
  {
    var locked := disk.(lock := Some(p));
    Unroll(p, job, disk, Start);
    Unroll(p, job, locked, Locked);
    if job.given {
      Unroll(p, job, locked, Unclaimed);
      if job.judged == disk.states { Unroll(p, job, locked, Judged); }
    }
  }

  lemma SeedCreates(p: nat, job: Job, disk: Disk)
    requires job.Seed? && disk.lock == Some(p) && (job.slug in disk.states ==> job.force)
    ensures Finish(p, job, disk, Unclaimed)
         == if Rejects(job, disk.states) then (disk.(lock := None), Refused)
            else
              var states := disk.states[job.slug := job.row];
              if job.row.status == "archived" then (Disk(None, states, disk.ledgers[job.slug := []]), Broken)
              else (Disk(None, states, disk.ledgers[job.slug := FirstEvents(job)]), Succeeded)
  {
    if !Rejects(job, disk.states) {
      var created := disk.(states := disk.states[job.slug := job.row]);
      var emptied := created.(ledgers := created.ledgers[job.slug := []]);
      Unroll(p, job, disk, Unclaimed);
      Unroll(p, job, disk, Judged);
      Unroll(p, job, disk, Cleared);
      Unroll(p, job, created, Written);
      LedgerWritten(p, job, emptied);
      assert disk.ledgers[job.slug := []][job.slug := FirstEvents(job)] == disk.ledgers[job.slug := FirstEvents(job)];
    }
  }

  lemma Unroll(p: nat, job: Job, disk: Disk, pc: Pc)
    requires Rank(pc) > 0 && (pc.Cleared? ==> job.Seed?)
    ensures Finish(p, job, disk, pc) == Finish(p, job, Advance(p, job, disk, pc).0, Advance(p, job, disk, pc).1)
  {
  }

  lemma LedgerWritten(p: nat, job: Job, disk: Disk)
    requires job.Seed? && disk.lock == Some(p) && job.slug in disk.states && disk.states[job.slug] == job.row
    requires job.slug in disk.ledgers && disk.ledgers[job.slug] == []
    ensures Finish(p, job, disk, Emptied)
         == if job.row.status == "archived" then (disk.(lock := None), Broken)
            else (disk.(lock := None, ledgers := disk.ledgers[job.slug := FirstEvents(job)]), Succeeded)
  {
    Unroll(p, job, disk, Emptied);
    if job.row.status != "archived" {
      var created, review := BundleCreated(job.slug), OverlapReview(job.judged, job.outcome);
      var one := Append(disk, job.slug, created);
      var two := Append(one, job.slug, review);
      Unroll(p, job, one, Opened);
      Unroll(p, job, two, Reviewed);
      assert [] + [created] == [created];
      assert [created] + [review] == [created, review];
      Grown(disk.ledgers, job.slug, [created], [created, review]);
      if job.warns {
        Grown(disk.ledgers, job.slug, [created, review], FirstEvents(job));
      } else {
        assert FirstEvents(job) == [created, review];
      }
    }
  }

  lemma Grown(ledgers: map<Slug, seq<Event>>, slug: Slug, a: seq<Event>, b: seq<Event>)
    ensures ledgers[slug := a][slug := b] == ledgers[slug := b]
  {
  }

  /** The files of one repository. */
  class Repository {
    var lock: Option<nat>
    var states: map<Slug, Row>
    var ledgers: map<Slug, seq<Event>>

    constructor (disk: Disk)
      ensures Contents() == disk
    {
      lock, states, ledgers := disk.lock, disk.states, disk.ledgers;
    }

    function Contents(): Disk
      reads this
    {
      Disk(lock, states, ledgers)
    }

    method Acquire(p: nat) returns (ok: bool)
      modifies `lock
      ensures ok == old(lock).None?
      ensures lock == if ok then Some(p) else old(lock)
    {
      ok := lock.None?;
      if ok { lock := Some(p); }
    }

    method Release(p: nat)
      modifies `lock
      ensures Contents() == Released(old(Contents()), p)
    {
      if lock == Some(p) { lock := None; }
    }

    method AppendEvent(slug: Slug, event: Event) returns (ok: bool)
      modifies `ledgers
      ensures ok == !Archived(old(Contents()), slug)
      ensures Contents() == if ok then Append(old(Contents()), slug, event) else old(Contents())
    {
      ok := !(slug in states && states[slug].status == "archived");
      if ok {
        ledgers := ledgers[slug := (if slug in ledgers then ledgers[slug] else []) + [event]];
      }
    }

    /** The seed verb: it takes the lock, validates, creates, and releases the lock on every path. */
    method Seed(p: nat, job: Job) returns (verdict: Pc)
      requires job.Seed?
      modifies this
      ensures (Contents(), verdict) == Finish(p, job, old(Contents()), Start)
    {
      if job.slug in states && !job.force { return Refused; }
      var ok := Acquire(p);
      if !ok { return Refused; }
      if (job.slug in states && !job.force) || job.judged != states
         || (job.predecessor.Some? && job.predecessor.value !in states) {
        Release(p);
        return Refused;
      }
      verdict := Create(p, job);
    }

    method Create(p: nat, job: Job) returns (verdict: Pc)
      requires job.Seed? && lock == Some(p)
      modifies this
      ensures (Contents(), verdict) == Finish(p, job, old(Contents()), Cleared)
    {
      states := states[job.slug := job.row];
      ledgers := ledgers[job.slug := []];
      verdict := WriteLedger(p, job);
    }

    method WriteLedger(p: nat, job: Job) returns (verdict: Pc)
      requires job.Seed? && lock == Some(p)
      modifies this
      ensures (Contents(), verdict) == Finish(p, job, old(Contents()), Emptied)
    {
      var ok := AppendEvent(job.slug, BundleCreated(job.slug));
      if !ok { Release(p); return Broken; }
      verdict := WriteReview(p, job);
    }

    method WriteReview(p: nat, job: Job) returns (verdict: Pc)
      requires job.Seed? && lock == Some(p)
      modifies this
      ensures (Contents(), verdict) == Finish(p, job, old(Contents()), Opened)
    {
      var ok := AppendEvent(job.slug, OverlapReview(job.judged, job.outcome));
      if !ok { Release(p); return Broken; }
      verdict := Warn(p, job);
    }

    method Warn(p: nat, job: Job) returns (verdict: Pc)
      requires job.Seed? && lock == Some(p)
      modifies this
      ensures (Contents(), verdict) == Finish(p, job, old(Contents()), Reviewed)
    {
      var ok := true;
      if job.warns { ok := AppendEvent(job.slug, ConfigWarning); }
      Release(p);
      verdict := if ok then Succeeded else Broken;
    }

    /** The record-overlap-review verb. The missing flag ends the process under the lock. */
    method RecordReview(p: nat, job: Job) returns (verdict: Pc)
      requires job.Review?
      modifies this
      ensures (Contents(), verdict) == Finish(p, job, old(Contents()), Start)
    {
      if lock.None? { ReviewAlone(p, job, Contents()); }
      var ok := Acquire(p);
      if !ok { return Refused; }
      if !job.given { return Exited; }
      ok := job.judged == states;
      if ok { ok := AppendEvent(job.slug, OverlapReview(job.judged, job.outcome)); }
      Release(p);
      verdict := if ok then Succeeded else Refused;
    }
  }
}
