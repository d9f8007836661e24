/** Verbs run one after another, each of which may crash between its two writes and leave the rest to later ones. */
module RefsCrashes {
  import opened Refs
  import opened RefsSerial

  /** A verb that runs to its end, or one that dies after it wrote the target. */
  datatype Step = Whole(job: Job) | Crashed(job: Job)

  function Take(w: World, step: Step): World {
    if Refused(w, step.job) then w
    else if step.Whole? then Do(w, step.job)
    else WriteTarget(w, step.job, w[step.job.source])
  }

  function Run(w: World, steps: seq<Step>): World {
    if steps == [] then w else Take(Run(w, steps[..|steps| - 1]), steps[|steps| - 1])
  }

  /** Between different bundles, with the source in the directory of its slug. */
  predicate Regular(w: World, job: Job) {
    Rooted(job) && job.source != job.target && (job.source in w ==> w[job.source].slug == job.source.dir)
  }

  predicate AllRegular(w: World, steps: seq<Step>) { forall i :: 0 <= i < |steps| ==> Regular(w, steps[i].job) }

  // ---- what no verb changes ----

  predicate SameNames(w: World, v: World) { v.Keys == w.Keys && forall id :: id in w ==> v[id].slug == w[id].slug }

  lemma TakeNames(w: World, step: Step)
    ensures SameNames(w, Take(w, step))
  {
  }

  lemma {:induction false} RunNames(w: World, steps: seq<Step>)
    ensures SameNames(w, Run(w, steps))
  {
    if steps != [] {
      var n := |steps| - 1;
      RunNames(w, steps[..n]);
      TakeNames(Run(w, steps[..n]), steps[n]);
    }
  }

  lemma RefusedAlike(w: World, v: World, job: Job)
    requires SameNames(w, v)
    ensures Refused(w, job) <==> Refused(v, job)
    ensures Regular(w, job) <==> Regular(v, job)
  {
  }

  // ---- the two sides of a link ----

  /** A verb on the source's side of this link, and one on the target's. */
  predicate From(job: Job, a: Id, d: Direction, b: Id) { job.source == a && job.direction == d && job.target == b }

  predicate To(job: Job, a: Id, d: Direction, b: Id) { From(job, b, Reciprocal(d), a) }

  predicate OnLink(job: Job, a: Id, d: Direction, b: Id) { From(job, a, d, b) || To(job, a, d, b) }

  /** One verb sets its own link, on both sides or, if it dies, on the target's, and no other. */
  lemma TakeLinks(w: World, step: Step, a: Id, d: Direction, b: Id)
    requires Regular(w, step.job) && !Refused(w, step.job) && a in w
    ensures a in Take(w, step)
    ensures Linked(Take(w, step), a, d, b) <==>
              if To(step.job, a, d, b) || (From(step.job, a, d, b) && step.Whole?) then step.job.verb.Add?
              else Linked(w, a, d, b)
  {
    var job := step.job;
    var read := w[job.source];
    Changes(job, read);
    if step.Whole? {
      AppliedLinks(w, job, read, a, d, b);
    } else if job.target in w {
      TargetEditHolds(job, w[job.target], read, d, b);
    }
  }

  /** Whether a holds the link after a run: as the last verb that wrote this side wanted it. */
  predicate Side(w: World, steps: seq<Step>, a: Id, d: Direction, b: Id) {
    if steps == [] then Linked(w, a, d, b)
    else
      var last := steps[|steps| - 1];
      if !Refused(w, last.job) && (To(last.job, a, d, b) || (From(last.job, a, d, b) && last.Whole?))
        then last.job.verb.Add?
      else Side(w, steps[..|steps| - 1], a, d, b)
  }

  lemma {:induction false} RunLinks(w: World, steps: seq<Step>, a: Id, d: Direction, b: Id)
    requires AllRegular(w, steps) && a in w
    ensures a in Run(w, steps) && (Linked(Run(w, steps), a, d, b) <==> Side(w, steps, a, d, b))
  {
    RunNames(w, steps);
    assert a in w.Keys;
    if steps != [] {
      var n := |steps| - 1;
      var v := Run(w, steps[..n]);
      RunLinks(w, steps[..n], a, d, b);
      RunNames(w, steps[..n]);
      RefusedAlike(w, v, steps[n].job);
      if !Refused(v, steps[n].job) { TakeLinks(v, steps[n], a, d, b); }
    }
  }

  // ---- half-written links ----

  /** The last verb on this link that was not refused died before it wrote the source. */
  predicate Half(w: World, steps: seq<Step>, a: Id, d: Direction, b: Id) {
    steps != [] &&
    var last := steps[|steps| - 1];
    if !Refused(w, last.job) && OnLink(last.job, a, d, b) then last.Crashed? else Half(w, steps[..|steps| - 1], a, d, b)
  }

  lemma {:induction false} SidesAgree(w: World, steps: seq<Step>, a: Id, d: Direction, b: Id)
    requires AllRegular(w, steps) && Both(w, a, d, b) && !Half(w, steps, a, d, b)
    ensures Side(w, steps, a, d, b) <==> Side(w, steps, b, Reciprocal(d), a)
  {
    if steps != [] {
      var n := |steps| - 1;
      if Refused(w, steps[n].job) || !OnLink(steps[n].job, a, d, b) { SidesAgree(w, steps[..n], a, d, b); }
    }
  }

  /** Whatever runs and wherever it crashes, all links are mutual but those whose last verb crashed; and all
      are once every crashed verb, or any later verb on its link, has gone through. */
  lemma SerialRunsKeepMutual(w: World, steps: seq<Step>)
    requires Mutual(w) && AllRegular(w, steps)
    ensures Run(w, steps).Keys == w.Keys
    ensures forall a, d, b :: a in w && b in w && !Half(w, steps, a, d, b) ==> Both(Run(w, steps), a, d, b)
    ensures (forall a, d, b :: a in w && b in w ==> !Half(w, steps, a, d, b)) ==> Mutual(Run(w, steps))
  {
    RunNames(w, steps);
    forall a, d, b | a in w && b in w && !Half(w, steps, a, d, b) ensures Both(Run(w, steps), a, d, b) {
      assert Both(w, a, d, b);
      SidesAgree(w, steps, a, d, b);
      RunLinks(w, steps, a, d, b);
      RunLinks(w, steps, b, Reciprocal(d), a);
    }
    if forall a, d, b :: a in w && b in w ==> !Half(w, steps, a, d, b) {
      forall a, d, b | a in Run(w, steps) && b in Run(w, steps) ensures Both(Run(w, steps), a, d, b) {
        assert a in w.Keys && b in w.Keys;
        assert !Half(w, steps, a, d, b);
      }
    }
  }

  // ---- going through again ----

  /** A verb that is not refused is on the link. */
  predicate Redone(w: World, more: seq<Step>, a: Id, d: Direction, b: Id) {
    exists i :: 0 <= i < |more| && !Refused(w, more[i].job) && OnLink(more[i].job, a, d, b)
  }

  predicate NoCrash(more: seq<Step>) { forall i :: 0 <= i < |more| ==> more[i].Whole? }

  lemma {:induction false} RedoneIsWhole(w: World, steps: seq<Step>, more: seq<Step>, a: Id, d: Direction, b: Id)
    requires NoCrash(more)
    ensures Half(w, steps + more, a, d, b) <==> Half(w, steps, a, d, b) && !Redone(w, more, a, d, b)
    decreases |more|
  {
    if more == [] {
      assert steps + more == steps;
    } else {
      var n := |more| - 1;
      assert (steps + more)[|steps| + n] == more[n];
      assert (steps + more)[..|steps| + n] == steps + more[..n];
      RedoneIsWhole(w, steps, more[..n], a, d, b);
      LastRedone(w, more, n, a, d, b);
    }
  }

  lemma LastRedone(w: World, more: seq<Step>, n: nat, a: Id, d: Direction, b: Id)
    requires NoCrash(more) && n + 1 == |more|
    ensures Redone(w, more, a, d, b) ==
              (Redone(w, more[..n], a, d, b) || (!Refused(w, more[n].job) && OnLink(more[n].job, a, d, b)))
  {
    if Redone(w, more, a, d, b) {
      var i :| 0 <= i < |more| && !Refused(w, more[i].job) && OnLink(more[i].job, a, d, b);
      assert i < n ==> more[..n][i] == more[i];
    }
    if Redone(w, more[..n], a, d, b) {
      var i :| 0 <= i < n && !Refused(w, more[..n][i].job) && OnLink(more[..n][i].job, a, d, b);
      assert more[i] == more[..n][i];
    }
  }

  /** After any run with crashes, more verbs that all go through leave every link mutual as soon as one
      of them is on each half-written link. */
  lemma LaterVerbsComplete(w: World, steps: seq<Step>, more: seq<Step>)
    requires Mutual(w) && AllRegular(w, steps) && AllRegular(w, more) && NoCrash(more)
    requires forall a, d, b :: a in w && b in w && Half(w, steps, a, d, b) ==> Redone(w, more, a, d, b)
    ensures Mutual(Run(w, steps + more))
  {
    forall a, d, b | a in w && b in w ensures !Half(w, steps + more, a, d, b) {
      RedoneIsWhole(w, steps, more, a, d, b);
    }
    SerialRunsKeepMutual(w, steps + more);
  }

  /** Running a crashed verb again at once ends exactly as the undisturbed verb would have. */
  lemma RetryCompletes(w: World, job: Job)
    requires Rooted(job) && !Refused(w, job) && job.source != job.target
    ensures !Refused(WriteTarget(w, job, w[job.source]), job)
    ensures Do(WriteTarget(w, job, w[job.source]), job) == Do(w, job)
  {
    var crashed := WriteTarget(w, job, w[job.source]);
    assert crashed[job.source] == w[job.source];
    if job.target in w {
      EditTwice(job, w[job.target], w[job.source]);
      assert crashed[job.target] == TargetEdit(job, crashed[job.target], w[job.source]);
      assert WriteTarget(crashed, job, w[job.source]) == crashed;
    }
  }

  lemma EditTwice(job: Job, b: Bundle, source: Bundle)
    requires Rooted(job)
    ensures TargetEdit(job, TargetEdit(job, b, source), source) == TargetEdit(job, b, source)
  {
    TargetEditHolds(job, b, source, Reciprocal(job.direction), Signed(job, source));
    if !job.verb.Add? {
      WithoutNone(Entries(TargetEdit(job, b, source), Reciprocal(job.direction)), job.target.repo, Signed(job, source));
    }
  }
}
