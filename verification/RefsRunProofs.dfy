/** Interleaved refs verbs keep links mutual exactly as long as each writes its source from a reading that fits. */
module RefsRunProofs {
  import opened Options
  import opened Refs
  import RefsSerial
  import opened RefsRuns

  predicate Inside(pc: Pc) { pc.Held? || pc.Half? || pc.Written? }

  predicate Proper(s: State) {
    forall p :: 0 <= p < |s.procs| ==> Rooted(s.procs[p].job) && s.procs[p].job.source != s.procs[p].job.target
  }

  /** The bundles a verb writes. */
  function Footprint(w: World, job: Job): set<Id> { if job.target in w then {job.source, job.target} else {job.source} }

  /** What process p may rely on. */
  predicate Sure(s: State, p: nat)
    requires p < |s.procs|
  {
    var Proc(job, pc) := s.procs[p];
    && (Inside(pc) ==> forall id :: id in Footprint(s.w, job) ==> id in s.locks && s.locks[id] == p)
    && (!pc.Start? && !pc.Failed? ==> !Refused(s.w, job))
    && (pc.HasRead? || pc.Held? || pc.Half? ==> pc.source.slug == job.source.dir)
    && (pc.Half? && job.target in s.w ==>
         (Linked(s.w, job.target, Reciprocal(job.direction), job.source) <==> job.verb.Add?))
  }

  /** The link the process has written one side of. */
  predicate Midway(proc: Proc, a: Id, d: Direction, b: Id) {
    && proc.pc.Half?
    && (|| (a == proc.job.source && d == proc.job.direction && b == proc.job.target)
        || (a == proc.job.target && d == Reciprocal(proc.job.direction) && b == proc.job.source))
  }

  predicate AnyMidway(s: State, a: Id, d: Direction, b: Id) {
    exists p :: 0 <= p < |s.procs| && Midway(s.procs[p], a, d, b)
  }

  /** Every link is mutual but those a process has written one side of. */
  ghost predicate MutualBut(s: State) {
    forall a, d, b :: a in s.w && b in s.w && !AnyMidway(s, a, d, b) ==> Both(s.w, a, d, b)
  }

  ghost predicate Orderly(s: State) { Titled(s.w) && Proper(s) && forall p :: 0 <= p < |s.procs| ==> Sure(s, p) }

  // ---- what a step does to the others ----

  lemma KeysStay(s: State, p: nat)
    requires p < |s.procs|
    requires !s.procs[p].pc.Start? && !s.procs[p].pc.Failed? ==> !Refused(s.w, s.procs[p].job)
    ensures Step(s, p).w.Keys == s.w.Keys
    ensures |Step(s, p).procs| == |s.procs|
    ensures forall q :: 0 <= q < |s.procs| && q != p ==> Step(s, p).procs[q] == s.procs[q]
    ensures Step(s, p).procs[p].job == s.procs[p].job
  {
  }

  /** A step of p changes only bundles p has locked. */
  lemma OnlyOwn(s: State, p: nat, id: Id)
    requires p < |s.procs| && Sure(s, p) && id in s.w && id in Step(s, p).w && Step(s, p).w[id] != s.w[id]
    ensures id in s.locks && s.locks[id] == p
  {
  }

  lemma LocksStay(s: State, p: nat, id: Id, q: nat)
    requires p < |s.procs| && q != p && id in s.locks && s.locks[id] == q
    ensures id in Step(s, p).locks && Step(s, p).locks[id] == q
  {
  }

  lemma TitlesStay(s: State, p: nat)
    requires p < |s.procs| && Titled(s.w) && Sure(s, p)
    ensures Titled(Step(s, p).w)
  {
    var Proc(job, pc) := s.procs[p];
    if pc.Held? && job.target in s.w { SlugStays(job, s.w[job.target], pc.source); }
    if pc.Half? { SlugStays(job, pc.source, pc.source); }
  }

  lemma NotRefusedStays(w: World, v: World, job: Job)
    requires v.Keys == w.Keys && Titled(w) && Titled(v) && !Refused(w, job)
    ensures !Refused(v, job)
  {
    assert job.source in w.Keys;
  }

  lemma OthersSure(s: State, p: nat, q: nat)
    requires Titled(s.w) && p < |s.procs| && q < |s.procs| && p != q && Sure(s, p) && Sure(s, q)
    ensures q < |Step(s, p).procs| && Sure(Step(s, p), q)
  {
    KeysStay(s, p);
    TitlesStay(s, p);
    if !Refused(s.w, s.procs[q].job) { NotRefusedStays(s.w, Step(s, p).w, s.procs[q].job); }
    var job := s.procs[q].job;
    if Inside(s.procs[q].pc) {
      forall id | id in Footprint(s.w, job) ensures id in Step(s, p).locks && Step(s, p).locks[id] == q {
        LocksStay(s, p, id, q);
      }
      forall id | id in Footprint(s.w, job) && id in s.w ensures Step(s, p).w[id] == s.w[id] {
        if Step(s, p).w[id] != s.w[id] { OnlyOwn(s, p, id); }
      }
    }
  }

  lemma OwnSure(s: State, p: nat)
    requires Titled(s.w) && Enabled(s, p) && Sure(s, p)
    requires Rooted(s.procs[p].job) && s.procs[p].job.source != s.procs[p].job.target
    ensures p < |Step(s, p).procs| && Sure(Step(s, p), p)
  {
    KeysStay(s, p);
    TitlesStay(s, p);
    if !Refused(s.w, s.procs[p].job) { NotRefusedStays(s.w, Step(s, p).w, s.procs[p].job); }
    var Proc(job, pc) := s.procs[p];
    if pc.Held? && job.target in s.w {
      TargetEditHolds(job, s.w[job.target], pc.source, Reciprocal(job.direction), job.source);
    }
  }

  // ---- links ----

  lemma StepLinks(s: State, p: nat, a: Id, d: Direction, b: Id)
    requires p < |s.procs| && Sure(s, p) && Rooted(s.procs[p].job) && s.procs[p].job.source != s.procs[p].job.target
    requires a in s.w
    ensures var Proc(job, pc) := s.procs[p];
            Linked(Step(s, p).w, a, d, b) <==>
              if pc.Held? && a == job.target && d == Reciprocal(job.direction) && b == job.source then job.verb.Add?
              else if pc.Half? && a == job.source && Writes(job, pc.source)
              then (if d == job.direction && b == job.target then job.verb.Add? else Holds(pc.source, a.repo, d, b))
              else Linked(s.w, a, d, b)
  {
    var Proc(job, pc) := s.procs[p];
    if pc.Held? && a == job.target {
      TargetEditHolds(job, s.w[job.target], pc.source, d, b);
    } else if pc.Half? && a == job.source {
      SourceEditHolds(job, pc.source, d, b);
    }
  }

  lemma MidwayAfter(s: State, p: nat, a: Id, d: Direction, b: Id)
    requires p < |s.procs| && Sure(s, p)
    ensures AnyMidway(s, a, d, b) ==> AnyMidway(Step(s, p), a, d, b) || Midway(s.procs[p], a, d, b)
  {
    KeysStay(s, p);
    if AnyMidway(s, a, d, b) {
      var q :| 0 <= q < |s.procs| && Midway(s.procs[q], a, d, b);
      if q != p { assert Midway(Step(s, p).procs[q], a, d, b); }
    }
  }

  /** All steps but the writing of a source leave every link mutual that is not written half. */
  lemma OtherSteps(s: State, p: nat, a: Id, d: Direction, b: Id)
    requires Orderly(s) && MutualBut(s) && Enabled(s, p) && !s.procs[p].pc.Half?
    requires a in s.w && b in s.w && !AnyMidway(Step(s, p), a, d, b)
    ensures Both(Step(s, p).w, a, d, b)
  {
    var Proc(job, pc) := s.procs[p];
    var t := Step(s, p);
    assert Sure(s, p);
    KeysStay(s, p);
    StepLinks(s, p, a, d, b);
    StepLinks(s, p, b, Reciprocal(d), a);
    MidwayAfter(s, p, a, d, b);
    if pc.Held? {
      assert !Midway(t.procs[p], a, d, b);
    }
    assert Both(s.w, a, d, b);
  }

  // ---- writing the source ----

  /** Of the links of a bundle it has locked, no other process has written one side. */
  lemma SourceIsQuiet(s: State, p: nat, d: Direction, b: Id)
    requires Orderly(s) && p < |s.procs| && Inside(s.procs[p].pc)
    ensures forall q :: 0 <= q < |s.procs| && q != p ==> !Midway(s.procs[q], s.procs[p].job.source, d, b)
  {
    var x := s.procs[p].job.source;
    assert Sure(s, p);
    assert x in Footprint(s.w, s.procs[p].job);
    forall q | 0 <= q < |s.procs| && q != p ensures !Midway(s.procs[q], x, d, b) {
      assert Sure(s, q);
      assert Midway(s.procs[q], x, d, b) ==> x in Footprint(s.w, s.procs[q].job);
    }
  }

  lemma SourceSettles(s: State, p: nat, d: Direction, b: Id)
    requires Orderly(s) && p < |s.procs| && s.procs[p].pc.Half?
    ensures !AnyMidway(Step(s, p), s.procs[p].job.source, d, b)
  {
    assert Sure(s, p);
    KeysStay(s, p);
    SourceIsQuiet(s, p, d, b);
  }

  lemma MutualBefore(s: State, p: nat, d: Direction, b: Id)
    requires Orderly(s) && MutualBut(s) && p < |s.procs| && s.procs[p].pc.Half? && b in s.w
    requires var job := s.procs[p].job; !(d == job.direction && b == job.target)
    ensures s.procs[p].job.source in s.w && Both(s.w, s.procs[p].job.source, d, b)
  {
    var job := s.procs[p].job;
    assert Sure(s, p);
    SourceIsQuiet(s, p, d, b);
    assert !Midway(s.procs[p], job.source, d, b);
  }

  /** After the write: the verb's own link. */
  lemma OwnLink(s: State, p: nat)
    requires Orderly(s) && p < |s.procs| && s.procs[p].pc.Half?
    requires var job := s.procs[p].job; job.target in s.w
    ensures var Proc(job, pc) := s.procs[p];
            Both(Step(s, p).w, job.source, job.direction, job.target) <==>
              Writes(job, pc.source) || (Linked(s.w, job.source, job.direction, job.target) <==> job.verb.Add?)
  {
    var job := s.procs[p].job;
    assert Sure(s, p);
    StepLinks(s, p, job.source, job.direction, job.target);
    StepLinks(s, p, job.target, Reciprocal(job.direction), job.source);
  }

  /** After the write: another link of the source. */
  lemma OtherLink(s: State, p: nat, d: Direction, b: Id)
    requires Orderly(s) && MutualBut(s) && p < |s.procs| && s.procs[p].pc.Half? && b in s.w
    requires var job := s.procs[p].job; !(d == job.direction && b == job.target)
    ensures var Proc(job, pc) := s.procs[p];
            Both(Step(s, p).w, job.source, d, b) <==>
              (Writes(job, pc.source) ==> AgreesOn(s.w, job, pc.source, d, b))
  {
    var job := s.procs[p].job;
    assert Sure(s, p);
    MutualBefore(s, p, d, b);
    StepLinks(s, p, job.source, d, b);
    StepLinks(s, p, b, Reciprocal(d), job.source);
  }

  lemma SourceStep(s: State, p: nat, a: Id, d: Direction, b: Id)
    requires Orderly(s) && MutualBut(s) && p < |s.procs| && s.procs[p].pc.Half? && WritesFitting(s, p)
    requires a in s.w && b in s.w && !AnyMidway(Step(s, p), a, d, b)
    ensures Both(Step(s, p).w, a, d, b)
  {
    var Proc(job, pc) := s.procs[p];
    assert Sure(s, p);
    if a == job.source {
      if d == job.direction && b == job.target { OwnLink(s, p); } else { OtherLink(s, p, d, b); }
    } else if b == job.source {
      if Reciprocal(d) == job.direction && a == job.target {
        OwnLink(s, p);
      } else {
        OtherLink(s, p, Reciprocal(d), a);
      }
      assert Both(Step(s, p).w, b, Reciprocal(d), a);
    } else {
      StepLinks(s, p, a, d, b);
      StepLinks(s, p, b, Reciprocal(d), a);
      MidwayAfter(s, p, a, d, b);
      assert Both(s.w, a, d, b);
    }
  }

  lemma MisfitShows(s: State, p: nat)
    requires Orderly(s) && MutualBut(s) && p < |s.procs| && s.procs[p].pc.Half? && MutualBut(Step(s, p))
    ensures WritesFitting(s, p)
  {
    var Proc(job, pc) := s.procs[p];
    var t := Step(s, p);
    assert Sure(s, p);
    KeysStay(s, p);
    if !Writes(job, pc.source) {
      if job.target in s.w {
        SourceSettles(s, p, job.direction, job.target);
        assert Both(t.w, job.source, job.direction, job.target);
        OwnLink(s, p);
      }
    } else {
      forall d, b | b in s.w && !(d == job.direction && b == job.target)
        ensures AgreesOn(s.w, job, pc.source, d, b)
      {
        SourceSettles(s, p, d, b);
        assert Both(t.w, job.source, d, b);
        OtherLink(s, p, d, b);
      }
    }
  }

  /** The one kind of step that ends mutuality. */
  lemma StepMutualIff(s: State, p: nat)
    requires Orderly(s) && MutualBut(s) && Enabled(s, p)
    ensures MutualBut(Step(s, p)) <==> WritesFitting(s, p)
  {
    var t := Step(s, p);
    assert Sure(s, p);
    KeysStay(s, p);
    if s.procs[p].pc.Half? && MutualBut(t) { MisfitShows(s, p); }
    if WritesFitting(s, p) {
      forall a, d, b | a in t.w && b in t.w && !AnyMidway(t, a, d, b) ensures Both(t.w, a, d, b) {
        assert a in s.w.Keys && b in s.w.Keys;
        if s.procs[p].pc.Half? { SourceStep(s, p, a, d, b); } else { OtherSteps(s, p, a, d, b); }
      }
    }
  }

  lemma OrderlyStep(s: State, p: nat)
    requires Orderly(s) && Enabled(s, p)
    ensures Orderly(Step(s, p))
  {
    var t := Step(s, p);
    assert Sure(s, p);
    KeysStay(s, p);
    TitlesStay(s, p);
    OwnSure(s, p);
    forall q | 0 <= q < |t.procs|
      ensures Sure(t, q) && Rooted(t.procs[q].job) && t.procs[q].job.source != t.procs[q].job.target {
      if q != p { OthersSure(s, p, q); }
    }
  }

  // ---- from the locking to the write ----

  /** While a process is inside, what it read keeps fitting. */
  ghost predicate Prepared(s: State, p: nat)
    requires p < |s.procs|
  {
    var Proc(job, pc) := s.procs[p]; pc.Held? || pc.Half? ==> Fits(s.w, job, pc.source)
  }

  lemma FitsOnSource(w: World, v: World, job: Job, read: Bundle)
    requires w.Keys == v.Keys && job.source in w && v[job.source] == w[job.source] && Fits(w, job, read)
    requires read.slug == job.source.dir
    ensures Fits(v, job, read)
  {
    assert Linked(v, job.source, job.direction, job.target) == Linked(w, job.source, job.direction, job.target);
    if Writes(job, read) {
      forall d, b | b in v && !(d == job.direction && b == job.target) ensures AgreesOn(v, job, read, d, b) {
        assert b in w.Keys;
        assert AgreesOn(w, job, read, d, b);
        assert Linked(v, job.source, d, b) == Linked(w, job.source, d, b);
      }
    }
  }

  lemma SourceStays(s: State, p: nat, q: nat)
    requires Orderly(s) && Enabled(s, p) && q < |s.procs|
    requires s.procs[q].pc.Held? || (s.procs[q].pc.Half? && q != p)
    ensures var x := s.procs[q].job.source; x in s.w && x in Step(s, p).w && Step(s, p).w[x] == s.w[x]
  {
    var x := s.procs[q].job.source;
    assert Sure(s, p) && Sure(s, q);
    KeysStay(s, p);
    assert x in s.w.Keys;
    assert x in Footprint(s.w, s.procs[q].job);
    if q != p && Step(s, p).w[x] != s.w[x] { OnlyOwn(s, p, x); }
  }

  lemma PreparedStep(s: State, p: nat, q: nat)
    requires Orderly(s) && Enabled(s, p) && LocksFitting(s, p) && q < |s.procs| && Prepared(s, q)
    ensures q < |Step(s, p).procs| && Prepared(Step(s, p), q)
  {
    var t := Step(s, p);
    assert Sure(s, p);
    KeysStay(s, p);
    var Proc(job, pc) := s.procs[q];
    if pc.Held? || (pc.Half? && q != p) {
      assert Sure(s, q);
      SourceStays(s, p, q);
      FitsOnSource(s.w, t.w, job, pc.source);
    }
  }

  lemma {:induction false} FittingFromLock(s: State, schedule: seq<nat>)
    requires Orderly(s) && Runs(s, schedule) && FittingAtLock(s, schedule)
    requires forall q :: 0 <= q < |s.procs| ==> Prepared(s, q)
    ensures Fitting(s, schedule)
    decreases |schedule|
  {
    if schedule != [] {
      var p := schedule[0];
      var t := Step(s, p);
      assert Prepared(s, p) && Sure(s, p);
      OrderlyStep(s, p);
      KeysStay(s, p);
      forall q | 0 <= q < |t.procs| ensures Prepared(t, q) {
        PreparedStep(s, p, q);
      }
      FittingFromLock(t, schedule[1..]);
    }
  }

  // ---- every run ----

  /** At every moment of the run all links are mutual but those written half. */
  ghost predicate AlwaysMutual(s: State, schedule: seq<nat>)
    requires Runs(s, schedule)
    decreases |schedule|
  {
    MutualBut(s) && (schedule == [] || AlwaysMutual(Step(s, schedule[0]), schedule[1..]))
  }

  lemma {:induction false} MutualRun(s: State, schedule: seq<nat>)
    requires Orderly(s) && MutualBut(s) && Runs(s, schedule)
    ensures AlwaysMutual(s, schedule) <==> Fitting(s, schedule)
    ensures Fitting(s, schedule) ==> MutualBut(After(s, schedule))
    decreases |schedule|
  {
    if schedule != [] {
      StepMutualIff(s, schedule[0]);
      if MutualBut(Step(s, schedule[0])) {
        OrderlyStep(s, schedule[0]);
        MutualRun(Step(s, schedule[0]), schedule[1..]);
      }
    }
  }

  /** Nothing runs yet, every bundle is in the directory of its slug, and all links are mutual. */
  ghost predicate Initial(s: State) {
    && Titled(s.w) && Proper(s) && Mutual(s.w) && s.locks == map[]
    && forall p :: 0 <= p < |s.procs| ==> s.procs[p].pc.Start?
  }

  /** No verb is between its two writes. */
  predicate BetweenVerbs(s: State) { forall p :: 0 <= p < |s.procs| ==> !s.procs[p].pc.Half? }

  lemma MutualThen(s: State)
    requires MutualBut(s) && BetweenVerbs(s)
    ensures Mutual(s.w)
  {
    forall a, d, b | a in s.w && b in s.w ensures Both(s.w, a, d, b) {
      assert !AnyMidway(s, a, d, b);
    }
  }

  /** In every interleaving, all links are mutual at every moment, but those a verb has written one side
      of, if and only if every verb writes its source from a reading that fits; it does if the reading
      fits when the locks are taken. So whenever no verb is between its two writes, all links are mutual. */
  lemma InterleavedRunsKeepMutual(s: State, schedule: seq<nat>)
    requires Initial(s) && Runs(s, schedule)
    ensures AlwaysMutual(s, schedule) <==> Fitting(s, schedule)
    ensures FittingAtLock(s, schedule) ==> Fitting(s, schedule)
    ensures Fitting(s, schedule) && BetweenVerbs(After(s, schedule)) ==> Mutual(After(s, schedule).w)
  {
    MutualRun(s, schedule);
    if FittingAtLock(s, schedule) { FittingFromLock(s, schedule); }
    if Fitting(s, schedule) && BetweenVerbs(After(s, schedule)) { MutualThen(After(s, schedule)); }
  }

  // ---- a reading that does not fit ----

  lemma {:induction false} Snoc(s: State, schedule: seq<nat>, p: nat)
    requires Runs(s, schedule) && Enabled(After(s, schedule), p)
    ensures Runs(s, schedule + [p])
    ensures After(s, schedule + [p]) == Step(After(s, schedule), p)
    decreases |schedule|
  {
    if schedule == [] {
      assert [] + [p] == [p];
      assert [p][1..] == [];
    } else {
      Snoc(Step(s, schedule[0]), schedule[1..], p);
      assert (schedule + [p])[1..] == schedule[1..] + [p];
    }
  }

  lemma Then(s: State, schedule: seq<nat>, t: State, p: nat) returns (longer: seq<nat>, u: State)
    requires Runs(s, schedule) && After(s, schedule) == t && Enabled(t, p)
    ensures u == Step(t, p)
    ensures Runs(s, longer) && After(s, longer) == u
  {
    Snoc(s, schedule, p);
    longer, u := schedule + [p], Step(t, p);
  }

  function Empty(a: Id): Bundle { Bundle(a.dir, [], [], None) }

  function Three(a: Id, b: Id, c: Id): World { map[a := Empty(a), b := Empty(b), c := Empty(c)] }

  function Adding(a: Id, b: Id): Job { Job(Add(None), a, Forward, b) }

  /** Two sessions link the same run forward to two others; the one that read the run first writes it last. */
  function TwoAdds(a: Id, b: Id, c: Id): State {
    State(Three(a, b, c), map[], [Proc(Adding(a, b), Start), Proc(Adding(a, c), Start)])
  }

  predicate Apart(a: Id, b: Id, c: Id) {
    && a != b && a != c && b != c && a.repo == b.repo == c.repo && a.repo != ""
    && ValidSlug(a.dir) && ValidSlug(b.dir) && ValidSlug(c.dir)
  }

  /** Process p, alone from its read on, up to the write of its source. */
  lemma Locking(s: State, schedule: seq<nat>, t: State, p: nat) returns (longer: seq<nat>, u: State)
    requires Runs(s, schedule) && After(s, schedule) == t
    requires p < |t.procs| && t.procs[p].pc.HasRead? && t.locks == map[]
    ensures Runs(s, longer) && After(s, longer) == u
    ensures var Proc(job, pc) := t.procs[p];
            u == State(WriteTarget(t.w, job, pc.source), Take(map[], Needs(t.w, job, pc.source), p),
                       t.procs[p := Proc(job, Half(pc.source))])
  {
    var job, source := t.procs[p].job, t.procs[p].pc.source;
    longer, u := Then(s, schedule, t, p);
    assert u == State(t.w, Take(map[], Needs(t.w, job, source), p), t.procs[p := Proc(job, Held(source))]);
    longer, u := Then(s, longer, u, p);
  }

  /** ... from there to its end ... */
  lemma Writing(s: State, schedule: seq<nat>, t: State, p: nat) returns (longer: seq<nat>, u: State)
    requires Runs(s, schedule) && After(s, schedule) == t
    requires p < |t.procs| && t.procs[p].pc.Half? && Give(t.locks, p) == map[]
    ensures Runs(s, longer) && After(s, longer) == u
    ensures var Proc(job, pc) := t.procs[p];
            u == State(WriteSource(t.w, job, pc.source), map[], t.procs[p := Proc(job, Finished)])
  {
    var job, source := t.procs[p].job, t.procs[p].pc.source;
    longer, u := Then(s, schedule, t, p);
    assert u == State(WriteSource(t.w, job, source), t.locks, t.procs[p := Proc(job, Written)]);
    longer, u := Then(s, longer, u, p);
  }

  /** ... and both. */
  lemma Complete(s: State, schedule: seq<nat>, t: State, p: nat) returns (longer: seq<nat>, u: State)
    requires Runs(s, schedule) && After(s, schedule) == t
    requires p < |t.procs| && t.procs[p].pc.HasRead? && t.locks == map[] && Rooted(t.procs[p].job)
    requires var job := t.procs[p].job; job.source in t.w && job.target in t.w && job.source != job.target
    ensures Runs(s, longer) && After(s, longer) == u
    ensures u == State(Applied(t.w, t.procs[p].job, t.procs[p].pc.source), map[],
                       t.procs[p := Proc(t.procs[p].job, Finished)])
  {
    GivenBack(t.w, t.procs[p].job, t.procs[p].pc.source, p);
    longer, u := Locking(s, schedule, t, p);
    longer, u := Writing(s, longer, u, p);
  }

  lemma GivenBack(w: World, job: Job, source: Bundle, p: nat)
    ensures Give(Take(map[], Needs(w, job, source), p), p) == map[]
  {
  }

  lemma BothRead(a: Id, b: Id, c: Id) returns (schedule: seq<nat>, t: State)
    requires Apart(a, b, c)
    ensures Runs(TwoAdds(a, b, c), schedule) && After(TwoAdds(a, b, c), schedule) == t
    ensures t == State(Three(a, b, c), map[],
              [Proc(Adding(a, b), HasRead(Empty(a))), Proc(Adding(a, c), HasRead(Empty(a)))])
  {
    var s := TwoAdds(a, b, c);
    schedule, t := [], s;
    schedule, t := Then(s, schedule, t, 0);
    schedule, t := Then(s, schedule, t, 1);
  }

  /** The first session's reading does not fit once the run is linked to c. */
  lemma LostLink(w: World, after: World, a: Id, b: Id, c: Id)
    requires Apart(a, b, c) && Mutual(w) && Titled(w) && a in w && b in w && c in w && Linked(w, c, Back, a)
    requires after == Applied(w, Adding(a, b), Empty(a))
    ensures Linked(after, c, Back, a) && !Linked(after, a, Forward, c) && !Mutual(after)
  {
    assert Both(w, a, Forward, c);
    assert !Holds(Empty(a), a.repo, Forward, c);
    RefsSerial.Changes(Adding(a, b), Empty(a));
    assert !AgreesOn(w, Adding(a, b), Empty(a), Forward, c);
    RefsSerial.LateKeepsMutualIff(w, Adding(a, b), Empty(a));
    LinksAfter(w, Adding(a, b), c, Back, a);
    LinksAfter(w, Adding(a, b), a, Forward, c);
  }

  lemma SecondDone(a: Id, b: Id, c: Id) returns (schedule: seq<nat>, t: State, w: World)
    requires Apart(a, b, c)
    ensures Runs(TwoAdds(a, b, c), schedule) && After(TwoAdds(a, b, c), schedule) == t
    ensures t == State(w, map[], [Proc(Adding(a, b), HasRead(Empty(a))), Proc(Adding(a, c), Finished)])
    ensures Mutual(w) && Titled(w) && a in w && b in w && c in w && Linked(w, c, Back, a)
  {
    schedule, t := BothRead(a, b, c);
    schedule, t := Complete(TwoAdds(a, b, c), schedule, t, 1);
    w := t.w;
    TwoAddsInitial(a, b, c);
    RefsSerial.DoKeepsMutual(Three(a, b, c), Adding(a, c));
    LinksAfter(Three(a, b, c), Adding(a, c), c, Back, a);
  }

  lemma TwoAddsInitial(a: Id, b: Id, c: Id)
    requires Apart(a, b, c)
    ensures Initial(TwoAdds(a, b, c))
  {
  }

  /** Both verbs succeed, and the link to c is kept on c's side only: a's side of it is lost. */
  lemma LostUpdate(a: Id, b: Id, c: Id) returns (schedule: seq<nat>)
    requires Apart(a, b, c)
    ensures Initial(TwoAdds(a, b, c)) && Runs(TwoAdds(a, b, c), schedule)
    ensures var t := After(TwoAdds(a, b, c), schedule);
            && (forall p :: 0 <= p < |t.procs| ==> t.procs[p].pc.Finished?)
            && Linked(t.w, c, Back, a) && !Linked(t.w, a, Forward, c)
            && !Mutual(t.w)
  {
    var t, w := TwoAdds(a, b, c), Three(a, b, c);
    TwoAddsInitial(a, b, c);
    schedule, t, w := SecondDone(a, b, c);
    schedule, t := Complete(TwoAdds(a, b, c), schedule, t, 0);
    LostLink(w, t.w, a, b, c);
  }

  /** What an addition from an empty source leaves. */
  lemma LinksAfter(w: World, job: Job, x: Id, d: Direction, y: Id)
    requires Rooted(job) && job.verb.Add? && job.source in w && job.target in w && job.source != job.target && x in w
    ensures x in Applied(w, job, Empty(job.source))
    ensures Linked(Applied(w, job, Empty(job.source)), x, d, y) <==>
              if x == job.target then (d == Reciprocal(job.direction) && y == job.source) || Linked(w, x, d, y)
              else if x == job.source then d == job.direction && y == job.target
              else Linked(w, x, d, y)
  {
    TargetEditHolds(job, w[job.target], Empty(job.source), d, y);
    SourceEditHolds(job, Empty(job.source), d, y);
    SourceEditHolds(job, Empty(job.source), job.direction, job.target);
  }

  /** A verb that has read its source goes on if and only if the bundles it locks are free: its source
      always, its target when that exists and the source's slug does not name it. It then owns just those. */
  lemma LocksExactly(s: State, p: nat)
    requires p < |s.procs| && s.procs[p].pc.HasRead?
    ensures var Proc(job, pc) := s.procs[p];
            var both := job.target in s.w && !(job.target.dir == pc.source.slug && job.target.repo == job.source.repo);
            var free := job.source !in s.locks && (both ==> job.target !in s.locks);
            var after := Step(s, p);
            && after.procs == s.procs[p := Proc(job, if free then Held(pc.source) else Failed)] && after.w == s.w
            && after.locks == if !free then s.locks
                 else if both then s.locks[job.source := p][job.target := p] else s.locks[job.source := p]
  {
  }
}
