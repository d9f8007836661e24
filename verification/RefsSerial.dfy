/** One verb with nothing in between, or applied with what it read of its source earlier. */
module RefsSerial {
  import opened Options
  import opened Refs

  lemma AppliedLinks(w: World, job: Job, read: Bundle, a: Id, d: Direction, b: Id)
    requires Rooted(job) && !Refused(w, job) && job.source != job.target && a in w
    ensures a in Applied(w, job, read)
    ensures Linked(Applied(w, job, read), a, d, b) <==>
              if a == job.target && d == Reciprocal(job.direction) && b == Signed(job, read) then job.verb.Add?
              else if a == job.source && Writes(job, read)
              then (if d == job.direction && b == job.target then job.verb.Add? else Holds(read, a.repo, d, b))
              else Linked(w, a, d, b)
  {
    SourceEditHolds(job, read, d, b);
    if job.target in w { TargetEditHolds(job, w[job.target], read, d, b); }
  }

  // ---- a source read earlier ----

  /** The verb's own link afterwards. */
  lemma OwnPair(w: World, job: Job, read: Bundle)
    requires Rooted(job) && Mutual(w) && !Refused(w, job) && job.source != job.target && job.target in w
    ensures Both(Applied(w, job, read), job.source, job.direction, job.target) <==>
              ((Writes(job, read) <==> Signed(job, read) != job.source) ==> Settled(w, job, job.source))
  {
    AppliedLinks(w, job, read, job.source, job.direction, job.target);
    AppliedLinks(w, job, read, job.target, Reciprocal(job.direction), job.source);
    assert Both(w, job.source, job.direction, job.target);
  }

  /** The link the target's entry is about, if that is another bundle's. */
  lemma SignedPair(w: World, job: Job, read: Bundle)
    requires Rooted(job) && !Refused(w, job) && job.source != job.target && job.target in w
    requires Signed(job, read) != job.source && Signed(job, read) in w
    ensures Both(Applied(w, job, read), Signed(job, read), job.direction, job.target) <==>
              Settled(w, job, Signed(job, read))
  {
    AppliedLinks(w, job, read, Signed(job, read), job.direction, job.target);
    AppliedLinks(w, job, read, job.target, Reciprocal(job.direction), Signed(job, read));
  }

  /** Any other link of the source afterwards. */
  lemma OtherPair(w: World, job: Job, read: Bundle, d: Direction, b: Id)
    requires Rooted(job) && Mutual(w) && !Refused(w, job) && job.source != job.target && b in w
    requires !(d == job.direction && b == job.target)
    ensures Both(Applied(w, job, read), job.source, d, b) <==> (Writes(job, read) ==> AgreesOn(w, job, read, d, b))
  {
    AppliedLinks(w, job, read, job.source, d, b);
    AppliedLinks(w, job, read, b, Reciprocal(d), job.source);
    assert Both(w, job.source, d, b);
  }

  lemma Elsewhere(w: World, job: Job, read: Bundle, a: Id, d: Direction, b: Id)
    requires Rooted(job) && Mutual(w) && !Refused(w, job) && job.source != job.target && a in w && b in w
    requires a != job.source && b != job.source
    requires !(a == Signed(job, read) && d == job.direction && b == job.target)
    requires !(b == Signed(job, read) && Reciprocal(d) == job.direction && a == job.target)
    ensures Both(Applied(w, job, read), a, d, b)
  {
    AppliedLinks(w, job, read, a, d, b);
    AppliedLinks(w, job, read, b, Reciprocal(d), a);
    assert Both(w, a, d, b);
  }

  /** A link of the source. */
  lemma SourcePair(w: World, job: Job, read: Bundle, d: Direction, b: Id)
    requires Rooted(job) && Mutual(w) && !Refused(w, job) && job.source != job.target && b in w && Fits(w, job, read)
    ensures Both(Applied(w, job, read), job.source, d, b)
  {
    if d == job.direction && b == job.target {
      OwnPair(w, job, read);
    } else {
      assert Writes(job, read) ==> AgreesOn(w, job, read, d, b);
      OtherPair(w, job, read, d, b);
    }
  }

  lemma Mirrored(w: World, a: Id, d: Direction, b: Id)
    ensures Both(w, a, d, b) <==> Both(w, b, Reciprocal(d), a)
  {
  }

  lemma LateOne(w: World, job: Job, read: Bundle, a: Id, d: Direction, b: Id)
    requires Rooted(job) && Mutual(w) && !Refused(w, job) && job.source != job.target && a in w && b in w
    requires Fits(w, job, read)
    ensures Both(Applied(w, job, read), a, d, b)
  {
    var after, signed := Applied(w, job, read), Signed(job, read);
    Mirrored(after, a, d, b);
    if a == job.source {
      SourcePair(w, job, read, d, b);
    } else if b == job.source {
      SourcePair(w, job, read, Reciprocal(d), a);
    } else if (a == signed && d == job.direction && b == job.target)
              || (b == signed && Reciprocal(d) == job.direction && a == job.target) {
      SignedPair(w, job, read);
    } else {
      Elsewhere(w, job, read, a, d, b);
    }
  }

  lemma SameBundles(w: World, job: Job, read: Bundle)
    requires !Refused(w, job)
    ensures Applied(w, job, read).Keys == w.Keys
  {
  }

  lemma LateKeeps(w: World, job: Job, read: Bundle)
    requires Rooted(job) && Mutual(w) && !Refused(w, job) && job.source != job.target && Fits(w, job, read)
    ensures Mutual(Applied(w, job, read))
  {
    var after := Applied(w, job, read);
    SameBundles(w, job, read);
    forall a, d, b | a in after && b in after
      ensures Both(after, a, d, b)
    {
      assert a in w.Keys && b in w.Keys;
      LateOne(w, job, read, a, d, b);
    }
  }

  lemma LateFits(w: World, job: Job, read: Bundle)
    requires Rooted(job) && Mutual(w) && !Refused(w, job) && job.source != job.target && Mutual(Applied(w, job, read))
    ensures Fits(w, job, read)
  {
    var s, after, signed := job.source, Applied(w, job, read), Signed(job, read);
    SameBundles(w, job, read);
    assert s in after.Keys;
    if job.target in w.Keys {
      assert job.target in after.Keys;
      assert Both(after, s, job.direction, job.target);
      OwnPair(w, job, read);
      if signed != s && signed in w.Keys {
        assert signed in after.Keys;
        assert Both(after, signed, job.direction, job.target);
        SignedPair(w, job, read);
      }
    }
    if Writes(job, read) {
      forall d, b | b in w && !(d == job.direction && b == job.target) ensures AgreesOn(w, job, read, d, b) {
        assert b in after.Keys;
        assert Both(after, s, d, b);
        OtherPair(w, job, read, d, b);
      }
    }
  }

  /** Applied with what was read of its source at any earlier time, a verb between different bundles keeps
      links mutual exactly when that reading still fits. */
  lemma LateKeepsMutualIff(w: World, job: Job, read: Bundle)
    requires Rooted(job) && Mutual(w) && !Refused(w, job) && job.source != job.target
    ensures Mutual(Applied(w, job, read)) <==> Fits(w, job, read)
  {
    if Fits(w, job, read) { LateKeeps(w, job, read); }
    if Mutual(Applied(w, job, read)) { LateFits(w, job, read); }
  }

  // ---- nothing in between ----

  /** A verb writes its source exactly when that does not hold its link as the verb wants it. */
  lemma Changes(job: Job, b: Bundle)
    requires Rooted(job)
    ensures Writes(job, b) <==> (Holds(b, job.source.repo, job.direction, job.target) != job.verb.Add?)
  {
    SourceEditHolds(job, b, job.direction, job.target);
    if !job.verb.Add? && !Holds(b, job.source.repo, job.direction, job.target) {
      WithoutNone(Entries(b, job.direction), job.source.repo, job.target);
    }
  }

  lemma {:induction false} WithoutNone(es: seq<Entry>, own: string, target: Id)
    requires !Among(es, own, target)
    ensures Without(es, own, target) == es
  {
    if es != [] {
      assert Named(es[0], own) != target;
      forall i | 0 <= i < |es[1..]| ensures Named(es[1..][i], own) != target {
        assert es[1..][i] == es[i + 1];
      }
      WithoutNone(es[1..], own, target);
    }
  }

  lemma UnchangedAgrees(w: World, job: Job)
    requires Mutual(w) && job.source in w
    ensures Agrees(w, job, w[job.source])
  {
    var read := w[job.source];
    forall d, b | b in w && !(d == job.direction && b == job.target) ensures AgreesOn(w, job, read, d, b) {
      assert Both(w, job.source, d, job.source);
    }
  }

  /** What is still as it was read fits, if the verb signs with the source's own name or has nothing to do. */
  lemma UnchangedFits(w: World, job: Job)
    requires Rooted(job) && Mutual(w) && !Refused(w, job)
    ensures Fits(w, job, w[job.source]) <==>
              (job.target in w && Signed(job, w[job.source]) != job.source ==>
                 && Settled(w, job, job.source)
                 && (Signed(job, w[job.source]) in w ==> Settled(w, job, Signed(job, w[job.source]))))
  {
    Changes(job, w[job.source]);
    UnchangedAgrees(w, job);
  }

  /** Between different bundles whose source is in the directory of its slug, adding or removing a
      reference keeps links mutual. */
  lemma DoKeepsMutual(w: World, job: Job)
    requires Rooted(job) && Mutual(w) && job.source != job.target
    requires job.source in w ==> w[job.source].slug == job.source.dir
    ensures Mutual(Do(w, job))
  {
    if !Refused(w, job) {
      UnchangedFits(w, job);
      LateKeeps(w, job, w[job.source]);
    }
  }

  // ---- a reference to itself ----

  /** The source is written last, from what was read before the target was written: of a reference to
      itself only the source's half comes about. */
  lemma SelfLinks(w: World, job: Job, d: Direction)
    requires Rooted(job) && !Refused(w, job) && job.source == job.target && Writes(job, w[job.source])
    ensures Linked(Do(w, job), job.source, d, job.source) <==>
              if d == job.direction then job.verb.Add? else Linked(w, job.source, d, job.source)
  {
    SourceEditHolds(job, w[job.source], d, job.source);
  }

  lemma SelfBreaks(w: World, job: Job)
    requires Rooted(job) && Mutual(w) && !Refused(w, job) && job.source == job.target && Writes(job, w[job.source])
    ensures !Mutual(Do(w, job))
  {
    var a, after := job.source, Do(w, job);
    assert Both(w, a, job.direction, a);
    SelfLinks(w, job, job.direction);
    SelfLinks(w, job, Reciprocal(job.direction));
    Changes(job, w[a]);
    assert a in after && !Both(after, a, job.direction, a);
  }

  /** If the source is left alone, only the entry that the slug signs may come or go. */
  lemma SelfSigned(w: World, job: Job, x: Id, d: Direction, y: Id)
    requires Rooted(job) && !Refused(w, job) && job.source == job.target && !Writes(job, w[job.source]) && x in w
    ensures x in Do(w, job)
    ensures Linked(Do(w, job), x, d, y) <==>
              if x == job.source && d == Reciprocal(job.direction) && y == Signed(job, w[x]) then job.verb.Add?
              else Linked(w, x, d, y)
  {
    TargetEditHolds(job, w[job.source], w[job.source], d, y);
  }

  /** The two sides of a link after that. */
  lemma SelfPair(w: World, job: Job, x: Id, d: Direction, y: Id)
    requires Rooted(job) && Mutual(w) && !Refused(w, job) && job.source == job.target && !Writes(job, w[job.source])
    requires x in w && y in w
    ensures var signed, after := Signed(job, w[job.source]), Do(w, job);
            Both(after, x, d, y) <==>
              ((|| (x == signed && d == job.direction && y == job.source)
                || (y == signed && Reciprocal(d) == job.direction && x == job.source)) ==> Settled(w, job, signed))
  {
    Changes(job, w[job.source]);
    SelfSigned(w, job, x, d, y);
    SelfSigned(w, job, y, Reciprocal(d), x);
    assert Both(w, x, d, y);
  }

  lemma SelfKeepsIff(w: World, job: Job)
    requires Rooted(job) && Mutual(w) && !Refused(w, job) && job.source == job.target && !Writes(job, w[job.source])
    ensures Mutual(Do(w, job)) <==> (Signed(job, w[job.source]) in w ==> Settled(w, job, Signed(job, w[job.source])))
  {
    var signed, after := Signed(job, w[job.source]), Do(w, job);
    assert after.Keys == w.Keys;
    if signed in w.Keys && Mutual(after) {
      assert signed in after.Keys && job.source in after.Keys;
      assert Both(after, signed, job.direction, job.source);
      SelfPair(w, job, signed, job.direction, job.source);
    }
    if signed in w ==> Settled(w, job, signed) {
      forall x, d, y | x in after && y in after ensures Both(after, x, d, y) {
        assert x in w.Keys && y in w.Keys;
        SelfPair(w, job, x, d, y);
      }
    }
  }

  /** When a verb that reads its source now keeps links mutual: unless it is about a reference of a
      bundle to itself, or its source's slug is not the name of its directory. Then it must find its link
      as it wants it; and in the latter case also the one of the bundle which that slug names, if any. */
  predicate Keeps(w: World, job: Job)
    requires job.source in w
  {
    var signed := Signed(job, w[job.source]);
    job.target in w ==>
      && (job.source == job.target || signed != job.source ==> Settled(w, job, job.source))
      && (signed != job.source && signed in w ==> Settled(w, job, signed))
  }

  lemma KeepsMutualIff(w: World, job: Job)
    requires Rooted(job) && Mutual(w) && !Refused(w, job)
    ensures Mutual(Do(w, job)) <==> Keeps(w, job)
  {
    Changes(job, w[job.source]);
    if job.source != job.target {
      UnchangedFits(w, job);
      LateKeepsMutualIff(w, job, w[job.source]);
    } else if Writes(job, w[job.source]) {
      SelfBreaks(w, job);
    } else {
      SelfKeepsIff(w, job);
      assert Both(w, job.source, job.direction, job.source);
    }
  }

  /** A bundle in the directory foo with the slug bar, linked forward to baz: the link is on its side only. */
  lemma MisnamedSource(repo: string)
    requires repo != ""
    ensures var foo, baz := Id(repo, "foo"), Id(repo, "baz");
            var w := map[foo := Bundle("bar", [], [], None), baz := Bundle("baz", [], [], None)];
            var job := Job(Add(None), foo, Forward, baz);
            && Mutual(w) && !Refused(w, job)
            && Linked(Do(w, job), foo, Forward, baz) && !Linked(Do(w, job), baz, Back, foo)
            && Linked(Do(w, job), baz, Back, Id(repo, "bar")) && !Mutual(Do(w, job))
  {
    var foo, baz := Id(repo, "foo"), Id(repo, "baz");
    var w := map[foo := Bundle("bar", [], [], None), baz := Bundle("baz", [], [], None)];
    var job := Job(Add(None), foo, Forward, baz);
    assert "bar" != "foo" by { assert "bar"[0] != "foo"[0]; }
    assert "baz" != "foo" by { assert "baz"[0] != "foo"[0]; }
    assert Mutual(w);
    KeepsMutualIff(w, job);
    Changes(job, w[foo]);
    AppliedLinks(w, job, w[foo], foo, Forward, baz);
    AppliedLinks(w, job, w[foo], baz, Back, foo);
    AppliedLinks(w, job, w[foo], baz, Back, Id(repo, "bar"));
  }
}
