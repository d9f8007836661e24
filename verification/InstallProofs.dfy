/** Installing again after a crash. */
module InstallProofs {
  import opened Options
  import opened Frontmatter
  import opened Register
  import opened RegisterProofs
  import opened Releases
  import opened Install
  import opened RegisterSteps
  import opened InstallHost

  // ---- when an install goes through ----

  /** No pins are retired, every agent of the snapshot has frontmatter, no file or directory that may not be
      replaced is in the way, and the release is there and whole, or current already, or can be put there. */
  ghost predicate GoesThrough(d: Disk, g: Goal, tree: Tree)
    requires Proper(tree)
  {
    && !g.pinned && tree.names != [] && (forall n :: n in tree.names ==> StripModel(tree.agents[n]).Some?)
    && (g.force || forall name :: name in SKILLS && name in d.skills ==> d.skills[name].SkillLink?)
    && if d.current == Symlink(InReleases(g.sha)) then Sight(d.store, InReleases(g.sha)) == Some(tree)
       else
         && Complete(tree) && (g.force || !d.current.Solid?)
         && (Sight(d.store, InReleases(g.sha)).None? ==> g.sha !in d.store.releases)
  }

  /** Exactly then, on every disk. */
  lemma ReadyIff(d: Disk, g: Goal)
    ensures Ready(d, g) <==> exists tree :: Offers(d.store, g, tree) && Proper(tree) && GoesThrough(d, g, tree)
  {
    if Ready(d, g) { ReadyAt(d, g, Source(d.store, g).value); }
    if tree :| Offers(d.store, g, tree) && Proper(tree) && GoesThrough(d, g, tree) { ReadyAt(d, g, tree); }
  }

  lemma ReadyAt(d: Disk, g: Goal, tree: Tree)
    requires Offers(d.store, g, tree) && Proper(tree)
    ensures Ready(d, g) <==> GoesThrough(d, g, tree)
  {
    LinkableIff(d.skills, g);
    RegisterableIff(g, tree);
  }

  lemma LinkableIff(k: map<string, Skill>, g: Goal)
    ensures CanLink(k, g) <==> g.force || forall name :: name in SKILLS && name in k ==> k[name].SkillLink?
  {
    SkillNames();
    assert forall name :: name in SKILLS ==> name == SKILLS[0] || name == SKILLS[1];
  }

  lemma RegisterableIff(g: Goal, tree: Tree)
    requires Proper(tree)
    ensures CanRegister(g, tree) <==>
              !g.pinned && tree.names != [] && forall n :: n in tree.names ==> StripModel(tree.agents[n]).Some?
  {
    if n :| n in tree.names && StripModel(tree.agents[n]).None? {
      var i :| 0 <= i < |tree.names| && tree.names[i] == n;
      assert Bad(tree.names[i], tree.agents, NONE_SKIPPED);
    }
    if forall n :: n in tree.names ==> StripModel(tree.agents[n]).Some? {
      forall i | 0 <= i < |tree.names| ensures !Bad(tree.names[i], tree.agents, NONE_SKIPPED) {
        assert tree.names[i] in tree.names;
      }
    }
  }

  // ---- again after a crash ----

  lemma SourceStays(d0: Disk, g: Goal, d: Disk)
    requires Reached(d0, g, d) && (Source(d0.store, g).Some? || d.store == d0.store)
    ensures Source(d.store, g) == Source(d0.store, g)
  {
  }

  lemma LinksStay(k0: map<string, Skill>, g: Goal, k: map<string, Skill>)
    requires Linked(k0, g, k)
    ensures AllLinked(k) == AllLinked(k0)
    ensures CanLink(k0, g) ==> CanLink(k, g)
  {
    SkillNames();
    forall name ensures SkillAt(AllLinked(k), name) == SkillAt(AllLinked(k0), name) {
      assert name in SKILLS ==> name == SKILLS[0] || name == SKILLS[1];
    }
    SkillsEqual(AllLinked(k), AllLinked(k0));
  }

  lemma SkillsEqual(a: map<string, Skill>, b: map<string, Skill>)
    requires forall name :: SkillAt(a, name) == SkillAt(b, name)
    ensures a == b
  {
    forall n ensures n in a <==> n in b { assert SkillAt(a, n) == SkillAt(b, n); }
    forall n | n in a ensures a[n] == b[n] { assert SkillAt(a, n) == SkillAt(b, n); }
  }

  lemma ObtainAgain(d0: Disk, g: Goal, d: Disk)
    requires Ready(d0, g) && Stored(d0.store, d0.current, g, d.store, d.current)
    ensures d.current == LinkTo(g) ==> Sight(d.store, Release(g)).Some?
    ensures d.current != LinkTo(g) ==> CanObtain(d.store, g) && (g.force || !d.current.Solid?)
  {
    if d.current != LinkTo(g) && Sight(d.store, Release(g)).None? && g.sha in d.store.releases {
      if g.sha !in d0.store.releases {
        InsideLeadsToItself(d.store, g.sha);
      }
    }
  }

  /** From every crash point of an install that can succeed, the same install can succeed, and leads to
      the same current link, skill links and agents. */
  lemma ReadyAgain(d0: Disk, g: Goal, d: Disk)
    requires Ready(d0, g) && Reached(d0, g, d)
    ensures Ready(d, g)
    ensures forall e :: Finished(d, g, e) ==> Finished(d0, g, e)
  {
    var tree := Source(d0.store, g).value;
    SourceStays(d0, g, d);
    LinksStay(d0.skills, g, d.skills);
    ObtainAgain(d0, g, d);
    RegisterAgain(d0.agents, d.agents, tree);
  }

  /** Installing again from any disk a crash may have left. */
  method Resume(d0: Disk, g: Goal, crashed: Disk) returns (d: Disk, o: Outcome)
    requires Ready(d0, g) && Reached(d0, g, crashed)
    ensures !o.Died? && Finished(d0, g, d)
    ensures o.Idempotent? <==> crashed.current == LinkTo(g)
    ensures o.Idempotent? ==> d.meta == crashed.meta
  {
    ReadyAgain(d0, g, crashed);
    var h := new Host(crashed, g);
    o := h.Run();
    d := h.disk;
  }

  /** Once the current link is switched, no number of further installs of the same commit writes the
      metadata: what a crash before it was written left behind stays. */
  method Repeat(crashed: Disk, g: Goal, times: nat) returns (d: Disk)
    requires crashed.current == LinkTo(g)
    requires Source(crashed.store, g).Some? ==> Proper(Source(crashed.store, g).value)
    ensures d.current == LinkTo(g) && d.meta == crashed.meta
  {
    d := crashed;
    var i := 0;
    while i < times
      invariant d.current == LinkTo(g) && d.meta == crashed.meta
      invariant Source(d.store, g) == Source(crashed.store, g)
    {
      var h := new Host(d, g);
      var o := h.Run();
      SourceStays(d, g, h.disk);
      d := h.disk;
      i := i + 1;
    }
  }
}
