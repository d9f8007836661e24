/** The installer itself, as steps on a host that records every disk it goes through. */
module InstallHost {
  import opened Options
  import opened Frontmatter
  import opened Register
  import opened RegisterProofs
  import opened Releases
  import opened Install
  import opened RegisterSteps

  /** The store without some entries, none of which leads to r. */
  function Without(s: Store, gone: set<string>): Store { s.(releases := s.releases - gone) }

  lemma WithoutKeeps(s: Store, gone: set<string>, r: Real)
    requires forall n :: n in gone ==> RealPath(s, InReleases(n)) != Some(r)
    ensures KeepsWayTo(s, Without(s, gone), r)
  {
  }

  /** What an entry that is still there leads to does not depend on the entries already removed. */
  lemma ProtectedStays(s: Store, gone: set<string>, n: string, r: Real)
    requires forall m :: m in gone ==> RealPath(s, InReleases(m)) != Some(r)
    ensures RealPath(Without(s, gone), InReleases(n)) == Some(r) <==> RealPath(s, InReleases(n)) == Some(r)
  {
    WithoutKeeps(s, gone, r);
    if RealPath(s, InReleases(n)) == Some(r) {
      WayKept(s, Without(s, gone), InReleases(n), {}, r);
    } else if RealPath(Without(s, gone), InReleases(n)) == Some(r) {
      FewerWays(s, Without(s, gone), InReleases(n), {});
    }
  }

  lemma WithoutStep(s: Store, gone: set<string>, n: string)
    ensures Without(Without(s, gone), {n}) == Without(s, gone + {n})
  {
    assert s.releases - gone - {n} == s.releases - (gone + {n});
  }

  function Min(a: nat, b: nat): nat { if a < b then a else b }

  /** The newest n entries. */
  ghost predicate Newest(s: Store, kept: seq<string>, n: nat) {
    && |kept| == Min(n, |s.releases|)
    && (forall i, j :: 0 <= i < j < |kept| ==> kept[i] != kept[j])
    && (forall k :: k in kept ==> k in s.releases)
    && forall k, m :: k in kept && m in s.releases && m !in kept ==> s.releases[k].mtime >= s.releases[m].mtime
  }

  lemma EnumeratesSize(order: seq<string>, names: set<string>)
    requires Enumerates(order, names)
    ensures |order| == |names|
    decreases |order|
  {
    if order == [] {
      assert names == {};
    } else {
      var n := order[0];
      assert Enumerates(order[1..], names - {n}) by {
        forall m ensures m in order[1..] <==> m in names - {n} {
          if m in order[1..] { assert m in order; }
          if m in names - {n} { assert m in order; }
        }
      }
      EnumeratesSize(order[1..], names - {n});
    }
  }

  lemma PrefixNewest(s: Store, order: seq<string>, n: nat)
    requires ByAge(s, order) && Enumerates(order, s.releases.Keys)
    ensures Newest(s, order[..Min(n, |order|)], n)
  {
    EnumeratesSize(order, s.releases.Keys);
    var kept := order[..Min(n, |order|)];
    forall k, m | k in kept && m in s.releases && m !in kept ensures s.releases[k].mtime >= s.releases[m].mtime {
      var i :| 0 <= i < |kept| && kept[i] == k;
      assert m in order;
      var j :| 0 <= j < |order| && order[j] == m;
    }
    forall k | k in kept ensures k in s.releases { assert k in order; }
  }

  // ---- registration, step by step ----

  /** The agent directory after the first i agents. */
  function Partly(a: Target, tree: Tree, i: nat): Target
    requires Proper(tree) && i <= FirstBad(tree.names, tree.agents, NONE_SKIPPED)
  {
    Target(true, ProcessAll(a.files, tree.names[..i], tree.agents, NONE_SKIPPED), a.managed)
  }

  lemma PartlyStep(a: Target, tree: Tree, i: nat, body: string)
    requires Proper(tree) && i < FirstBad(tree.names, tree.agents, NONE_SKIPPED)
    requires StripModel(tree.agents[tree.names[i]]) == Some(body)
    ensures Partly(a, tree, i + 1)
         == Partly(a, tree, i).(files := Partly(a, tree, i).files[tree.names[i] := body] - {Colon(tree.names[i])})
  {
    ProcessAllStep(a.files, tree.names, i, tree.agents, NONE_SKIPPED);
  }

  lemma AgentRead(a: Target, tree: Tree, i: nat)
    requires Proper(tree) && i < FirstBad(tree.names, tree.agents, NONE_SKIPPED)
    ensures Read(Registered(a, tree.names, tree.agents, NONE_SKIPPED).files, tree.names[i])
         == StripModel(tree.agents[tree.names[i]])
  {
    assert tree.names[..i + 1][i] == tree.names[i];
    FinalRead(a, tree, i + 1, tree.names[i]);
  }

  /** The two steps of one agent: write its file, then remove its colon name. */
  lemma OneAgent(a: Target, final: Target, tree: Tree, i: nat, body: string)
    requires Proper(tree) && i < FirstBad(tree.names, tree.agents, NONE_SKIPPED)
    requires final == Registered(a, tree.names, tree.agents, NONE_SKIPPED)
    requires StripModel(tree.agents[tree.names[i]]) == Some(body)
    ensures var name, x := tree.names[i], Partly(a, tree, i);
            && Between(a, final, x.(files := x.files[name := body]))
            && Between(a, final, Partly(a, tree, i + 1))
  {
    AgentRead(a, tree, i);
    PrefixBetween(a, tree, i);
    WrittenBetween(a, final, Partly(a, tree, i), tree.names[i], body);
    PrefixBetween(a, tree, i + 1);
  }

  lemma FirstPartly(a: Target, tree: Tree)
    requires Proper(tree)
    ensures Partly(a, tree, 0) == a.(present := true)
    ensures Between(a, Registered(a, tree.names, tree.agents, NONE_SKIPPED), Partly(a, tree, 0))
  {
    PrefixBetween(a, tree, 0);
  }

  lemma SweepOne(a: Target, tree: Tree, gone: set<string>)
    requires Proper(tree) && FirstBad(tree.names, tree.agents, NONE_SKIPPED) == |tree.names|
    requires gone <= a.managed - Produced(tree.names, NONE_SKIPPED)
    ensures Between(a, Registered(a, tree.names, tree.agents, NONE_SKIPPED),
                    Partly(a, tree, |tree.names|).(files := Partly(a, tree, |tree.names|).files - gone))
  {
    AllGoodIsFirst(tree.names, tree.agents, NONE_SKIPPED);
    PrefixBetween(a, tree, |tree.names|);
    forall n | n in gone ensures Read(Registered(a, tree.names, tree.agents, NONE_SKIPPED).files, n) == None {
      RegisteredRead(a, tree.names, tree.agents, NONE_SKIPPED, n);
    }
    SweepBetween(a, Registered(a, tree.names, tree.agents, NONE_SKIPPED), Partly(a, tree, |tree.names|), gone);
  }

  lemma SweepEnds(a: Target, tree: Tree)
    requires Proper(tree) && FirstBad(tree.names, tree.agents, NONE_SKIPPED) == |tree.names|
    ensures var owned, x := Produced(tree.names, NONE_SKIPPED), Partly(a, tree, |tree.names|);
            && Registered(a, tree.names, tree.agents, NONE_SKIPPED)
                 == Target(true, x.files - (a.managed - owned), owned)
            && Between(a, Registered(a, tree.names, tree.agents, NONE_SKIPPED),
                 Registered(a, tree.names, tree.agents, NONE_SKIPPED))
  {
    assert tree.names[..|tree.names|] == tree.names;
  }

  /** Registration is not refused. */
  predicate CanRegister(g: Goal, tree: Tree)
    requires Proper(tree)
  {
    !g.pinned && tree.names != [] && AllGood(tree.names, tree.agents, NONE_SKIPPED)
  }

  // ---- links and staging ----

  lemma SkillNames()
    ensures |SKILLS| == 2 && SKILLS[0] in SKILLS && SKILLS[1] in SKILLS && SKILLS[0] != SKILLS[1]
  {
    assert |SKILLS[0]| != |SKILLS[1]|;
  }

  predicate CanLink(k: map<string, Skill>, g: Goal) {
    g.force || (SkillAt(k, SKILLS[0]) != Some(SkillSolid) && SkillAt(k, SKILLS[1]) != Some(SkillSolid))
  }

  /** Both skill paths link to the current release. */
  function AllLinked(k: map<string, Skill>): map<string, Skill> {
    k[SKILLS[0] := SkillLink(ViaCurrent(SKILLS[0]))][SKILLS[1] := SkillLink(ViaCurrent(SKILLS[1]))]
  }

  lemma LinkedSteps(k0: map<string, Skill>, g: Goal, k: map<string, Skill>, name: string)
    requires Linked(k0, g, k) && name in SKILLS
    ensures Linked(k0, g, k[name := SkillLink(ViaCurrent(name))])
    ensures Linked(k0, g, k - {name})
    ensures (k - {name})[name := SkillLink(ViaCurrent(name))] == k[name := SkillLink(ViaCurrent(name))]
  {
  }

  predicate CanStage(s: Store, g: Goal) { g.archive.Some? && Complete(g.archive.value) && g.sha !in s.releases }

  /** The staging directory has become the release. */
  function Renamed(s: Store, g: Goal, mtime: int): Store
    requires g.archive.Some?
  {
    s.(releases := s.releases[g.sha := Dir(g.archive.value, mtime)])
  }

  lemma RenameStored(s: Store, c: Node, g: Goal, mtime: int)
    requires CanStage(s, g)
    ensures Stored(s, c, g, Renamed(s, g, mtime), c)
    ensures Sight(Renamed(s, g, mtime), Release(g)) == g.archive
  {
    RenameLeads(s, g, mtime, Release(g));
    if c.Symlink? { RenameLeads(s, g, mtime, c.to); }
    InsideLeadsToItself(Renamed(s, g, mtime), g.sha);
  }

  // ---- retention ----

  function HalfRemoved(s: Store, n: string, half: Tree): Store
    requires n in s.releases
  {
    s.(releases := s.releases[n := Dir(half, s.releases[n].mtime)])
  }

  lemma HalfThenGone(s: Store, n: string, half: Tree)
    requires n in s.releases
    ensures Without(HalfRemoved(s, n, half), {n}) == Without(s, {n})
  {
    assert HalfRemoved(s, n, half).releases - {n} == s.releases - {n};
  }

  lemma HalfStored(s0: Store, c0: Node, g: Goal, s: Store, n: string, half: Tree, r: Real)
    requires Stored(s0, c0, g, s, LinkTo(g)) && n in s.releases && RealPath(s, Release(g)) == Some(r)
    requires RealPath(s, InReleases(n)) != Some(r)
    ensures Stored(s0, c0, g, HalfRemoved(s, n, half), LinkTo(g))
  {
    NewIsReached(s0, c0, g, s, n, r);
    PruneStored(s0, c0, g, s, HalfRemoved(s, n, half), r);
  }

  lemma GoneStored(s0: Store, c0: Node, g: Goal, s: Store, n: string, r: Real)
    requires Stored(s0, c0, g, s, LinkTo(g)) && n in s.releases && RealPath(s, Release(g)) == Some(r)
    requires RealPath(s, InReleases(n)) != Some(r)
    ensures Stored(s0, c0, g, Without(s, {n}), LinkTo(g))
  {
    WithoutKeeps(s, {n}, r);
    PruneStored(s0, c0, g, s, Without(s, {n}), r);
  }

  /** An entry added by this install is the release itself. */
  lemma NewIsReached(s0: Store, c0: Node, g: Goal, s: Store, n: string, r: Real)
    requires Stored(s0, c0, g, s, LinkTo(g)) && n in s.releases && RealPath(s, Release(g)) == Some(r)
    requires RealPath(s, InReleases(n)) != Some(r)
    ensures n in s0.releases
  {
  }

  /** The entries of a list that lead elsewhere than to r. */
  ghost predicate IsGone(s: Store, names: seq<string>, r: Real, gone: set<string>) {
    forall n :: n in gone <==> n in names && RealPath(s, InReleases(n)) != Some(r)
  }

  /** Exactly the kept entries and the protected ones are left, each as it was. */
  ghost predicate Retained(s: Store, current: Node, kept: seq<string>, t: Store) {
    && t.outside == s.outside
    && (forall n :: n in t.releases <==> n in s.releases && (n in kept || Protected(s, current, n)))
    && forall n :: n in t.releases ==> t.releases[n] == s.releases[n]
  }

  lemma WithoutNone(s: Store)
    ensures Without(s, {}) == s
  {
    assert s.releases - {} == s.releases;
  }

  lemma PruneStep(s: Store, order: seq<string>, k: nat, i: nat, gone: set<string>, r: Real)
    requires Enumerates(order, s.releases.Keys) && k <= i < |order|
    requires IsGone(s, order[k..i], r, gone)
    ensures order[i] in Without(s, gone).releases
    ensures RealPath(Without(s, gone), InReleases(order[i])) == Some(r) <==>
              RealPath(s, InReleases(order[i])) == Some(r)
    ensures IsGone(s, order[k..i + 1], r,
                   if RealPath(s, InReleases(order[i])) == Some(r) then gone else gone + {order[i]})
  {
    ProtectedStays(s, gone, order[i], r);
    assert order[i] in order;
    assert order[k..i + 1] == order[k..i] + [order[i]];
  }

  lemma Remaining(s: Store, order: seq<string>, k: nat, gone: set<string>, r: Real)
    requires Enumerates(order, s.releases.Keys) && k <= |order| && IsGone(s, order[k..], r, gone)
    ensures forall current :: RealNode(s, current) == Some(r) ==> Retained(s, current, order[..k], Without(s, gone))
  {
    forall n | n in s.releases ensures n in order[..k] <==> n !in order[k..] {
      assert n in order;
      assert order[..k] + order[k..] == order;
    }
  }

  // ---- success ----

  predicate CanObtain(s: Store, g: Goal) {
    if Sight(s, Release(g)).Some? then Complete(Sight(s, Release(g)).value) else CanStage(s, g)
  }

  /** Nothing stops an install from this disk. */
  predicate Ready(d: Disk, g: Goal) {
    var source := Source(d.store, g);
    && source.Some? && Proper(source.value) && CanRegister(g, source.value)
    && CanLink(d.skills, g)
    && if d.current == LinkTo(g) then Sight(d.store, Release(g)).Some?
       else CanObtain(d.store, g) && (g.force || !d.current.Solid?)
  }

  /** Nothing stops an install that has its release. */
  predicate CanProceed(d: Disk, g: Goal) {
    var source := Source(d.store, g);
    && source.Some? && Proper(source.value) && CanRegister(g, source.value)
    && CanLink(d.skills, g) && (g.force || !d.current.Solid?)
  }

  lemma NewIsReady(d: Disk, g: Goal)
    requires d.current != LinkTo(g) && (Source(d.store, g).Some? ==> Proper(Source(d.store, g).value))
    ensures Ready(d, g) <==> CanObtain(d.store, g) && CanProceed(d, g)
  {
  }

  /** The current link, the release it leads to, the skill links and the agents are as the install of g
      from d0 leaves them. */
  predicate Finished(d0: Disk, g: Goal, d: Disk) {
    && d.current == LinkTo(g) && Sight(d.store, Release(g)) == Source(d0.store, g)
    && Leads(d0.store, g, d.store, Release(g))
    && d.skills == AllLinked(d0.skills)
    && d.agents == FinalAgents(d0.store, d0.agents, g)
  }

  /** At no crash point has a current path that led to a complete release stopped doing so, and none
      leads to an incomplete one unless it did before. */
  ghost predicate NeverBroken(d0: Disk, trail: seq<Disk>) {
    forall i :: 0 <= i < |trail| ==>
      && (Live(d0.store, d0.current) ==> Live(trail[i].store, trail[i].current))
      && (Unharmed(d0.store, d0.current) ==> Unharmed(trail[i].store, trail[i].current))
  }

  lemma Whole(d0: Disk, g: Goal, trail: seq<Disk>)
    requires forall i :: 0 <= i < |trail| ==> Reached(d0, g, trail[i])
    ensures NeverBroken(d0, trail)
  {
    forall i | 0 <= i < |trail|
      ensures (Live(d0.store, d0.current) ==> Live(trail[i].store, trail[i].current))
      ensures (Unharmed(d0.store, d0.current) ==> Unharmed(trail[i].store, trail[i].current))
    {
      ReachedIsSafe(d0, g, trail[i]);
    }
  }

  class Host {
    var disk: Disk
    ghost const start: Disk
    const goal: Goal
    ghost var trail: seq<Disk>

    constructor (d: Disk, g: Goal)
      ensures disk == d && start == d && goal == g && trail == [d] && Valid()
    {
      disk, start, goal, trail := d, d, g, [d];
      new;
      Reflexive(d, g);
    }

    /** Every disk of this install so far is a crash point it can be resumed from. */
    ghost predicate Valid()
      reads this
    {
      && |trail| > 0 && trail[|trail| - 1] == disk
      && forall i :: 0 <= i < |trail| ==> Reached(start, goal, trail[i])
    }

    /** At the crash point before this disk, current was switched already and the metadata still the old one. */
    ghost predicate PublishedFirst()
      reads this
    {
      |trail| >= 2 && trail[|trail| - 2].current == LinkTo(goal) && trail[|trail| - 2].meta == start.meta
    }

    /** One atomic step. */
    method Commit(d: Disk)
      requires Valid() && Reached(start, goal, d)
      modifies `disk, `trail
      ensures Valid() && disk == d && trail == old(trail) + [d]
    {
      disk, trail := d, trail + [d];
    }

    // ---- registration ----

    method SetAgents(a: Target)
      requires Valid() && Between(start.agents, FinalAgents(start.store, start.agents, goal), a)
      modifies `disk, `trail
      ensures Valid() && old(trail) <= trail && disk == old(disk).(agents := a)
    {
      Commit(disk.(agents := a));
    }

    method RegisterOne(tree: Tree, i: nat)
      requires Valid() && Proper(tree) && i < FirstBad(tree.names, tree.agents, NONE_SKIPPED)
      requires FinalAgents(start.store, start.agents, goal)
                 == Registered(start.agents, tree.names, tree.agents, NONE_SKIPPED)
      requires disk.agents == Partly(start.agents, tree, i)
      modifies `disk, `trail
      ensures Valid() && old(trail) <= trail && disk == old(disk).(agents := disk.agents)
      ensures disk.agents == Partly(start.agents, tree, i + 1)
    {
      var name := tree.names[i];
      var body := StripModel(tree.agents[name]).value;
      OneAgent(start.agents, FinalAgents(start.store, start.agents, goal), tree, i, body);
      PartlyStep(start.agents, tree, i, body);
      SetAgents(disk.agents.(files := disk.agents.files[name := body]));
      SetAgents(disk.agents.(files := disk.agents.files - {Colon(name)}));
    }

    /** Names owned before and not produced now are removed, and then the manifest is written. */
    method SweepAgents(tree: Tree)
      requires Valid() && Proper(tree) && FirstBad(tree.names, tree.agents, NONE_SKIPPED) == |tree.names|
      requires FinalAgents(start.store, start.agents, goal)
                 == Registered(start.agents, tree.names, tree.agents, NONE_SKIPPED)
      requires disk.agents == Partly(start.agents, tree, |tree.names|)
      modifies `disk, `trail
      ensures Valid() && old(trail) <= trail
                && disk == old(disk).(agents := FinalAgents(start.store, start.agents, goal))
    {
      ghost var all, done: set<string> := disk.agents, {};
      var owned := Produced(tree.names, NONE_SKIPPED);
      var todo := disk.agents.managed - owned;
      assert all.files - done == all.files;
      while todo != {}
        invariant Valid() && old(trail) <= trail && disk == old(disk).(agents := all.(files := all.files - done))
        invariant done + todo == all.managed - owned
        decreases |todo|
      {
        var name :| name in todo;
        SweepOne(start.agents, tree, done + {name});
        Moved(done, todo, name);
        MinusStep(all.files, done, name);
        SetAgents(disk.agents.(files := disk.agents.files - {name}));
        todo, done := todo - {name}, done + {name};
      }
      assert done == all.managed - owned;
      SweepEnds(start.agents, tree);
      SetAgents(disk.agents.(managed := owned));
    }

    method RegisterEach(tree: Tree) returns (ok: bool)
      requires Valid() && Proper(tree) && disk.agents == Partly(start.agents, tree, 0)
      requires FinalAgents(start.store, start.agents, goal)
                 == Registered(start.agents, tree.names, tree.agents, NONE_SKIPPED)
      modifies `disk, `trail
      ensures Valid() && old(trail) <= trail && disk == old(disk).(agents := disk.agents)
      ensures ok == (FirstBad(tree.names, tree.agents, NONE_SKIPPED) == |tree.names|)
      ensures ok ==> disk.agents == Partly(start.agents, tree, |tree.names|)
    {
      var i := 0;
      ghost var k := FirstBad(tree.names, tree.agents, NONE_SKIPPED);
      while i < |tree.names|
        invariant 0 <= i <= k
        invariant Valid() && old(trail) <= trail && disk == old(disk).(agents := disk.agents)
        invariant disk.agents == Partly(start.agents, tree, i)
      {
        ok := RegisterIfGood(tree, i);
        if !ok { return false; }
        i := i + 1;
      }
      assert i == |tree.names|;
      ok := true;
    }

    method RegisterIfGood(tree: Tree, i: nat) returns (ok: bool)
      requires Valid() && Proper(tree) && i < |tree.names| && i <= FirstBad(tree.names, tree.agents, NONE_SKIPPED)
      requires FinalAgents(start.store, start.agents, goal)
                 == Registered(start.agents, tree.names, tree.agents, NONE_SKIPPED)
      requires disk.agents == Partly(start.agents, tree, i)
      modifies `disk, `trail
      ensures Valid() && old(trail) <= trail && disk == old(disk).(agents := disk.agents)
      ensures ok == (i < FirstBad(tree.names, tree.agents, NONE_SKIPPED))
      ensures ok ==> disk.agents == Partly(start.agents, tree, i + 1)
    {
      ok := !Bad(tree.names[i], tree.agents, NONE_SKIPPED);
      if ok {
        GoodIs(tree.names, tree.agents, NONE_SKIPPED, i);
        RegisterOne(tree, i);
      } else {
        BadIs(tree.names, tree.agents, NONE_SKIPPED, i);
      }
    }

    /** Registering the agents of the release: ok means every step was done. */
    method RegisterAgents(tree: Tree) returns (ok: bool)
      requires Valid() && Source(start.store, goal) == Some(tree) && Proper(tree) && disk.agents == start.agents
      modifies `disk, `trail
      ensures Valid() && old(trail) <= trail && disk == old(disk).(agents := disk.agents)
      ensures ok == CanRegister(goal, tree)
      ensures ok ==> disk.agents == FinalAgents(start.store, start.agents, goal)
    {
      if goal.pinned || tree.names == [] { return false; }
      AllGoodIsFirst(tree.names, tree.agents, NONE_SKIPPED);
      FirstPartly(start.agents, tree);
      SetAgents(disk.agents.(present := true));
      ok := RegisterEach(tree);
      if ok { SweepAgents(tree); }
    }

    // ---- skill links ----

    method SetSkills(k: map<string, Skill>)
      requires Valid() && Linked(start.skills, goal, k)
      modifies `disk, `trail
      ensures Valid() && old(trail) <= trail && disk == old(disk).(skills := k)
    {
      Commit(disk.(skills := k));
    }

    /** One skill link: made, repointed, or, with --force, put in place of a file or directory. */
    method EnsureSkillLink(name: string) returns (ok: bool)
      requires Valid() && name in SKILLS
      modifies `disk, `trail
      ensures Valid() && old(trail) <= trail
      ensures ok == (goal.force || SkillAt(old(disk).skills, name) != Some(SkillSolid))
      ensures disk == if ok then old(disk).(skills := old(disk).skills[name := SkillLink(ViaCurrent(name))])
                else old(disk)
    {
      ghost var before := disk.skills;
      LinkedSteps(start.skills, goal, before, name);
      if name !in disk.skills {
        SetSkills(disk.skills[name := SkillLink(ViaCurrent(name))]);
      } else if disk.skills[name] == SkillLink(ViaCurrent(name)) {
        assert before[name := SkillLink(ViaCurrent(name))] == before;
      } else if disk.skills[name].SkillLink? || goal.force {
        SetSkills(disk.skills - {name});
        SetSkills(disk.skills[name := SkillLink(ViaCurrent(name))]);
      } else {
        return false;
      }
      return true;
    }

    method EnsureSkillLinks() returns (ok: bool)
      requires Valid()
      modifies `disk, `trail
      ensures Valid() && old(trail) <= trail && disk == old(disk).(skills := disk.skills)
      ensures ok == CanLink(old(disk).skills, goal)
      ensures ok ==> disk.skills == AllLinked(old(disk).skills)
    {
      SkillNames();
      ok := EnsureSkillLink(SKILLS[0]);
      if ok { ok := EnsureSkillLink(SKILLS[1]); }
    }

    // ---- staging ----

    method SetStaging(staging: seq<Tree>)
      requires Valid()
      modifies `disk, `trail
      ensures Valid() && old(trail) <= trail && disk == old(disk).(staging := staging)
    {
      Commit(disk.(staging := staging));
    }

    /** Unpack into a fresh staging directory, validate it, and rename it to the release. A snapshot that
        fails validation stays in the staging directory; one that cannot be renamed is removed. */
    method Stage() returns (ok: bool)
      requires Valid() && disk.store == start.store && disk.current == start.current
      requires Sight(disk.store, Release(goal)).None?
      modifies `disk, `trail
      ensures Valid() && old(trail) <= trail
      ensures disk == old(disk).(store := disk.store, staging := disk.staging)
      ensures ok == CanStage(old(disk).store, goal)
      ensures !ok ==> disk.store == old(disk).store
      ensures ok ==> Sight(disk.store, Release(goal)) == goal.archive && disk.staging == old(disk).staging
    {
      var leaked := disk.staging;
      var i := 0;
      while i < |goal.partials|
        invariant 0 <= i <= |goal.partials|
        invariant Valid() && old(trail) <= trail && disk == old(disk).(staging := disk.staging)
      {
        SetStaging(leaked + [goal.partials[i]]);
        i := i + 1;
      }
      if goal.archive.None? { return false; }
      SetStaging(leaked + [goal.archive.value]);
      if !Complete(goal.archive.value) { return false; }
      if goal.sha in disk.store.releases {
        SetStaging(leaked);
        return false;
      }
      var mtime: int := *;
      RenameStored(start.store, start.current, goal, mtime);
      Commit(disk.(store := Renamed(disk.store, goal, mtime), staging := leaked));
      return true;
    }

    // ---- the current link ----

    /** The link is made under a temporary name and renamed over the current one. */
    method SwitchCurrent() returns (ok: bool)
      requires Valid() && disk.current == start.current
      requires Live(disk.store, LinkTo(goal))
      modifies `disk, `trail
      ensures Valid() && old(trail) <= trail
      ensures ok == (goal.force || !old(disk).current.Solid?)
      ensures disk == if ok then old(disk).(current := LinkTo(goal), tmp := Absent) else old(disk)
    {
      if disk.current.Solid? {
        if !goal.force { return false; }
        Commit(disk.(current := Absent));
      }
      Commit(disk.(tmp := Absent));
      Commit(disk.(tmp := LinkTo(goal)));
      Commit(disk.(current := disk.tmp, tmp := Absent));
      return true;
    }

    // ---- retention ----

    /** Removing one entry: a directory may be seen half removed in between. */
    method RemoveEntry(n: string, ghost r: Real)
      requires Valid() && n in disk.store.releases && disk.current == LinkTo(goal)
      requires RealPath(disk.store, Release(goal)) == Some(r) && RealPath(disk.store, InReleases(n)) != Some(r)
      modifies `disk, `trail
      ensures Valid() && old(trail) <= trail && disk == old(disk).(store := Without(old(disk).store, {n}))
    {
      ghost var before := disk.store;
      if disk.store.releases[n].Dir? {
        var half: Tree := *;
        HalfStored(start.store, start.current, goal, disk.store, n, half, r);
        HalfThenGone(before, n, half);
        Commit(disk.(store := HalfRemoved(disk.store, n, half)));
      }
      GoneStored(start.store, start.current, goal, before, n, r);
      Commit(disk.(store := Without(disk.store, {n})));
    }

    /** Every entry of the order from k on that leads elsewhere is removed. */
    method RemoveFrom(order: seq<string>, k: nat, ghost r: Real) returns (ghost gone: set<string>)
      requires Valid() && disk.current == LinkTo(goal) && RealPath(disk.store, Release(goal)) == Some(r)
      requires Enumerates(order, disk.store.releases.Keys) && k <= |order|
      modifies `disk, `trail
      ensures Valid() && old(trail) <= trail && disk == old(disk).(store := Without(old(disk).store, gone))
      ensures IsGone(old(disk).store, order[k..], r, gone)
    {
      ghost var s := disk.store;
      gone := {};
      WithoutNone(s);
      var i := k;
      while i < |order|
        invariant k <= i <= |order|
        invariant Valid() && old(trail) <= trail && disk == old(disk).(store := Without(s, gone))
        invariant IsGone(s, order[k..i], r, gone)
        invariant RealPath(disk.store, Release(goal)) == Some(r)
      {
        var n := order[i];
        PruneStep(s, order, k, i, gone, r);
        if RealPath(disk.store, InReleases(n)) != RealNode(disk.store, disk.current) {
          ProtectedStays(s, gone + {n}, goal.sha, r);
          WithoutStep(s, gone, n);
          RemoveEntry(n, r);
          gone := gone + {n};
        }
        i := i + 1;
      }
      assert order[k..i] == order[k..];
    }

    /** Exactly the newest entries and those leading to the current release stay. */
    method PruneReleases(ghost r: Real) returns (ghost kept: seq<string>)
      requires Valid() && disk.current == LinkTo(goal) && RealPath(disk.store, Release(goal)) == Some(r)
      modifies `disk, `trail
      ensures Valid() && old(trail) <= trail && disk == old(disk).(store := disk.store)
      ensures Newest(old(disk).store, kept, KEEP) && Retained(old(disk).store, old(disk).current, kept, disk.store)
      ensures RealPath(disk.store, Release(goal)) == Some(r)
      ensures Sight(disk.store, Release(goal)) == Sight(old(disk).store, Release(goal))
    {
      ghost var s := disk.store;
      var order := SortedReleases(disk.store);
      EnumeratesSize(order, s.releases.Keys);
      PrefixNewest(s, order, KEEP);
      kept := order[..Min(KEEP, |order|)];
      ghost var gone := RemoveFrom(order, Min(KEEP, |order|), r);
      Remaining(s, order, Min(KEEP, |order|), gone, r);
      WithoutKeeps(s, gone, r);
      SightKept(s, disk.store, Release(goal), r);
    }

    // ---- the whole install ----

    /** The commit is already the current release: links, agents and retention are brought up to date,
        the metadata is not. */
    method Refresh() returns (ok: bool)
      requires Valid() && disk == start && start.current == LinkTo(goal)
      requires Sight(start.store, Release(goal)).Some? ==> Proper(Sight(start.store, Release(goal)).value)
      modifies `disk, `trail
      ensures Valid() && old(trail) <= trail
      ensures ok == Ready(start, goal)
      ensures ok ==> Finished(start, goal, disk)
      ensures disk.meta == start.meta && disk.current == start.current
      ensures Sight(start.store, Release(goal)).None? ==> disk.store == start.store
    {
      ok := EnsureSkillLinks();
      if !ok { return false; }
      if Sight(disk.store, Release(goal)).None? { return false; }
      ok := RegisterAgents(Sight(disk.store, Release(goal)).value);
      if ok {
        ResolveExists(disk.store, Release(goal), {});
        ghost var kept := PruneReleases(RealPath(disk.store, Release(goal)).value);
      }
    }

    /** A release to validate, or a snapshot to stage. */
    method Obtain() returns (ok: bool)
      requires Valid() && disk == start
      modifies `disk, `trail
      ensures Valid() && old(trail) <= trail && disk == start.(store := disk.store, staging := disk.staging)
      ensures ok == CanObtain(start.store, goal)
      ensures ok ==> Sight(disk.store, Release(goal)) == Source(start.store, goal) && Live(disk.store, LinkTo(goal))
    {
      if Sight(disk.store, Release(goal)).Some? {
        ok := Complete(Sight(disk.store, Release(goal)).value);
      } else {
        ok := Stage();
      }
    }

    /** Everything after the release is there and registered. */
    method Publish() returns (ok: bool)
      requires Valid() && disk.current == start.current && disk.skills == start.skills && Live(disk.store, LinkTo(goal))
      modifies `disk, `trail
      ensures Valid() && old(trail) <= trail
      ensures disk.meta == old(disk).meta
      ensures ok == ((goal.force || !start.current.Solid?) && CanLink(start.skills, goal))
      ensures ok ==> disk.current == LinkTo(goal) && disk.skills == AllLinked(start.skills)
      ensures ok ==> disk.agents == old(disk).agents
      ensures ok ==> Live(disk.store, disk.current)
      ensures ok ==> Sight(disk.store, Release(goal)) == Sight(old(disk).store, Release(goal))
      ensures ok ==> Leads(start.store, goal, disk.store, Release(goal))
    {
      ok := SwitchCurrent();
      if !ok { return false; }
      ok := EnsureSkillLinks();
      if ok {
        ResolveExists(disk.store, Release(goal), {});
        ghost var kept := PruneReleases(RealPath(disk.store, Release(goal)).value);
      }
    }

    /** It succeeds exactly when nothing is in the way, and then current, links and agents are what they
        should be; the metadata is written unless the commit was the current release already. Dying stops
        at once, wherever that is: no cleanup runs. */
    method Run() returns (o: Outcome)
      requires Valid() && disk == start
      requires Source(start.store, goal).Some? ==> Proper(Source(start.store, goal).value)
      modifies `disk, `trail
      ensures Valid() && old(trail) <= trail
      ensures o.Died? <==> !Ready(start, goal)
      ensures !o.Died? ==> Finished(start, goal, disk)
      ensures o.Idempotent? <==> Ready(start, goal) && start.current == LinkTo(goal)
      ensures start.current == LinkTo(goal) ==> disk.current == start.current && disk.meta == start.meta
      ensures start.current == LinkTo(goal) && Sight(start.store, Release(goal)).None? ==> disk.store == start.store
      ensures o.Installed? ==> Live(disk.store, disk.current)
      ensures o.Installed? ==> disk.meta == Some(Meta(goal.sha, Sight(disk.store, Release(goal)).value.version))
      ensures o.Installed? ==> PublishedFirst()
      ensures NeverBroken(start, trail)
    {
      var ok;
      if disk.current == LinkTo(goal) {
        ok := Refresh();
        o := if ok then Idempotent else Died;
      } else {
        ok := InstallNew();
        o := if ok then Installed else Died;
      }
      Whole(start, goal, trail);
    }

    method InstallNew() returns (ok: bool)
      requires Valid() && disk == start && start.current != LinkTo(goal)
      requires Source(start.store, goal).Some? ==> Proper(Source(start.store, goal).value)
      modifies `disk, `trail
      ensures Valid() && old(trail) <= trail
      ensures ok == Ready(start, goal)
      ensures ok ==> Finished(start, goal, disk) && Live(disk.store, disk.current)
      ensures ok ==> disk.meta == Some(Meta(goal.sha, Sight(disk.store, Release(goal)).value.version))
      ensures ok ==> PublishedFirst()
    {
      NewIsReady(start, goal);
      ok := ObtainAndProceed();
    }

    method ObtainAndProceed() returns (ok: bool)
      requires Valid() && disk == start
      requires Source(start.store, goal).Some? ==> Proper(Source(start.store, goal).value)
      modifies `disk, `trail
      ensures Valid() && old(trail) <= trail
      ensures ok == (CanObtain(start.store, goal) && CanProceed(start, goal))
      ensures ok ==> Finished(start, goal, disk) && Live(disk.store, disk.current)
      ensures ok ==> disk.meta == Some(Meta(goal.sha, Sight(disk.store, Release(goal)).value.version))
      ensures ok ==> PublishedFirst()
    {
      ok := Obtain();
      if ok {
        ok := Proceed(Sight(disk.store, Release(goal)).value);
      }
    }

    /** Register, switch, link, prune, and write the metadata. */
    method Proceed(tree: Tree) returns (ok: bool)
      requires Valid() && Source(start.store, goal) == Some(tree) && Proper(tree)
      requires disk == start.(store := disk.store, staging := disk.staging)
      requires Sight(disk.store, Release(goal)) == Some(tree) && Live(disk.store, LinkTo(goal))
      modifies `disk, `trail
      ensures Valid() && old(trail) <= trail
      ensures ok == (CanRegister(goal, tree) && CanLink(start.skills, goal) && (goal.force || !start.current.Solid?))
      ensures ok ==> disk.current == LinkTo(goal) && disk.skills == AllLinked(start.skills)
      ensures ok ==> disk.agents == FinalAgents(start.store, start.agents, goal)
      ensures ok ==> Live(disk.store, disk.current) && Sight(disk.store, Release(goal)) == Some(tree)
      ensures ok ==> Leads(start.store, goal, disk.store, Release(goal))
      ensures ok ==> disk.meta == Some(Meta(goal.sha, tree.version))
      ensures ok ==> PublishedFirst()
    {
      ok := RegisterAgents(tree);
      if ok { ok := Announce(tree); }
    }

    method Announce(tree: Tree) returns (ok: bool)
      requires Valid() && disk.current == start.current && disk.skills == start.skills && disk.meta == start.meta
      requires Sight(disk.store, Release(goal)) == Some(tree) && Live(disk.store, LinkTo(goal))
      modifies `disk, `trail
      ensures Valid() && old(trail) <= trail
      ensures ok == ((goal.force || !start.current.Solid?) && CanLink(start.skills, goal))
      ensures ok ==> disk.current == LinkTo(goal) && disk.skills == AllLinked(start.skills)
      ensures ok ==> disk.agents == old(disk).agents
      ensures ok ==> Live(disk.store, disk.current) && Sight(disk.store, Release(goal)) == Some(tree)
      ensures ok ==> disk.meta == Some(Meta(goal.sha, tree.version))
      ensures ok ==> PublishedFirst()
      ensures ok ==> Leads(start.store, goal, disk.store, Release(goal))
    {
      ok := Publish();
      if ok { WriteMeta(); }
    }

    method WriteMeta()
      requires Valid() && Sight(disk.store, Release(goal)).Some?
      modifies `disk, `trail
      ensures Valid() && old(trail) <= trail
      ensures disk == old(disk).(meta := Some(Meta(goal.sha, Sight(old(disk).store, Release(goal)).value.version)))
      ensures |trail| >= 2 && trail[|trail| - 2] == old(disk)
    {
      Commit(disk.(meta := Some(Meta(goal.sha, Sight(disk.store, Release(goal)).value.version))));
    }
  }
}
