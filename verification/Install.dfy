/**
 Installing a release: an ordered list of file system steps, with a crash possible after each. The host
 records every disk it goes through, and each of them is a place where a crash may leave it.
 */
module Install {
  import opened Options
  import opened Register
  import opened RegisterProofs
  import opened Releases

  datatype Meta = Meta(sha: string, version: string)

  datatype SkillTarget = ViaCurrent(skill: string) | ViaPath(base: Path, skill: string) | Astray(path: string)

  /** A skill's path under the pi root: a link, or a file or directory of its own. */
  datatype Skill = SkillLink(to: SkillTarget) | SkillSolid

  datatype Disk = Disk(
    store: Store, current: Node, tmp: Node, staging: seq<Tree>, meta: Option<Meta>, skills: map<string, Skill>,
      agents: Target)

  /** A commit to install: what archiving and unpacking it yields, if that works; the partly unpacked
      snapshots on the way; and whether files in the way may be replaced. */
  datatype Goal = Goal(sha: string, archive: Option<Tree>, partials: seq<Tree>, force: bool, pinned: bool)

  datatype Outcome = Idempotent | Installed | Died

  const KEEP: nat := 3
  const SKILLS: seq<string> := ["masterplan", "masterplan-detect"]
  const NONE_SKIPPED: set<string> := {}

  function Release(g: Goal): Path { InReleases(g.sha) }

  function LinkTo(g: Goal): Node { Symlink(Release(g)) }

  /** What a path leads to, with its content. */
  function Sight(s: Store, p: Path): Option<Tree> {
    ResolveExists(s, p, {});
    if RealPath(s, p).Some? then Some(Content(s, RealPath(s, p).value)) else None
  }

  /** The snapshot this install works from: the release if it is there, or else the archive. */
  function Source(s: Store, g: Goal): Option<Tree> {
    if Sight(s, Release(g)).Some? then Sight(s, Release(g)) else g.archive
  }

  // ---- what holds at every crash point ----

  /** The current path is a link to a complete release. */
  predicate Live(s: Store, current: Node) {
    current.Symlink? && Sight(s, current.to).Some? && Complete(Sight(s, current.to).value)
  }

  /** The current path leads nowhere or to a complete release. */
  predicate Unharmed(s: Store, current: Node) {
    !current.Solid? && (current.Symlink? && Sight(s, current.to).Some? ==> Complete(Sight(s, current.to).value))
  }

  /** A path leads where it led before; one that led nowhere may now lead to the new release. */
  predicate Leads(s0: Store, g: Goal, s: Store, p: Path) {
    if Sight(s0, p).Some? then Sight(s, p) == Sight(s0, p) && RealPath(s, p) == RealPath(s0, p)
    else Sight(s, p).Some? ==>
           Sight(s, p) == g.archive && Complete(g.archive.value) && RealPath(s, p) == Some(Inside(g.sha))
  }

  /** Releases are only added by renaming a complete snapshot, and the current path is only ever
      switched to a complete release. */
  predicate Stored(s0: Store, c0: Node, g: Goal, s: Store, c: Node) {
    && s.outside == s0.outside
    && (forall n :: n in s.releases && n !in s0.releases ==>
          n == g.sha && s.releases[n].Dir? && g.archive == Some(s.releases[n].tree) && Complete(s.releases[n].tree))
    && Leads(s0, g, s, Release(g))
    && (|| (c == c0 && (c0.Symlink? ==> Leads(s0, g, s, c0.to)))
        || (c == LinkTo(g) && Live(s, c))
        || (c == Absent && c0.Solid? && g.force))
  }

  /** Every name is as it was or as registering leaves it. */
  ghost predicate Between(a: Target, final: Target, x: Target) {
    && (forall n :: Read(x.files, n) == Read(a.files, n) || Read(x.files, n) == Read(final.files, n))
    && (x.managed == a.managed || x == final)
  }

  function FinalAgents(s0: Store, a: Target, g: Goal): Target
  {
    var source := Source(s0, g);
    if source.None? || !Proper(source.value) || g.pinned || source.value.names == [] then a
    else Registered(a, source.value.names, source.value.agents, NONE_SKIPPED)
  }

  predicate Proper(tree: Tree) {
    && (forall i :: 0 <= i < |tree.names| ==> IsBare(tree.names[i]) && tree.names[i] in tree.agents)
    && (forall i, j :: 0 <= i < j < |tree.names| ==> tree.names[i] != tree.names[j])
    && (forall n :: n in tree.agents && IsBare(n) ==> n in tree.names)
  }

  function SkillAt(skills: map<string, Skill>, name: string): Option<Skill> {
    if name in skills then Some(skills[name]) else None
  }

  /** Every skill path is as it was, linked to the current release, or, on the way, absent. */
  ghost predicate Linked(k0: map<string, Skill>, g: Goal, k: map<string, Skill>) {
    forall name ::
      || SkillAt(k, name) == SkillAt(k0, name)
      || (name in SKILLS && (SkillAt(k, name) == None || SkillAt(k, name) == Some(SkillLink(ViaCurrent(name)))))
  }

  ghost predicate Reached(d0: Disk, g: Goal, d: Disk) {
    && Stored(d0.store, d0.current, g, d.store, d.current)
    && Between(d0.agents, FinalAgents(d0.store, d0.agents, g), d.agents)
    && Linked(d0.skills, g, d.skills)
  }

  /** A live current path stays live at every crash point, and an unharmed one unharmed. */
  lemma ReachedIsSafe(d0: Disk, g: Goal, d: Disk)
    requires Reached(d0, g, d)
    ensures Live(d0.store, d0.current) ==> Live(d.store, d.current)
    ensures Unharmed(d0.store, d0.current) ==> Unharmed(d.store, d.current)
  {
  }

  /** What this install registers: the release that is there, or else what the archive would give. */
  ghost predicate Offers(s: Store, g: Goal, tree: Tree) {
    Sight(s, Release(g)) == Some(tree) || (Sight(s, Release(g)) == None && g.archive == Some(tree))
  }

  /** With retired pins, or with no agents to register, the agent directory is untouched at every crash point. */
  lemma AgentsUntouched(d0: Disk, g: Goal, d: Disk)
    requires Reached(d0, g, d) && (g.pinned || forall tree :: Offers(d0.store, g, tree) ==> tree.names == [])
    ensures d.agents.files == d0.agents.files && d.agents.managed == d0.agents.managed
  {
    var source := Source(d0.store, g);
    if source.Some? { assert Offers(d0.store, g, source.value); }
    forall n ensures Read(d.agents.files, n) == Read(d0.agents.files, n) {}
    ReadEqual(d.agents.files, d0.agents.files);
  }

  // ---- steps ----

  lemma Reflexive(d: Disk, g: Goal)
    ensures Reached(d, g, d)
  {
  }

  /** A new entry leaves every path that led somewhere as it was. */
  lemma {:induction false} AddedWay(s: Store, n: string, e: Entry, p: Path, seen: set<string>)
    requires n !in s.releases && e.Dir?
    ensures var t := s.(releases := s.releases[n := e]);
            if Resolve(s, p, seen).Some? then Resolve(t, p, seen) == Resolve(s, p, seen)
            else Resolve(t, p, seen).Some? ==> Resolve(t, p, seen) == Some(Inside(n))
    decreases s.releases.Keys - seen
  {
    if p.InReleases? && p.name in s.releases && p.name !in seen && s.releases[p.name].Link? {
      assert p.name in s.releases.Keys - seen;
      AddedWay(s, n, e, s.releases[p.name].to, seen + {p.name});
    }
  }

  lemma RenameLeads(s: Store, g: Goal, mtime: int, p: Path)
    requires g.sha !in s.releases && g.archive.Some? && Complete(g.archive.value)
    ensures Leads(s, g, s.(releases := s.releases[g.sha := Dir(g.archive.value, mtime)]), p)
  {
    var e := Dir(g.archive.value, mtime);
    AddedWay(s, g.sha, e, p, {});
    ResolveExists(s, p, {});
  }

  /** Keeping the way to what a path leads to keeps what it leads to. */
  lemma SightKept(s: Store, t: Store, p: Path, r: Real)
    requires RealPath(s, p) == Some(r) && KeepsWayTo(s, t, r)
    ensures Sight(t, p) == Sight(s, p) && Sight(s, p).Some? && RealPath(t, p) == Some(r)
  {
    ContentKept(s, t, p, r);
  }

  /** While the current path leads to the new release, retention may change any entry that leads elsewhere. */
  lemma PruneStored(s0: Store, c0: Node, g: Goal, s: Store, t: Store, r: Real)
    requires Stored(s0, c0, g, s, LinkTo(g)) && RealPath(s, Release(g)) == Some(r)
    requires KeepsWayTo(s, t, r) && t.releases.Keys <= s.releases.Keys
    requires forall n :: n in t.releases && n !in s0.releases ==> t.releases[n] == s.releases[n]
    ensures Stored(s0, c0, g, t, LinkTo(g))
  {
    SightKept(s, t, Release(g), r);
  }
}
