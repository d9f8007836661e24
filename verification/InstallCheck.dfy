/** The read-only check of an installation, and what it makes of an install. */
module InstallCheck {
  import opened Options
  import opened Frontmatter
  import opened Register
  import opened RegisterProofs
  import opened Releases
  import opened Install
  import opened InstallHost

  /** The last component of a path. */
  function Basename(path: string): string {
    if '/' !in path then path else Basename(path[1..])
  }

  /** What follows the last slash, or the whole path if there is none. */
  lemma {:induction false} BasenameIff(path: string, name: string)
    ensures Basename(path) == name <==> '/' !in name && (path == name || exists d :: path == d + "/" + name)
    decreases |path|
  {
    if '/' in path {
      var rest := path[1..];
      BasenameIff(rest, name);
      assert path == [path[0]] + rest;
      if '/' !in name && rest == name {
        assert path == "" + "/" + name;
      } else if d :| '/' !in name && rest == d + "/" + name {
        assert path == ([path[0]] + d) + "/" + name;
      }
      if d :| path == d + "/" + name {
        if d == "" {
          assert rest == name;
        } else {
          assert rest == d[1..] + "/" + name;
        }
      }
    } else {
      forall d ensures path != d + "/" + name { assert '/' in d + "/" + name; }
    }
  }

  function Base(r: Real): string {
    match r
    case Inside(n) => n
    case Beyond(x) => Basename(x)
  }

  /** The release and the skill a skill link leads to. */
  function SkillReal(d: Disk, to: SkillTarget): Option<(Real, string)> {
    match to
    case ViaCurrent(skill) =>
      if RealNode(d.store, d.current).Some? then Some((RealNode(d.store, d.current).value, skill)) else None
    case ViaPath(base, skill) =>
      if RealPath(d.store, base).Some? then Some((RealPath(d.store, base).value, skill)) else None
    case Astray(_) => None
  }

  function SkillFile(name: string): string { "skills/" + name + "/SKILL.md" }

  predicate SkillFine(d: Disk, r: Real, name: string)
    requires Exists(d.store, r)
  {
    && name in d.skills && d.skills[name].SkillLink?
    && SkillReal(d, d.skills[name].to) == Some((r, name))
    && SkillFile(name) in Content(d.store, r).paths
  }

  // ---- the check itself ----

  datatype Problem =
    | CurrentMissing | CurrentNotLink | MetaMissing | ShaDisagrees
    | SkillMissing(name: string) | SkillNotLink(name: string) | SkillAstray(name: string) | NoEntrypoint(name: string)
    | AgentsDrifted

  /** The release that current leads to. */
  function CurrentReal(d: Disk): Option<Real> { RealNode(d.store, d.current) }

  lemma CurrentExists(d: Disk)
    ensures CurrentReal(d).Some? ==> Exists(d.store, CurrentReal(d).value)
  {
    if d.current.Symlink? { ResolveExists(d.store, d.current.to, {}); }
  }

  function LiveTree(d: Disk): Tree
    requires CurrentReal(d).Some?
  {
    CurrentExists(d);
    Content(d.store, CurrentReal(d).value)
  }

  /** The check cannot go on: the snapshot is incomplete, or registering its agents is not possible. */
  predicate Stops(d: Disk, pinned: bool) {
    CurrentReal(d).Some? &&
    var tree := LiveTree(d); !Complete(tree) || !CanCompare(tree, pinned)
  }

  predicate CanCompare(tree: Tree, pinned: bool) {
    !pinned && tree.names != [] && AllGood(tree.names, tree.agents, NONE_SKIPPED)
  }

  /** What is wrong with one skill path, given where current leads. */
  predicate SkillWrong(d: Disk, r: Real, name: string, p: Problem) {
    if name !in d.skills then p == SkillMissing(name)
    else if d.skills[name].SkillSolid? then p == SkillNotLink(name)
    else
      match SkillReal(d, d.skills[name].to)
      case None => p == SkillMissing(name)
      case Some((q, skill)) =>
        || (p == SkillAstray(name) && !(q == r && skill == name))
        || (p == NoEntrypoint(name) && !(Exists(d.store, q) && SkillFile(skill) in Content(d.store, q).paths))
  }

  /** What is wrong with the disk, the release apart. */
  predicate RootWrong(d: Disk, p: Problem) {
    || (p == CurrentNotLink && d.current.Solid?)
    || (p == CurrentMissing && !d.current.Solid? && CurrentReal(d).None?)
    || (p == MetaMissing && d.meta.None?)
    || (p == ShaDisagrees && CurrentReal(d).Some? && d.meta.Some? && Base(CurrentReal(d).value) != d.meta.value.sha)
  }

  /** What is wrong with the release that current leads to. */
  predicate ReleaseWrong(d: Disk, pinned: bool, p: Problem)
    requires CurrentReal(d).Some?
  {
    var tree := LiveTree(d);
    || (exists i :: 0 <= i < |SKILLS| && SkillWrong(d, CurrentReal(d).value, SKILLS[i], p))
    || (p == AgentsDrifted && CanCompare(tree, pinned) && Drift(d.agents, tree.names, tree.agents, NONE_SKIPPED) > 0)
  }

  predicate Wrong(d: Disk, pinned: bool, p: Problem) {
    RootWrong(d, p) || (CurrentReal(d).Some? && ReleaseWrong(d, pinned, p))
  }

  method CheckCurrent(d: Disk) returns (problems: seq<Problem>)
    ensures forall p :: p in problems <==> RootWrong(d, p)
  {
    problems := [];
    var release: Option<Real> := None;
    match d.current {
      case Absent => problems := problems + [CurrentMissing];
      case Solid => problems := problems + [CurrentNotLink];
      case Symlink(to) =>
        release := RealPath(d.store, to);
        if release.None? { problems := problems + [CurrentMissing]; }
    }
    if d.meta.None? {
      problems := problems + [MetaMissing];
    } else if release.Some? && Base(release.value) != d.meta.value.sha {
      problems := problems + [ShaDisagrees];
    }
  }

  method CheckSkill(d: Disk, r: Real, name: string) returns (problems: seq<Problem>)
    ensures forall p :: p in problems <==> SkillWrong(d, r, name, p)
  {
    if name !in d.skills { return [SkillMissing(name)]; }
    if d.skills[name].SkillSolid? { return [SkillNotLink(name)]; }
    var resolved := SkillReal(d, d.skills[name].to);
    if resolved.None? { return [SkillMissing(name)]; }
    problems := [];
    var (q, skill) := resolved.value;
    if !(q == r && skill == name) { problems := problems + [SkillAstray(name)]; }
    if !(Exists(d.store, q) && SkillFile(skill) in Content(d.store, q).paths) {
      problems := problems + [NoEntrypoint(name)];
    }
  }

  /** Current, its metadata, the skill links and the agents are looked at in turn, and what is wrong is
      collected; an incomplete snapshot and agents that cannot be registered end the check at once. */
  method Check(d: Disk, pinned: bool) returns (stopped: bool, problems: seq<Problem>)
    requires CurrentReal(d).Some? ==> Proper(LiveTree(d))
    ensures stopped == Stops(d, pinned)
    ensures !stopped ==> forall p :: p in problems <==> Wrong(d, pinned, p)
  {
    problems := CheckCurrent(d);
    stopped := false;
    if CurrentReal(d).Some? {
      var r, tree := CurrentReal(d).value, LiveTree(d);
      if !Complete(tree) { return true, problems; }
      ghost var first := problems;
      var i := 0;
      while i < |SKILLS|
        invariant 0 <= i <= |SKILLS|
        invariant forall p :: p in problems <==> p in first || exists j :: 0 <= j < i && SkillWrong(d, r, SKILLS[j], p)
      {
        var more := CheckSkill(d, r, SKILLS[i]);
        problems := problems + more;
        i := i + 1;
      }
      var dir := new AgentDir(d.agents);
      AllGoodIsFirst(tree.names, tree.agents, NONE_SKIPPED);
      var report := dir.Check(tree.names, tree.agents, NONE_SKIPPED, pinned);
      if report.Failed? { return true, problems; }
      if report.report.drift > 0 { problems := problems + [AgentsDrifted]; }
    }
  }

  // ---- when it passes ----

  /** The read-only check finds no problem. */
  predicate CheckOk(d: Disk, pinned: bool) {
    RealNode(d.store, d.current).Some? &&
    var r := RealNode(d.store, d.current).value;
    ResolveExists(d.store, d.current.to, {});
    var tree := Content(d.store, r);
    && d.meta.Some? && Base(r) == d.meta.value.sha
    && Complete(tree)
    && SkillFine(d, r, SKILLS[0]) && SkillFine(d, r, SKILLS[1])
    && !pinned && tree.names != [] && AllGood(tree.names, tree.agents, NONE_SKIPPED)
    && Drift(d.agents, tree.names, tree.agents, NONE_SKIPPED) == 0
  }

  /** It passes if and only if it is not stopped and nothing is wrong. */
  lemma PassesIffNothingWrong(d: Disk, pinned: bool)
    ensures CheckOk(d, pinned) <==> !Stops(d, pinned) && forall p :: !Wrong(d, pinned, p)
  {
    if CheckOk(d, pinned) {
      forall p ensures !Wrong(d, pinned, p) { NothingWrong(d, pinned, p); }
    } else {
      assert RootWrong(d, CurrentNotLink) <==> d.current.Solid?;
      assert RootWrong(d, MetaMissing) <==> d.meta.None?;
      if CurrentReal(d).Some? && !Stops(d, pinned) { SomethingWrong(d, pinned); }
      if CurrentReal(d).None? && !d.current.Solid? { assert Wrong(d, pinned, CurrentMissing); }
      if d.current.Solid? { assert Wrong(d, pinned, CurrentNotLink); }
    }
  }

  lemma NothingWrong(d: Disk, pinned: bool, p: Problem)
    requires CheckOk(d, pinned)
    ensures !Wrong(d, pinned, p)
  {
    SkillNames();
    CurrentExists(d);
    forall i | 0 <= i < |SKILLS| ensures !SkillWrong(d, CurrentReal(d).value, SKILLS[i], p) {
      assert i == 0 || i == 1;
    }
  }

  lemma SomethingWrong(d: Disk, pinned: bool)
    requires !CheckOk(d, pinned) && CurrentReal(d).Some? && !Stops(d, pinned)
    ensures exists p :: Wrong(d, pinned, p)
  {
    var r := CurrentReal(d).value;
    SkillNames();
    CurrentExists(d);
    if d.meta.None? {
      assert Wrong(d, pinned, MetaMissing);
    } else if Base(r) != d.meta.value.sha {
      assert Wrong(d, pinned, ShaDisagrees);
    } else if !SkillFine(d, r, SKILLS[0]) {
      SkillWrongAt(d, pinned, r, 0);
    } else if !SkillFine(d, r, SKILLS[1]) {
      SkillWrongAt(d, pinned, r, 1);
    } else {
      assert Wrong(d, pinned, AgentsDrifted);
    }
  }

  lemma SkillWrongAt(d: Disk, pinned: bool, r: Real, i: nat)
    requires CurrentReal(d) == Some(r) && Exists(d.store, r) && i < |SKILLS| && !SkillFine(d, r, SKILLS[i])
    ensures exists p :: Wrong(d, pinned, p)
  {
    var name := SKILLS[i];
    var p :=
      if name !in d.skills || (d.skills[name].SkillLink? && SkillReal(d, d.skills[name].to).None?)
        then SkillMissing(name)
      else if d.skills[name].SkillSolid? then SkillNotLink(name)
      else if SkillReal(d, d.skills[name].to) != Some((r, name)) then SkillAstray(name)
      else NoEntrypoint(name);
    assert SkillWrong(d, r, SKILLS[i], p);
    assert ReleaseWrong(d, pinned, p);
    assert Wrong(d, pinned, p);
  }

  /** A skill path is a link that leads to the release's own skill, which has its entry point. */
  predicate SkillInOrder(d: Disk, r: Real, paths: set<string>, name: string) {
    && name in d.skills
    && match d.skills[name]
       case SkillSolid => false
       case SkillLink(ViaCurrent(skill)) => skill == name && "skills/" + name + "/SKILL.md" in paths
       case SkillLink(ViaPath(base, skill)) =>
         RealPath(d.store, base) == Some(r) && skill == name && "skills/" + name + "/SKILL.md" in paths
       case SkillLink(Astray(_)) => false
  }

  /** All that the check is to look at: current leads to a release, named as the metadata says and complete;
      both skill paths lead into it; and registering its agents is possible, would change no file, and finds
      no bare agent file it does not know. */
  ghost predicate InOrder(d: Disk, pinned: bool, r: Real, tree: Tree)
    requires Proper(tree)
  {
    && d.current.Symlink? && RealPath(d.store, d.current.to) == Some(r)
    && Exists(d.store, r) && Content(d.store, r) == tree
    && d.meta.Some? && Base(r) == d.meta.value.sha
    && {"commands/masterplan.md", "bin/masterplan.mjs", "bin/doctor.mjs", "bin/register-pi-agents.mjs",
        "lib/bundle.mjs", "agents", "skills/masterplan/SKILL.md", "skills/masterplan-detect/SKILL.md",
        "package.json"} <= tree.paths
    && SkillInOrder(d, r, tree.paths, "masterplan") && SkillInOrder(d, r, tree.paths, "masterplan-detect")
    && !pinned && tree.names != []
    && (forall i :: 0 <= i < |tree.names| ==> StripModel(tree.agents[tree.names[i]]).Some?)
    && Registered(d.agents, tree.names, tree.agents, NONE_SKIPPED).files == d.agents.files
    && (forall n :: n in d.agents.files && IsBare(n) && n !in tree.names ==> n in d.agents.managed)
  }

  /** On every disk, the check passes if and only if all this is so. */
  lemma PassesExactly(d: Disk, pinned: bool)
    requires CurrentReal(d).Some? ==> Proper(LiveTree(d))
    ensures CheckOk(d, pinned) <==> exists r, tree :: Proper(tree) && InOrder(d, pinned, r, tree)
  {
    if CurrentReal(d).Some? { PassesAt(d, pinned, CurrentReal(d).value, LiveTree(d)); }
    if r, tree :| Proper(tree) && InOrder(d, pinned, r, tree) {
      assert CurrentReal(d) == Some(r) && LiveTree(d) == tree;
    }
  }

  lemma SkillsIn(d: Disk, r: Real, tree: Tree)
    requires CurrentReal(d) == Some(r) && Exists(d.store, r) && Content(d.store, r) == tree
    ensures SkillFine(d, r, SKILLS[0]) <==> SkillInOrder(d, r, tree.paths, "masterplan")
    ensures SkillFine(d, r, SKILLS[1]) <==> SkillInOrder(d, r, tree.paths, "masterplan-detect")
  {
    SkillIn(d, r, tree, SKILLS[0]);
    SkillIn(d, r, tree, SKILLS[1]);
  }

  lemma SkillIn(d: Disk, r: Real, tree: Tree, name: string)
    requires CurrentReal(d) == Some(r) && Exists(d.store, r) && Content(d.store, r) == tree
    ensures SkillFine(d, r, name) <==> SkillInOrder(d, r, tree.paths, name)
  {
  }

  lemma GoodAll(tree: Tree)
    requires Proper(tree)
    ensures AllGood(tree.names, tree.agents, NONE_SKIPPED) <==>
              forall i :: 0 <= i < |tree.names| ==> StripModel(tree.agents[tree.names[i]]).Some?
  {
  }

  lemma NoneUnexpected(dir: Target, names: seq<string>)
    requires AllBare(names)
    ensures Unexpected(dir, names) == {} <==>
              forall n :: n in dir.files && IsBare(n) && n !in names ==> n in dir.managed
  {
    forall n | n in dir.files && IsBare(n) ensures n in Accounted(names) <==> n in names {
      BareUnaccounted(names, n);
    }
    if n :| n in dir.files && IsBare(n) && n !in names && n !in dir.managed {
      assert n in Unexpected(dir, names);
    } else {
      assert forall n :: n !in Unexpected(dir, names);
      assert Unexpected(dir, names) == {};
    }
  }

  lemma PassesAt(d: Disk, pinned: bool, r: Real, tree: Tree)
    requires CurrentReal(d) == Some(r) && LiveTree(d) == tree && Proper(tree)
    ensures CheckOk(d, pinned) <==> InOrder(d, pinned, r, tree)
  {
    CurrentExists(d);
    SkillsIn(d, r, tree);
    GoodAll(tree);
    if AllGood(tree.names, tree.agents, NONE_SKIPPED) {
      NoDriftMeansInSync(d.agents, tree.names, tree.agents, NONE_SKIPPED);
    }
    NoneUnexpected(d.agents, tree.names);
  }

  lemma SkillFiles(tree: Tree)
    requires Complete(tree)
    ensures SkillFile(SKILLS[0]) in tree.paths && SkillFile(SKILLS[1]) in tree.paths
  {
    assert SkillFile(SKILLS[0]) == "skills/masterplan/SKILL.md";
    assert SkillFile(SKILLS[1]) == "skills/masterplan-detect/SKILL.md";
    assert SkillFile(SKILLS[0]) in REQUIRED && SkillFile(SKILLS[1]) in REQUIRED;
  }

  /** The parts of the check that a finished install passes anyway. */
  lemma LinksPass(d0: Disk, g: Goal, d: Disk, r: Real)
    requires Ready(d0, g) && Finished(d0, g, d) && Live(d.store, d.current)
    requires RealPath(d.store, Release(g)) == Some(r)
    ensures Exists(d.store, r) && SkillFine(d, r, SKILLS[0]) && SkillFine(d, r, SKILLS[1])
    ensures Content(d.store, r) == Source(d0.store, g).value && Complete(Content(d.store, r))
  {
    SkillNames();
    ResolveExists(d.store, Release(g), {});
    SkillFiles(Content(d.store, r));
  }

  lemma DriftPasses(d0: Disk, g: Goal, d: Disk)
    requires Ready(d0, g) && Finished(d0, g, d)
    ensures var tree := Source(d0.store, g).value;
            Drift(d.agents, tree.names, tree.agents, NONE_SKIPPED) == 0 <==> Unexpected(d0.agents, tree.names) == {}
  {
    var tree := Source(d0.store, g).value;
    DriftAfterWrite(d0.agents, tree.names, tree.agents, NONE_SKIPPED);
    EmptySize(Unexpected(d0.agents, tree.names));
  }

  /** The release was not there yet, or leads to a directory of its own name. */
  predicate OwnName(d0: Disk, g: Goal) {
    RealPath(d0.store, Release(g)).Some? ==> Base(RealPath(d0.store, Release(g)).value) == g.sha
  }

  lemma OwnNameStays(d0: Disk, g: Goal, d: Disk)
    requires Ready(d0, g) && Finished(d0, g, d) && Live(d.store, d.current)
    ensures OwnName(d0, g) <==> Base(RealPath(d.store, Release(g)).value) == g.sha
  {
    assert Leads(d0.store, g, d.store, Release(g));
  }

  /** A finished install whose metadata names the commit passes the check exactly when, before it, the
      release was not there or led to a directory of its own name, and the agent directory held no bare
      agent file that no manifest listed and no agent accounts for. */
  lemma CheckAfterInstall(d0: Disk, g: Goal, d: Disk)
    requires Ready(d0, g) && Finished(d0, g, d) && Live(d.store, d.current)
    requires d.meta.Some? && d.meta.value.sha == g.sha
    ensures CheckOk(d, g.pinned)
       <==> && OwnName(d0, g)
            && Unexpected(d0.agents, Source(d0.store, g).value.names) == {}
  {
    LinksPass(d0, g, d, RealPath(d.store, Release(g)).value);
    OwnNameStays(d0, g, d);
    DriftPasses(d0, g, d);
  }

  lemma EmptySize(s: set<string>)
    ensures |s| == 0 <==> s == {}
  {
  }

  /** An uninterrupted first install of a commit, and what the check then says. */
  method InstallThenCheck(d0: Disk, g: Goal) returns (d: Disk)
    requires Ready(d0, g) && d0.current != LinkTo(g)
    ensures Finished(d0, g, d) && Live(d.store, d.current)
    ensures CheckOk(d, g.pinned)
       <==> && OwnName(d0, g)
            && Unexpected(d0.agents, Source(d0.store, g).value.names) == {}
  {
    var h := new Host(d0, g);
    var o := h.Run();
    d := h.disk;
    CheckAfterInstall(d0, g, d);
  }
}
