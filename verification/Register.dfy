/**
 Registering the agents for a pi host: the target directory converges to the stripped sources, and of
 the other files only those this tool owns are deleted.
 */
module Register {
  import opened Options
  import opened Frontmatter
  import opened Lines
  import Seqs

  type Files = map<string, string>

  /** The target directory: whether it exists, its files other than the manifest, and the names the
      manifest lists; a missing or corrupt manifest lists none. */
  datatype Target = Target(present: bool, files: Files, managed: set<string>)

  datatype Report = Report(drift: nat, written: nat, skipped: nat)

  datatype Failure = LanePinned | NoAgents | NoFrontmatter(name: string)

  datatype Result = Done(report: Report) | Failed(why: Failure)

  /** mp-, anything on one line, .md */
  predicate IsBare(name: string) {
    && |name| >= 6 && name[..3] == "mp-" && name[|name| - 3..] == ".md"
    && forall i :: 0 <= i < |name| ==> !IsTerminator(name[i])
  }

  function Colon(name: string): string { "masterplan:" + name }

  /** The agents of a snapshot, listed each once. */
  ghost predicate Listing(names: seq<string>, sources: Files) {
    && (forall i, j :: 0 <= i < j < |names| ==> names[i] != names[j])
    && (forall i :: 0 <= i < |names| ==> IsBare(names[i]) && names[i] in sources)
    && (forall n :: n in sources && IsBare(n) ==> n in names)
  }

  function Produced(names: seq<string>, skip: set<string>): set<string> {
    set n | n in names && n !in skip
  }

  function Colons(names: seq<string>): set<string> { set n | n in names :: Colon(n) }

  /** Names this run accounts for: every agent, produced or skipped, and its retired colon name. */
  function Accounted(names: seq<string>): set<string> { (set n | n in names) + Colons(names) }

  /** An agent that would have to be written but has no frontmatter. */
  predicate Bad(name: string, sources: Files, skip: set<string>)
    requires name in sources
  {
    name !in skip && StripModel(sources[name]).None?
  }

  predicate AllGood(names: seq<string>, sources: Files, skip: set<string>) {
    forall i :: 0 <= i < |names| ==> names[i] in sources && !Bad(names[i], sources, skip)
  }

  /** The directory after one agent. */
  function Process(files: Files, name: string, sources: Files, skip: set<string>): Files
    requires name in sources && !Bad(name, sources, skip)
  {
    if name in skip then files - {name, Colon(name)}
    else files[name := StripModel(sources[name]).value] - {Colon(name)}
  }

  /** The directory after all agents, each good. */
  function ProcessAll(files: Files, names: seq<string>, sources: Files, skip: set<string>): Files
    requires AllGood(names, sources, skip)
  {
    if names == [] then files
    else
      var n := |names| - 1;
      Process(ProcessAll(files, names[..n], sources, skip), names[n], sources, skip)
  }

  function FirstBad(names: seq<string>, sources: Files, skip: set<string>): (k: nat)
    requires forall i :: 0 <= i < |names| ==> names[i] in sources
    ensures k <= |names|
    ensures k < |names| ==> Bad(names[k], sources, skip)
    ensures forall i :: 0 <= i < k ==> !Bad(names[i], sources, skip)
  {
    if names == [] || Bad(names[0], sources, skip) then 0 else 1 + FirstBad(names[1..], sources, skip)
  }

  /** The whole effect on the directory in write mode. Managed names that are not produced are removed
      last; the manifest is written only when every agent was. */
  function Registered(dir: Target, names: seq<string>, sources: Files, skip: set<string>): Target
    requires forall i :: 0 <= i < |names| ==> names[i] in sources
  {
    var k := FirstBad(names, sources, skip);
    if k < |names| then Target(true, ProcessAll(dir.files, names[..k], sources, skip), dir.managed)
    else
      assert names[..k] == names;
      var owned := Produced(names, skip);
      Target(true, ProcessAll(dir.files, names, sources, skip) - (dir.managed - owned), owned)
  }

  // ---- the read-only check ----

  function B(b: bool): nat { if b then 1 else 0 }

  /** Drift found while going through the agents. */
  function AgentDrift(files: Files, name: string, sources: Files, skip: set<string>): nat
    requires name in sources && !Bad(name, sources, skip)
  {
    if name in skip then B(name in files) + B(Colon(name) in files)
    else B(!(name in files && files[name] == StripModel(sources[name]).value)) + B(Colon(name) in files)
  }

  function AgentsDrift(files: Files, names: seq<string>, sources: Files, skip: set<string>): nat
    requires AllGood(names, sources, skip)
  {
    if names == [] then 0
    else
      var n := |names| - 1;
      AgentsDrift(files, names[..n], sources, skip) + AgentDrift(files, names[n], sources, skip)
  }

  /** Bare agent files that no run accounts for and no manifest ever listed. */
  function Unexpected(dir: Target, names: seq<string>): set<string> {
    set n | n in dir.files && IsBare(n) && n !in Accounted(names) && n !in dir.managed
  }

  function Orphans(dir: Target, names: seq<string>, skip: set<string>): set<string> {
    set n | n in dir.managed && n !in Produced(names, skip) && n in dir.files
  }

  function Drift(dir: Target, names: seq<string>, sources: Files, skip: set<string>): nat
    requires AllGood(names, sources, skip)
  {
    AgentsDrift(dir.files, names, sources, skip) + |Unexpected(dir, names)| + |Orphans(dir, names, skip)|
  }

  /** How many of the agents are skipped. */
  function Skipped(names: seq<string>, skip: set<string>): (n: nat)
    ensures n <= |names|
  {
    if names == [] then 0 else Skipped(names[..|names| - 1], skip) + B(names[|names| - 1] in skip)
  }

  // ---- the script ----

  class AgentDir {
    var present: bool
    var files: Files
    var managed: set<string>

    constructor (dir: Target)
      ensures Contents() == dir
    {
      present, files, managed := dir.present, dir.files, dir.managed;
    }

    function Contents(): Target
      reads this
    {
      Target(present, files, managed)
    }

    method Unlink(name: string)
      modifies `files
      ensures files == old(files) - {name}
    {
      if name in files {
        files := files - {name};
      } else {
        assert files - {name} == files;
      }
    }

    method ProcessAgent(name: string, sources: Files, skip: set<string>)
      requires name in sources && !Bad(name, sources, skip)
      modifies `files
      ensures files == Process(old(files), name, sources, skip)
    {
      if name in skip {
        MinusStep(files, {name}, Colon(name));
        assert {name} + {Colon(name)} == {name, Colon(name)};
        Unlink(name);
      } else {
        files := files[name := StripModel(sources[name]).value];
      }
      Unlink(Colon(name));
    }

    /** Write mode: everything the directory holds afterwards, also when an agent without frontmatter
        stops the run half-way; no drift is ever counted. */
    method Write(names: seq<string>, sources: Files, skip: set<string>, pinned: bool) returns (r: Result)
      requires Listing(names, sources)
      modifies this
      ensures pinned || names == [] ==>
                r == Failed(if pinned then LanePinned else NoAgents) && Contents() == old(Contents())
      ensures !pinned && names != [] ==>
                && Contents() == Registered(old(Contents()), names, sources, skip)
                && var k := FirstBad(names, sources, skip);
                   if k < |names| then r == Failed(NoFrontmatter(names[k]))
                   else r == Done(Report(0, |names| - Skipped(names, skip), Skipped(names, skip)))
    {
      if pinned { return Failed(LanePinned); }
      if names == [] { return Failed(NoAgents); }
      present := true;
      var i, skipped := ProcessEach(names, sources, skip);
      if i < |names| { return Failed(NoFrontmatter(names[i])); }
      assert names[..i] == names;
      Sweep(Produced(names, skip));
      managed := Produced(names, skip);
      r := Done(Report(0, |names| - skipped, skipped));
    }

    /** The agents in turn, up to the first without frontmatter. */
    method ProcessEach(names: seq<string>, sources: Files, skip: set<string>) returns (i: nat, skipped: nat)
      requires forall j :: 0 <= j < |names| ==> names[j] in sources
      modifies `files
      ensures i == FirstBad(names, sources, skip) && skipped == Skipped(names[..i], skip)
      ensures AllGood(names[..i], sources, skip) && files == ProcessAll(old(files), names[..i], sources, skip)
    {
      i, skipped := 0, 0;
      ghost var before, k := files, FirstBad(names, sources, skip);
      while i < |names|
        invariant 0 <= i <= k && skipped == Skipped(names[..i], skip)
        invariant AllGood(names[..i], sources, skip)
        invariant files == ProcessAll(before, names[..i], sources, skip)
      {
        if Bad(names[i], sources, skip) {
          BadIs(names, sources, skip, i);
          return;
        }
        GoodIs(names, sources, skip, i);
        ProcessAllStep(before, names, i, sources, skip);
        ProcessAgent(names[i], sources, skip);
        SkippedStep(names, i, skip);
        if names[i] in skip { skipped := skipped + 1; }
        i := i + 1;
      }
    }

    /** Check mode: nothing is changed, and the drift is counted. */
    method Check(names: seq<string>, sources: Files, skip: set<string>, pinned: bool) returns (r: Result)
      requires Listing(names, sources)
      ensures pinned ==> r == Failed(LanePinned)
      ensures !pinned && names == [] ==> r == Failed(NoAgents)
      ensures !pinned && names != [] ==>
                var k := FirstBad(names, sources, skip);
                if k < |names| then r == Failed(NoFrontmatter(names[k]))
                else && AllGood(names, sources, skip) && r.Done?
                     && r.report == Report(Drift(Contents(), names, sources, skip), 0, Skipped(names, skip))
    {
      if pinned { return Failed(LanePinned); }
      if names == [] { return Failed(NoAgents); }
      var i, drift, skipped := DriftEach(names, sources, skip);
      if i < |names| { return Failed(NoFrontmatter(names[i])); }
      assert names[..i] == names;
      var unexpected := Count(files.Keys, Unexpected(Contents(), names));
      var orphans := Count(managed, Orphans(Contents(), names, skip));
      r := Done(Report(drift + unexpected + orphans, 0, skipped));
    }

    method DriftEach(names: seq<string>, sources: Files, skip: set<string>) returns (i: nat, drift: nat, skipped: nat)
      requires forall j :: 0 <= j < |names| ==> names[j] in sources
      ensures i == FirstBad(names, sources, skip) && skipped == Skipped(names[..i], skip)
      ensures AllGood(names[..i], sources, skip) && drift == AgentsDrift(files, names[..i], sources, skip)
    {
      i, drift, skipped := 0, 0, 0;
      ghost var k := FirstBad(names, sources, skip);
      while i < |names|
        invariant 0 <= i <= k && skipped == Skipped(names[..i], skip)
        invariant AllGood(names[..i], sources, skip)
        invariant drift == AgentsDrift(files, names[..i], sources, skip)
      {
        if Bad(names[i], sources, skip) {
          BadIs(names, sources, skip, i);
          return;
        }
        GoodIs(names, sources, skip, i);
        AgentsDriftStep(files, names, i, sources, skip);
        drift := drift + AgentDrift(files, names[i], sources, skip);
        SkippedStep(names, i, skip);
        if names[i] in skip { skipped := skipped + 1; }
        i := i + 1;
      }
    }

    /** Files owned on the previous run and not produced by this one are removed. */
    method Sweep(owned: set<string>)
      modifies `files
      ensures files == old(files) - (managed - owned)
    {
      var todo := managed - owned;
      ghost var before, done: set<string> := files, {};
      assert files == before - done;
      while todo != {}
        invariant done + todo == managed - owned
        invariant files == before - done
        decreases |todo|
      {
        var name :| name in todo;
        MinusStep(before, done, name);
        Moved(done, todo, name);
        Unlink(name);
        todo, done := todo - {name}, done + {name};
      }
      assert done == managed - owned;
    }
  }

  /** One look at each name. */
  method Count(names: set<string>, wanted: set<string>) returns (n: nat)
    requires wanted <= names
    ensures n == |wanted|
  {
    n := 0;
    var todo := names;
    ghost var found: set<string> := {};
    while todo != {}
      invariant found !! todo && found <= wanted && wanted <= found + todo
      invariant n == |found|
      decreases |todo|
    {
      var name :| name in todo;
      if name in wanted { n, found := n + 1, found + {name}; }
      todo := todo - {name};
    }
    assert found == wanted;
  }

  lemma SkippedStep(names: seq<string>, i: nat, skip: set<string>)
    requires i < |names|
    ensures Skipped(names[..i + 1], skip) == Skipped(names[..i], skip) + if names[i] in skip then 1 else 0
  {
    Seqs.Prefix(names, i);
  }

  lemma AgentsDriftStep(files: Files, names: seq<string>, i: nat, sources: Files, skip: set<string>)
    requires i < |names| && AllGood(names[..i], sources, skip)
    requires names[i] in sources && !Bad(names[i], sources, skip)
    ensures AllGood(names[..i + 1], sources, skip)
    ensures AgentsDrift(files, names[..i + 1], sources, skip)
         == AgentsDrift(files, names[..i], sources, skip) + AgentDrift(files, names[i], sources, skip)
  {
    Seqs.Prefix(names, i);
  }

  lemma Moved(done: set<string>, todo: set<string>, name: string)
    requires name in todo
    ensures (done + {name}) + (todo - {name}) == done + todo
    ensures |todo - {name}| < |todo|
  {
  }

  lemma MinusStep(m: Files, gone: set<string>, name: string)
    ensures m - gone - {name} == m - (gone + {name})
  {
  }

  lemma ProcessAllStep(files: Files, names: seq<string>, i: nat, sources: Files, skip: set<string>)
    requires i < |names| && AllGood(names[..i], sources, skip)
    requires names[i] in sources && !Bad(names[i], sources, skip)
    ensures AllGood(names[..i + 1], sources, skip)
    ensures ProcessAll(files, names[..i + 1], sources, skip)
         == Process(ProcessAll(files, names[..i], sources, skip), names[i], sources, skip)
  {
    Seqs.Prefix(names, i);
  }

  lemma {:induction false} BadIs(names: seq<string>, sources: Files, skip: set<string>, i: nat)
    requires forall j :: 0 <= j < |names| ==> names[j] in sources
    requires i <= FirstBad(names, sources, skip) && i < |names| && Bad(names[i], sources, skip)
    ensures FirstBad(names, sources, skip) == i
  {
    if i > 0 { BadIs(names[1..], sources, skip, i - 1); }
  }

  lemma GoodIs(names: seq<string>, sources: Files, skip: set<string>, i: nat)
    requires forall j :: 0 <= j < |names| ==> names[j] in sources
    requires i <= FirstBad(names, sources, skip) && i < |names| && !Bad(names[i], sources, skip)
    ensures i < FirstBad(names, sources, skip)
  {
  }
}
