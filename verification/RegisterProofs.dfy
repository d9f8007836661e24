/** What registering does to every name in the directory. */
module RegisterProofs {
  import opened Options
  import opened Frontmatter
  import opened Lines
  import opened Register

  ghost predicate AllBare(names: seq<string>) { forall i :: 0 <= i < |names| ==> IsBare(names[i]) }

  /** The agents' file names: /^mp-.*\.md$/, where a dot matches no line terminator. */
  lemma IsBareIff(name: string)
    ensures IsBare(name) <==> exists m :: name == "mp-" + m + ".md" && forall c :: c in m ==> !IsTerminator(c)
  {
    if IsBare(name) {
      var m := name[3..|name| - 3];
      assert name == name[..3] + m + name[|name| - 3..];
      forall c | c in m ensures !IsTerminator(c) { var i :| 0 <= i < |m| && m[i] == c; assert name[i + 3] == c; }
    }
    if m :| name == "mp-" + m + ".md" && forall c :: c in m ==> !IsTerminator(c) {
      assert name[..3] == "mp-" && name[|name| - 3..] == ".md";
      forall i | 0 <= i < |name| ensures !IsTerminator(name[i]) {
        if 3 <= i < |name| - 3 { assert name[i] == m[i - 3]; }
      }
    }
  }

  /** A retired name has the plugin's prefix. */
  lemma ColonIs(name: string)
    ensures |Colon(name)| == 11 + |name| && Colon(name)[..11] == "masterplan:" && Colon(name)[11..] == name
  {
  }

  lemma ColonIsNotBare(name: string)
    ensures !IsBare(Colon(name))
  {
    assert Colon(name)[..3][1] == 'a';
  }

  /** The content of a name once all agents are processed. */
  function Fate(files: Files, names: seq<string>, sources: Files, skip: set<string>, n: string): Option<string>
    requires AllGood(names, sources, skip)
  {
    if n in names && n !in skip then Some(StripModel(sources[n]).value)
    else if n in Accounted(names) then None
    else Read(files, n)
  }

  function Read(files: Files, n: string): Option<string> { if n in files then Some(files[n]) else None }

  lemma ProcessRead(files: Files, name: string, sources: Files, skip: set<string>, n: string)
    requires name in sources && !Bad(name, sources, skip) && name != Colon(name)
    ensures Read(Process(files, name, sources, skip), n)
         == if n == name && name !in skip then Some(StripModel(sources[name]).value)
            else if n == name || n == Colon(name) then None
            else Read(files, n)
  {
  }

  lemma AccountedStep(names: seq<string>, n: string)
    requires names != []
    ensures var k := |names| - 1;
            && (n in names <==> n in names[..k] || n == names[k])
            && (n in Accounted(names) <==> n in Accounted(names[..k]) || n == names[k] || n == Colon(names[k]))
  {
    var k := |names| - 1;
    assert names == names[..k] + [names[k]];
  }

  lemma BareUnaccounted(names: seq<string>, n: string)
    requires AllBare(names)
    ensures IsBare(n) && n in Accounted(names) ==> n in names
    ensures n in names ==> IsBare(n)
  {
    forall m | m in names ensures !IsBare(Colon(m)) { ColonIsNotBare(m); }
  }

  lemma {:induction false} ProcessAllRead(
    files: Files, names: seq<string>, sources: Files, skip: set<string>, n: string)
    requires AllGood(names, sources, skip) && AllBare(names)
    ensures Read(ProcessAll(files, names, sources, skip), n) == Fate(files, names, sources, skip, n)
  {
    if names != [] {
      var k := |names| - 1;
      ProcessAllRead(files, names[..k], sources, skip, n);
      ColonIsNotBare(names[k]);
      ProcessRead(ProcessAll(files, names[..k], sources, skip), names[k], sources, skip, n);
      AccountedStep(names, n);
      BareUnaccounted(names[..k], n);
    }
  }

  lemma {:induction false} AllGoodIsFirst(names: seq<string>, sources: Files, skip: set<string>)
    requires forall i :: 0 <= i < |names| ==> names[i] in sources
    ensures AllGood(names, sources, skip) <==> FirstBad(names, sources, skip) == |names|
  {
  }

  lemma RegisteredUnfolds(dir: Target, names: seq<string>, sources: Files, skip: set<string>)
    requires AllGood(names, sources, skip)
    ensures Registered(dir, names, sources, skip)
         == Target(true, ProcessAll(dir.files, names, sources, skip) - (dir.managed - Produced(names, skip)),
           Produced(names, skip))
  {
    AllGoodIsFirst(names, sources, skip);
  }

  /** After a successful write: every produced file is its stripped source; every other name that was
      managed, skipped, or a retired colon name is gone; and all remaining names are as they were. */
  lemma RegisteredRead(dir: Target, names: seq<string>, sources: Files, skip: set<string>, n: string)
    requires AllGood(names, sources, skip) && AllBare(names)
    ensures var after := Registered(dir, names, sources, skip);
            && after.present && after.managed == Produced(names, skip)
            && Read(after.files, n) ==
                 if n in Produced(names, skip) then Some(StripModel(sources[n]).value)
                 else if n in Accounted(names) || n in dir.managed then None
                 else Read(dir.files, n)
  {
    RegisteredUnfolds(dir, names, sources, skip);
    ProcessAllRead(dir.files, names, sources, skip, n);
  }

  lemma ReadEqual(a: Files, b: Files)
    requires forall n :: Read(a, n) == Read(b, n)
    ensures a == b
  {
    forall n ensures n in a <==> n in b { assert Read(a, n) == Read(b, n); }
    forall n | n in a ensures a[n] == b[n] { assert Read(a, n) == Read(b, n); }
  }

  /** A second write changes nothing. */
  lemma RegisterIdempotent(dir: Target, names: seq<string>, sources: Files, skip: set<string>)
    requires AllGood(names, sources, skip) && AllBare(names)
    ensures var after := Registered(dir, names, sources, skip); Registered(after, names, sources, skip) == after
  {
    var after := Registered(dir, names, sources, skip);
    var again := Registered(after, names, sources, skip);
    forall n ensures Read(again.files, n) == Read(after.files, n) {
      RegisteredRead(dir, names, sources, skip, n);
      RegisteredRead(after, names, sources, skip, n);
    }
    ReadEqual(again.files, after.files);
    RegisteredUnfolds(dir, names, sources, skip);
    RegisteredUnfolds(after, names, sources, skip);
  }

  // ---- drift ----

  lemma {:induction false} NoAgentDrift(files: Files, names: seq<string>, sources: Files, skip: set<string>)
    requires AllGood(names, sources, skip)
    ensures AgentsDrift(files, names, sources, skip) == 0
       <==> forall i :: 0 <= i < |names| ==> AgentDrift(files, names[i], sources, skip) == 0
  {
    if names != [] {
      var k := |names| - 1;
      NoAgentDrift(files, names[..k], sources, skip);
      forall i | 0 <= i < k ensures names[..k][i] == names[i] {}
    }
  }

  /** One agent is in sync: its file is there as it should be, and what should be gone is gone. */
  lemma AgentInSync(files: Files, name: string, sources: Files, skip: set<string>)
    requires name in sources && !Bad(name, sources, skip)
    ensures AgentDrift(files, name, sources, skip) == 0
       <==> && Read(files, Colon(name)) == None
            && Read(files, name) == if name in skip then None else Some(StripModel(sources[name]).value)
  {
  }

  /** After a successful write, a check finds as drift exactly the bare agent files that were there
      before, that no agent accounts for and that the manifest did not list. */
  lemma DriftAfterWrite(dir: Target, names: seq<string>, sources: Files, skip: set<string>)
    requires AllGood(names, sources, skip) && AllBare(names)
    ensures Drift(Registered(dir, names, sources, skip), names, sources, skip) == |Unexpected(dir, names)|
  {
    var after := Registered(dir, names, sources, skip);
    forall i | 0 <= i < |names| ensures AgentDrift(after.files, names[i], sources, skip) == 0 {
      RegisteredRead(dir, names, sources, skip, names[i]);
      RegisteredRead(dir, names, sources, skip, Colon(names[i]));
      ColonIsNotBare(names[i]);
      BareUnaccounted(names, Colon(names[i]));
      AgentInSync(after.files, names[i], sources, skip);
    }
    NoAgentDrift(after.files, names, sources, skip);
    RegisteredUnfolds(dir, names, sources, skip);
    assert Orphans(after, names, skip) == {};
    forall n ensures n in Unexpected(after, names) <==> n in Unexpected(dir, names) {
      RegisteredRead(dir, names, sources, skip, n);
    }
    assert Unexpected(after, names) == Unexpected(dir, names);
  }

  /** No drift at all means exactly that a write would change no file and that nothing is unexpected. */
  lemma NoDriftMeansInSync(dir: Target, names: seq<string>, sources: Files, skip: set<string>)
    requires AllGood(names, sources, skip) && AllBare(names)
    ensures Drift(dir, names, sources, skip) == 0
       <==> Registered(dir, names, sources, skip).files == dir.files && Unexpected(dir, names) == {}
  {
    var after := Registered(dir, names, sources, skip);
    NoAgentDrift(dir.files, names, sources, skip);
    if Drift(dir, names, sources, skip) == 0 {
      forall n ensures Read(after.files, n) == Read(dir.files, n) {
        RegisteredRead(dir, names, sources, skip, n);
        InSyncAt(dir, names, sources, skip, n);
      }
      ReadEqual(after.files, dir.files);
    } else if after.files == dir.files {
      forall i | 0 <= i < |names| ensures AgentDrift(dir.files, names[i], sources, skip) == 0 {
        RegisteredRead(dir, names, sources, skip, names[i]);
        RegisteredRead(dir, names, sources, skip, Colon(names[i]));
        ColonIsNotBare(names[i]);
        BareUnaccounted(names, Colon(names[i]));
        AgentInSync(dir.files, names[i], sources, skip);
      }
      RegisteredUnfolds(dir, names, sources, skip);
      assert Orphans(dir, names, skip) == {};
    }
  }

  lemma InSyncAt(dir: Target, names: seq<string>, sources: Files, skip: set<string>, n: string)
    requires AllGood(names, sources, skip) && AllBare(names)
    requires forall i :: 0 <= i < |names| ==> AgentDrift(dir.files, names[i], sources, skip) == 0
    requires Orphans(dir, names, skip) == {}
    ensures n in Produced(names, skip) ==> Read(dir.files, n) == Some(StripModel(sources[n]).value)
    ensures n !in Produced(names, skip) && (n in Accounted(names) || n in dir.managed) ==> Read(dir.files, n) == None
  {
    forall i | 0 <= i < |names|
      ensures Read(dir.files, Colon(names[i])) == None
      ensures Read(dir.files, names[i]) == if names[i] in skip then None else Some(StripModel(sources[names[i]]).value)
    {
      AgentInSync(dir.files, names[i], sources, skip);
    }
    assert n in Orphans(dir, names, skip) <==> n in dir.managed && n !in Produced(names, skip) && n in dir.files;
  }

  /** A run stopped by an agent without frontmatter keeps the old manifest, and has touched only names
      of agents and their colon names. */
  lemma StoppedRun(dir: Target, names: seq<string>, sources: Files, skip: set<string>, n: string)
    requires (forall i :: 0 <= i < |names| ==> names[i] in sources) && AllBare(names)
    requires !AllGood(names, sources, skip)
    ensures var after := Registered(dir, names, sources, skip);
            && after.present && after.managed == dir.managed
            && (n !in Accounted(names) ==> Read(after.files, n) == Read(dir.files, n))
  {
    AllGoodIsFirst(names, sources, skip);
    var k := FirstBad(names, sources, skip);
    ProcessAllRead(dir.files, names[..k], sources, skip, n);
    if n in Accounted(names[..k]) {
      AccountedPrefix(names, k, n);
    }
  }

  lemma AccountedPrefix(names: seq<string>, k: nat, n: string)
    requires k <= |names| && n in Accounted(names[..k])
    ensures n in Accounted(names)
  {
    if n in names[..k] {
      assert n in names;
    } else {
      var m :| m in names[..k] && n == Colon(m);
      assert m in names;
    }
  }

  /** Repairing the bad source and running again reaches what an undisturbed run would have reached. */
  lemma StoppedRunResumes(dir: Target, names: seq<string>, broken: Files, sources: Files, skip: set<string>)
    requires forall i :: 0 <= i < |names| ==> names[i] in broken
    requires AllGood(names, sources, skip) && AllBare(names) && !AllGood(names, broken, skip)
    ensures Registered(Registered(dir, names, broken, skip), names, sources, skip)
         == Registered(dir, names, sources, skip)
  {
    var stopped := Registered(dir, names, broken, skip);
    var resumed, direct := Registered(stopped, names, sources, skip), Registered(dir, names, sources, skip);
    forall n ensures Read(resumed.files, n) == Read(direct.files, n) {
      StoppedRun(dir, names, broken, skip, n);
      RegisteredRead(stopped, names, sources, skip, n);
      RegisteredRead(dir, names, sources, skip, n);
    }
    ReadEqual(resumed.files, direct.files);
    RegisteredUnfolds(stopped, names, sources, skip);
    RegisteredUnfolds(dir, names, sources, skip);
  }

  // ---- how much drift ----

  /** Agents whose file is missing or not their stripped source. */
  function Stale(files: Files, names: seq<string>, sources: Files, skip: set<string>): set<string>
    requires AllGood(names, sources, skip)
  {
    set n | n in names && n !in skip && !(n in files && files[n] == StripModel(sources[n]).value)
  }

  /** Files that are there under the name of a skipped agent, or under a retired colon name. */
  function Leftover(files: Files, names: seq<string>, skip: set<string>): set<string> {
    (set n | n in names && n in skip && n in files) + (set n | n in names && Colon(n) in files :: Colon(n))
  }

  lemma StaleStep(files: Files, names: seq<string>, sources: Files, skip: set<string>, n: nat)
    requires AllGood(names, sources, skip) && n + 1 == |names| && names[n] !in names[..n]
    ensures var name := names[n];
            Stale(files, names, sources, skip) == Stale(files, names[..n], sources, skip)
              + (if name !in skip && !(name in files && files[name] == StripModel(sources[name]).value) then {name}
                else {})
    ensures names[n] !in Stale(files, names[..n], sources, skip)
  {
    assert names == names[..n] + [names[n]];
  }

  lemma LeftoverStep(files: Files, names: seq<string>, skip: set<string>, n: nat)
    requires n + 1 == |names| && names[n] !in names[..n] && AllBare(names)
    ensures var name := names[n];
            Leftover(files, names, skip) == Leftover(files, names[..n], skip)
              + (if name in skip && name in files then {name} else {})
                + (if Colon(name) in files then {Colon(name)} else {})
    ensures names[n] !in Leftover(files, names[..n], skip) && Colon(names[n]) !in Leftover(files, names[..n], skip)
    ensures names[n] != Colon(names[n])
  {
    assert names == names[..n] + [names[n]];
    forall m | m in names ensures !IsBare(Colon(m)) && IsBare(m) && (Colon(m) == Colon(names[n]) ==> m == names[n]) {
      ColonIsNotBare(m);
      ColonInjective(m, names[n]);
    }
  }

  lemma ColonInjective(a: string, b: string)
    ensures Colon(a) == Colon(b) ==> a == b
  {
    assert Colon(a)[11..] == a && Colon(b)[11..] == b;
  }

  lemma StaleCount(files: Files, names: seq<string>, sources: Files, skip: set<string>, n: nat)
    requires AllGood(names, sources, skip) && n + 1 == |names| && names[n] !in names[..n]
    ensures var name := names[n];
            |Stale(files, names, sources, skip)| == |Stale(files, names[..n], sources, skip)|
              + B(name !in skip && !(name in files && files[name] == StripModel(sources[name]).value))
  {
    StaleStep(files, names, sources, skip, n);
  }

  lemma LeftoverCount(files: Files, names: seq<string>, skip: set<string>, n: nat)
    requires n + 1 == |names| && names[n] !in names[..n] && AllBare(names)
    ensures var name := names[n];
            |Leftover(files, names, skip)| == |Leftover(files, names[..n], skip)|
              + B(name in skip && name in files) + B(Colon(name) in files)
  {
    LeftoverStep(files, names, skip, n);
  }

  lemma AgentCounts(files: Files, name: string, sources: Files, skip: set<string>)
    requires name in sources && !Bad(name, sources, skip)
    ensures AgentDrift(files, name, sources, skip)
         == B(name !in skip && !(name in files && files[name] == StripModel(sources[name]).value))
            + B(name in skip && name in files) + B(Colon(name) in files)
  {
  }

  /** Each file that differs counts once. */
  lemma {:induction false} AgentsDriftIs(files: Files, names: seq<string>, sources: Files, skip: set<string>)
    requires AllGood(names, sources, skip) && AllBare(names)
    requires forall i, j :: 0 <= i < j < |names| ==> names[i] != names[j]
    ensures AgentsDrift(files, names, sources, skip)
              == |Stale(files, names, sources, skip)| + |Leftover(files, names, skip)|
  {
    if names != [] {
      var n := |names| - 1;
      AgentsDriftIs(files, names[..n], sources, skip);
      StaleCount(files, names, sources, skip, n);
      LeftoverCount(files, names, skip, n);
      AgentCounts(files, names[n], sources, skip);
    }
  }

  /** The drift of any directory: one for each agent whose file is not as it should be, for each file to go
      under a skipped or colon name, for each bare file nobody knows, and for each managed one no longer produced. */
  lemma DriftIs(dir: Target, names: seq<string>, sources: Files, skip: set<string>)
    requires AllGood(names, sources, skip) && Listing(names, sources)
    ensures Drift(dir, names, sources, skip)
         == |Stale(dir.files, names, sources, skip)| + |Leftover(dir.files, names, skip)|
            + |set n | n in dir.files && IsBare(n) && n !in names && n !in dir.managed|
            + |set n | n in dir.files && n in dir.managed && !(n in names && n !in skip)|
  {
    AgentsDriftIs(dir.files, names, sources, skip);
    forall n | IsBare(n) ensures n in Accounted(names) <==> n in names { BareUnaccounted(names, n); }
    assert Unexpected(dir, names) == set n | n in dir.files && IsBare(n) && n !in names && n !in dir.managed;
    assert Orphans(dir, names, skip) == set n | n in dir.files && n in dir.managed && !(n in names && n !in skip);
  }
}
