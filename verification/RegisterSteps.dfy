/** Every crash point of a registration, and running it again from there. */
module RegisterSteps {
  import opened Options
  import opened Frontmatter
  import opened Register
  import opened RegisterProofs
  import opened Releases
  import opened Install

  lemma StoppedFiles(a: Target, names: seq<string>, sources: Files, k: nat)
    requires forall i :: 0 <= i < |names| ==> names[i] in sources
    requires k == FirstBad(names, sources, NONE_SKIPPED) < |names|
    ensures Registered(a, names, sources, NONE_SKIPPED).files == ProcessAll(a.files, names[..k], sources, NONE_SKIPPED)
  {
  }

  lemma StoppedRead(a: Target, names: seq<string>, sources: Files, k: nat, n: string)
    requires (forall i :: 0 <= i < |names| ==> names[i] in sources) && AllBare(names)
    requires k == FirstBad(names, sources, NONE_SKIPPED) < |names| && n in Accounted(names[..k])
    ensures Read(Registered(a, names, sources, NONE_SKIPPED).files, n)
         == if n in names[..k] then StripModel(sources[n]) else None
  {
    StoppedFiles(a, names, sources, k);
    ProcessAllRead(a.files, names[..k], sources, NONE_SKIPPED, n);
  }

  lemma CompletedRead(a: Target, names: seq<string>, sources: Files, n: string)
    requires AllGood(names, sources, NONE_SKIPPED) && AllBare(names) && n in Accounted(names)
    ensures Read(Registered(a, names, sources, NONE_SKIPPED).files, n)
         == if n in names then StripModel(sources[n]) else None
  {
    RegisteredRead(a, names, sources, NONE_SKIPPED, n);
  }

  /** What registering leaves of the names it gets to. */
  lemma FinalAccounted(a: Target, tree: Tree, k: nat, n: string)
    requires Proper(tree) && k == FirstBad(tree.names, tree.agents, NONE_SKIPPED) && n in Accounted(tree.names[..k])
    ensures Read(Registered(a, tree.names, tree.agents, NONE_SKIPPED).files, n)
         == if n in tree.names[..k] then StripModel(tree.agents[n]) else None
  {
    if k < |tree.names| {
      StoppedRead(a, tree.names, tree.agents, k, n);
    } else {
      assert tree.names[..k] == tree.names;
      AllGoodIsFirst(tree.names, tree.agents, NONE_SKIPPED);
      CompletedRead(a, tree.names, tree.agents, n);
    }
  }

  lemma FinalRead(a: Target, tree: Tree, i: nat, n: string)
    requires Proper(tree) && i <= FirstBad(tree.names, tree.agents, NONE_SKIPPED)
    ensures var final := Registered(a, tree.names, tree.agents, NONE_SKIPPED).files;
            && (n in tree.names[..i] ==> Read(final, n) == StripModel(tree.agents[n]))
            && (n in Accounted(tree.names[..i]) && n !in tree.names[..i] ==> Read(final, n) == None)
  {
    var k := FirstBad(tree.names, tree.agents, NONE_SKIPPED);
    if n in Accounted(tree.names[..i]) {
      PrefixAccounted(tree.names, i, k, n);
      FinalAccounted(a, tree, k, n);
      if n !in tree.names[..i] {
        ColonNames(tree.names, i, n);
        if n in tree.names[..k] { PrefixIn(tree.names, k, n); }
      }
    }
  }

  lemma PrefixIn(names: seq<string>, k: nat, n: string)
    requires k <= |names| && n in names[..k]
    ensures n in names
  {
  }

  lemma PrefixAccounted(names: seq<string>, i: nat, k: nat, n: string)
    requires i <= k <= |names| && n in Accounted(names[..i])
    ensures n in Accounted(names[..k])
    ensures n in names[..i] ==> n in names[..k]
  {
    assert names[..i] == names[..k][..i];
    AccountedPrefix(names[..k], i, n);
  }

  lemma ColonNames(names: seq<string>, i: nat, n: string)
    requires i <= |names| && AllBare(names) && n in Accounted(names[..i]) && n !in names[..i]
    ensures !IsBare(n) && n !in names
  {
    var m :| m in names[..i] && n == Colon(m);
    ColonIsNotBare(m);
    BareUnaccounted(names, n);
  }

  lemma PrefixBetween(a: Target, tree: Tree, i: nat)
    requires Proper(tree) && i <= FirstBad(tree.names, tree.agents, NONE_SKIPPED)
    ensures Between(a, Registered(a, tree.names, tree.agents, NONE_SKIPPED),
                    Target(true, ProcessAll(a.files, tree.names[..i], tree.agents, NONE_SKIPPED), a.managed))
  {
    forall n
      ensures var x := ProcessAll(a.files, tree.names[..i], tree.agents, NONE_SKIPPED);
              var final := Registered(a, tree.names, tree.agents, NONE_SKIPPED).files;
              Read(x, n) == Read(a.files, n) || Read(x, n) == Read(final, n)
    {
      ProcessAllRead(a.files, tree.names[..i], tree.agents, NONE_SKIPPED, n);
      FinalRead(a, tree, i, n);
    }
  }

  /** Between the write of an agent and the removal of its colon name. */
  lemma WrittenBetween(a: Target, final: Target, x: Target, name: string, body: string)
    requires Between(a, final, x) && x.managed == a.managed && Read(final.files, name) == Some(body)
    ensures Between(a, final, Target(true, x.files[name := body], x.managed))
  {
    forall n ensures Read(x.files[name := body], n) == if n == name then Some(body) else Read(x.files, n) {}
  }

  /** While names the manifest no longer needs are removed. */
  lemma SweepBetween(a: Target, final: Target, x: Target, gone: set<string>)
    requires Between(a, final, x) && x.managed == a.managed
    requires forall n :: n in gone ==> Read(final.files, n) == None
    ensures Between(a, final, x.(files := x.files - gone))
  {
    forall n ensures Read(x.files - gone, n) == if n in gone then None else Read(x.files, n) {}
  }

  /** From every crash point, registering again ends as an undisturbed registration would have. */
  lemma RegisterAgain(a: Target, x: Target, tree: Tree)
    requires Proper(tree) && AllGood(tree.names, tree.agents, NONE_SKIPPED)
    requires Between(a, Registered(a, tree.names, tree.agents, NONE_SKIPPED), x)
    ensures Registered(x, tree.names, tree.agents, NONE_SKIPPED) == Registered(a, tree.names, tree.agents, NONE_SKIPPED)
  {
    var names, sources := tree.names, tree.agents;
    var final := Registered(a, names, sources, NONE_SKIPPED);
    if x == final {
      RegisterIdempotent(a, names, sources, NONE_SKIPPED);
    } else {
      var again := Registered(x, names, sources, NONE_SKIPPED);
      forall n ensures Read(again.files, n) == Read(final.files, n) {
        RegisteredRead(x, names, sources, NONE_SKIPPED, n);
        RegisteredRead(a, names, sources, NONE_SKIPPED, n);
      }
      ReadEqual(again.files, final.files);
      RegisteredUnfolds(x, names, sources, NONE_SKIPPED);
      RegisteredUnfolds(a, names, sources, NONE_SKIPPED);
    }
  }
}
