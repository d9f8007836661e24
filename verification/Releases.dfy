/** The install root: releases, the current link, and which releases a retention pass keeps. */
module Releases {
  import opened Options
  import opened Register

  /** A snapshot: the paths it carries, its agents in listing order, and its version. */
  datatype Tree = Tree(paths: set<string>, names: seq<string>, agents: Files, version: string)

  const REQUIRED: set<string> := {
    "commands/masterplan.md", "bin/masterplan.mjs", "bin/doctor.mjs", "bin/register-pi-agents.mjs", "lib/bundle.mjs",
    "agents", "skills/masterplan/SKILL.md", "skills/masterplan-detect/SKILL.md", "package.json" }

  predicate Complete(tree: Tree) { REQUIRED <= tree.paths }

  datatype Path = InReleases(name: string) | Outside(path: string)

  /** An entry of the releases directory, with its modification time. */
  datatype Entry = Dir(tree: Tree, mtime: int) | Link(to: Path, mtime: int)

  /** What the current path is: nothing, a link, or a file or directory of its own. */
  datatype Node = Absent | Symlink(to: Path) | Solid

  /** A directory that links resolve to. */
  datatype Real = Inside(name: string) | Beyond(path: string)

  /** The releases directory and the directories outside it that links may point to. */
  datatype Store = Store(releases: map<string, Entry>, outside: map<string, Tree>)

  /** Where a path leads, following links; nothing if it dangles or loops. */
  function Resolve(s: Store, p: Path, seen: set<string>): Option<Real>
    decreases s.releases.Keys - seen
  {
    match p
    case Outside(x) => if x in s.outside then Some(Beyond(x)) else None
    case InReleases(n) =>
      if n !in s.releases || n in seen then None
      else
        match s.releases[n]
        case Dir(_, _) => Some(Inside(n))
        case Link(q, _) =>
          assert n in s.releases.Keys - seen;
          Resolve(s, q, seen + {n})
  }

  function RealPath(s: Store, p: Path): Option<Real> { Resolve(s, p, {}) }

  function RealNode(s: Store, node: Node): Option<Real> {
    if node.Symlink? then RealPath(s, node.to) else None
  }

  predicate Exists(s: Store, r: Real) {
    match r
    case Inside(n) => n in s.releases && s.releases[n].Dir?
    case Beyond(x) => x in s.outside
  }

  function Content(s: Store, r: Real): Tree
    requires Exists(s, r)
  {
    match r
    case Inside(n) => s.releases[n].tree
    case Beyond(x) => s.outside[x]
  }

  lemma {:induction false} ResolveExists(s: Store, p: Path, seen: set<string>)
    ensures Resolve(s, p, seen).Some? ==> Exists(s, Resolve(s, p, seen).value)
    decreases s.releases.Keys - seen
  {
    if p.InReleases? && p.name in s.releases && p.name !in seen && s.releases[p.name].Link? {
      assert p.name in s.releases.Keys - seen;
      ResolveExists(s, s.releases[p.name].to, seen + {p.name});
    }
  }

  lemma {:induction false} SeenLess(s: Store, p: Path, seen: set<string>, fewer: set<string>)
    requires fewer <= seen && Resolve(s, p, seen).Some?
    ensures Resolve(s, p, fewer) == Resolve(s, p, seen)
    decreases s.releases.Keys - seen
  {
    if p.InReleases? && s.releases[p.name].Link? {
      assert p.name in s.releases.Keys - seen;
      SeenLess(s, s.releases[p.name].to, seen + {p.name}, fewer + {p.name});
    }
  }

  /** The entries that lead to r are the same in t as in s. */
  ghost predicate KeepsWayTo(s: Store, t: Store, r: Real) {
    && s.outside == t.outside
    && forall n :: n in s.releases && RealPath(s, InReleases(n)) == Some(r) ==>
         n in t.releases && t.releases[n] == s.releases[n]
  }

  /** Every link on the way to r leads to r itself, so keeping those entries keeps the way. */
  lemma {:induction false} WayKept(s: Store, t: Store, p: Path, seen: set<string>, r: Real)
    requires Resolve(s, p, seen) == Some(r) && KeepsWayTo(s, t, r)
    ensures Resolve(t, p, seen) == Some(r)
    decreases s.releases.Keys - seen
  {
    if p.InReleases? {
      SeenLess(s, p, seen, {});
      assert p.name in s.releases && t.releases[p.name] == s.releases[p.name];
      if s.releases[p.name].Link? {
        assert p.name in s.releases.Keys - seen;
        WayKept(s, t, s.releases[p.name].to, seen + {p.name}, r);
      }
    }
  }

  /** With entries removed, no path leads anywhere it did not lead before. */
  lemma {:induction false} FewerWays(s: Store, t: Store, p: Path, seen: set<string>)
    requires s.outside == t.outside
    requires forall n :: n in t.releases ==> n in s.releases && t.releases[n] == s.releases[n]
    requires Resolve(t, p, seen).Some?
    ensures Resolve(s, p, seen) == Resolve(t, p, seen)
    decreases t.releases.Keys - seen
  {
    if p.InReleases? && t.releases[p.name].Link? {
      assert p.name in t.releases.Keys - seen;
      FewerWays(s, t, t.releases[p.name].to, seen + {p.name});
    }
  }

  lemma ContentKept(s: Store, t: Store, p: Path, r: Real)
    requires RealPath(s, p) == Some(r) && KeepsWayTo(s, t, r)
    ensures RealPath(t, p) == Some(r) && Exists(s, r) && Exists(t, r) && Content(t, r) == Content(s, r)
  {
    ResolveExists(s, p, {});
    WayKept(s, t, p, {}, r);
    if r.Inside? { InsideLeadsToItself(s, r.name); }
  }

  lemma InsideLeadsToItself(s: Store, n: string)
    requires n in s.releases && s.releases[n].Dir?
    ensures RealPath(s, InReleases(n)) == Some(Inside(n))
  {
  }

  // ---- ways ----

  /** A way from a path to a directory: the links it goes through, in order. */
  ghost predicate Way(s: Store, p: Path, links: seq<string>, r: Real)
    decreases |links|
  {
    if links == [] then
      match p
      case Outside(x) => r == Beyond(x) && x in s.outside
      case InReleases(n) => r == Inside(n) && n in s.releases && s.releases[n].Dir?
    else
      && p == InReleases(links[0]) && links[0] in s.releases && s.releases[links[0]].Link?
      && Way(s, s.releases[links[0]].to, links[1..], r)
  }

  lemma {:induction false} OnlyWay(s: Store, p: Path, a: seq<string>, b: seq<string>, r: Real, q: Real)
    requires Way(s, p, a, r) && Way(s, p, b, q)
    ensures a == b && r == q
    decreases |a|
  {
    if a != [] && b != [] { OnlyWay(s, s.releases[a[0]].to, a[1..], b[1..], r, q); }
  }

  lemma {:induction false} ResolveGoes(s: Store, p: Path, seen: set<string>) returns (links: seq<string>)
    requires Resolve(s, p, seen).Some?
    ensures Way(s, p, links, Resolve(s, p, seen).value)
    decreases s.releases.Keys - seen
  {
    links := [];
    if p.InReleases? && s.releases[p.name].Link? {
      assert p.name in s.releases.Keys - seen;
      var rest := ResolveGoes(s, s.releases[p.name].to, seen + {p.name});
      links := [p.name] + rest;
    }
  }

  /** A longer way to the same place leads through n. */
  ghost predicate Before(s: Store, n: string, links: seq<string>, r: Real) {
    exists more :: |more| > |links| && Way(s, InReleases(n), more, r)
  }

  /** A way is found, for none comes through the same link twice. */
  lemma {:induction false} WayResolves(s: Store, p: Path, links: seq<string>, r: Real, seen: set<string>)
    requires Way(s, p, links, r) && forall n :: n in seen ==> Before(s, n, links, r)
    ensures Resolve(s, p, seen) == Some(r)
    decreases |links|
  {
    if p.InReleases? && p.name in seen {
      var more :| |more| > |links| && Way(s, InReleases(p.name), more, r);
      OnlyWay(s, p, links, more, r, r);
    }
    if links != [] {
      forall n | n in seen + {links[0]} ensures Before(s, n, links[1..], r) {
        if n in seen {
          var more :| |more| > |links| && Way(s, InReleases(n), more, r);
        } else {
          assert Way(s, InReleases(n), links, r);
        }
      }
      WayResolves(s, s.releases[links[0]].to, links[1..], r, seen + {links[0]});
    }
  }

  ghost predicate HasWay(s: Store, p: Path, r: Real) { exists links :: Way(s, p, links, r) }

  /** A path leads to a directory if and only if there is a way to it. */
  lemma LeadsIff(s: Store, p: Path, r: Real)
    ensures RealPath(s, p) == Some(r) <==> HasWay(s, p, r)
  {
    if RealPath(s, p) == Some(r) { var links := ResolveGoes(s, p, {}); }
    if HasWay(s, p, r) {
      var links :| Way(s, p, links, r);
      WayResolves(s, p, links, r, {});
    }
  }

  // ---- retention ----

  /** The entry leads to where the current path leads. */
  predicate Protected(s: Store, current: Node, n: string) {
    RealNode(s, current).Some? && RealPath(s, InReleases(n)) == RealNode(s, current)
  }

  /** Two paths have ways to the same directory. */
  ghost predicate Meet(s: Store, p: Path, q: Path) { exists r :: HasWay(s, p, r) && HasWay(s, q, r) }

  /** Exactly the entries that share a directory with the current path are protected: none if it leads nowhere. */
  lemma ProtectedIff(s: Store, current: Node, n: string)
    ensures Protected(s, current, n) <==> current.Symlink? && Meet(s, current.to, InReleases(n))
  {
    if Protected(s, current, n) {
      var r := RealNode(s, current).value;
      LeadsIff(s, current.to, r);
      LeadsIff(s, InReleases(n), r);
    }
    if current.Symlink? && Meet(s, current.to, InReleases(n)) {
      var r :| HasWay(s, current.to, r) && HasWay(s, InReleases(n), r);
      LeadsIff(s, current.to, r);
      LeadsIff(s, InReleases(n), r);
    }
  }

  /** Newest first. */
  predicate ByAge(s: Store, order: seq<string>) {
    && (forall i :: 0 <= i < |order| ==> order[i] in s.releases)
    && forall i, j :: 0 <= i < j < |order| ==> s.releases[order[i]].mtime >= s.releases[order[j]].mtime
  }

  ghost predicate Enumerates(order: seq<string>, names: set<string>) {
    && (forall i, j :: 0 <= i < j < |order| ==> order[i] != order[j])
    && forall n :: n in order <==> n in names
  }

  function Insert(s: Store, n: string, order: seq<string>): (r: seq<string>)
    requires n in s.releases && forall i :: 0 <= i < |order| ==> order[i] in s.releases
    ensures |r| == |order| + 1
  {
    if order == [] || s.releases[n].mtime > s.releases[order[0]].mtime then [n] + order
    else [order[0]] + Insert(s, n, order[1..])
  }

  lemma {:induction false} InsertSpec(s: Store, n: string, order: seq<string>)
    requires n in s.releases && ByAge(s, order)
    ensures ByAge(s, Insert(s, n, order))
    ensures forall m :: m in Insert(s, n, order) <==> m == n || m in order
  {
    if order == [] || s.releases[n].mtime > s.releases[order[0]].mtime {
    } else {
      InsertSpec(s, n, order[1..]);
      var r := Insert(s, n, order[1..]);
      forall i | 0 <= i < |r| ensures s.releases[order[0]].mtime >= s.releases[r[i]].mtime {
        assert r[i] in r;
        if r[i] != n { assert r[i] in order[1..]; }
      }
    }
  }

  lemma {:induction false} InsertDistinct(s: Store, n: string, order: seq<string>)
    requires n in s.releases && ByAge(s, order) && n !in order
    requires forall i, j :: 0 <= i < j < |order| ==> order[i] != order[j]
    ensures forall i, j :: 0 <= i < j < |Insert(s, n, order)| ==> Insert(s, n, order)[i] != Insert(s, n, order)[j]
  {
    if order == [] || s.releases[n].mtime > s.releases[order[0]].mtime {
    } else {
      InsertDistinct(s, n, order[1..]);
      InsertSpec(s, n, order[1..]);
      var r := Insert(s, n, order[1..]);
      forall j | 0 <= j < |r| ensures r[j] != order[0] {
        assert r[j] in r;
      }
    }
  }

  /** All releases, newest first. */
  method SortedReleases(s: Store) returns (order: seq<string>)
    ensures ByAge(s, order) && Enumerates(order, s.releases.Keys)
  {
    order := [];
    var todo := s.releases.Keys;
    while todo != {}
      invariant todo <= s.releases.Keys
      invariant ByAge(s, order) && Enumerates(order, s.releases.Keys - todo)
      decreases |todo|
    {
      var n :| n in todo;
      InsertSpec(s, n, order);
      InsertDistinct(s, n, order);
      order := Insert(s, n, order);
      todo := todo - {n};
    }
  }
}
