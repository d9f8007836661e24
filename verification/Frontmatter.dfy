/** Removing the model lines from an agent's frontmatter. */
module Frontmatter {
  import opened Lines
  import opened Options

  /** Three dashes and nothing else: the line that opens the frontmatter. */
  predicate Opening(l: string) { StripReturn(l) == "---" }

  predicate AllPadding(s: string) { forall i :: 0 <= i < |s| ==> s[i] == ' ' || s[i] == '\t' }

  /** Three dashes, then only spaces and tabs: the line that closes it. */
  predicate Closing(l: string) { StartsWith(l, "---") && AllPadding(StripReturn(l)[3..]) }

  predicate ModelLine(l: string) { StartsWith(l, "model:") }

  /** The lines without the model lines. */
  function Modelless(ls: seq<string>): (r: seq<string>)
    ensures |r| <= |ls|
  {
    if ls == [] then []
    else (if ModelLine(ls[0]) then [] else [ls[0]]) + Modelless(ls[1..])
  }

  /** The line that closes the frontmatter, or the number of lines if there is no frontmatter. */
  function CloseAt(ls: seq<string>): (k: nat)
    requires ls != []
    ensures k <= |ls|
  {
    if Opening(ls[0]) then First(Closing, ls, 1) else |ls|
  }

  function StripLines(ls: seq<string>, k: nat): (r: seq<string>)
    requires 1 <= k < |ls|
    ensures r != []
  {
    [ls[0]] + Modelless(ls[1..k]) + ls[k..]
  }

  /** The text without the model lines of its frontmatter; nothing if it has no frontmatter. */
  function StripModel(text: string): Option<string> {
    var ls := Split(text);
    if CloseAt(ls) == |ls| then None else Some(Join(StripLines(ls, CloseAt(ls))))
  }

  lemma {:induction false} ModellessPlain(ls: seq<string>)
    ensures forall i :: 0 <= i < |Modelless(ls)| ==> Modelless(ls)[i] in ls && !ModelLine(Modelless(ls)[i])
  {
    if ls != [] {
      ModellessPlain(ls[1..]);
    }
  }

  /** Nothing but model lines is dropped, and the rest keeps its order. */
  lemma {:induction false} ModellessConcat(a: seq<string>, b: seq<string>)
    ensures Modelless(a + b) == Modelless(a) + Modelless(b)
  {
    if a == [] {
      assert a + b == b;
    } else {
      assert (a + b)[1..] == a[1..] + b;
      ModellessConcat(a[1..], b);
    }
  }

  lemma {:induction false} ModellessSame(ls: seq<string>)
    requires forall i :: 0 <= i < |ls| ==> !ModelLine(ls[i])
    ensures Modelless(ls) == ls
  {
    if ls != [] {
      ModellessSame(ls[1..]);
    }
  }

  lemma OpeningDash(l: string)
    requires Opening(l)
    ensures !ModelLine(l)
  {
    if StripReturn(l) != l { assert StripReturn(l)[0] == l[0]; }
  }

  /** The new lines have their frontmatter closed at the corresponding place. */
  lemma CloseStays(ls: seq<string>, k: nat)
    requires ls != [] && k == CloseAt(ls) < |ls|
    ensures 1 <= k && k == 1 + |ls[1..k]|
    ensures CloseAt(StripLines(ls, k)) == 1 + |Modelless(ls[1..k])|
  {
    var front := Modelless(ls[1..k]);
    var out := StripLines(ls, k);
    ModellessPlain(ls[1..k]);
    assert out[0] == ls[0];
    assert out[1 + |front|] == ls[k];
    forall i | 1 <= i < 1 + |front| ensures !Closing(out[i]) {
      assert out[i] == front[i - 1];
      assert front[i - 1] in ls[1..k];
    }
    FirstIs(Closing, out, 1, 1 + |front|);
  }

  /** A second pass changes nothing. */
  lemma StripIdempotent(text: string)
    requires StripModel(text).Some?
    ensures StripModel(StripModel(text).value) == StripModel(text)
  {
    var ls := Split(text);
    var k := CloseAt(ls);
    CloseStays(ls, k);
    var front, out := Modelless(ls[1..k]), StripLines(ls, k);
    StrippedPlain(ls, k);
    SplitJoin(out);
    ModellessPlain(ls[1..k]);
    ModellessSame(front);
    assert out[1..1 + |front|] == front;
    assert out[1 + |front|..] == ls[k..];
  }

  lemma StrippedPlain(ls: seq<string>, k: nat)
    requires 1 <= k < |ls| && forall i :: 0 <= i < |ls| ==> !HasNewline(ls[i])
    ensures forall i :: 0 <= i < |StripLines(ls, k)| ==> !HasNewline(StripLines(ls, k)[i])
  {
    ModellessPlain(ls[1..k]);
    forall i | 0 <= i < |StripLines(ls, k)| ensures StripLines(ls, k)[i] in ls {
      if 1 <= i < 1 + |Modelless(ls[1..k])| {
        assert Modelless(ls[1..k])[i - 1] in ls[1..k];
      }
    }
  }

  /** The text is its opening line, its frontmatter, and the rest from the first closing line on; the
      result is the same without the model lines of the frontmatter. */
  lemma StripShape(text: string) returns (front: seq<string>, rest: string)
    requires StripModel(text).Some?
    ensures front != [] && Opening(front[0])
    ensures forall i :: 1 <= i < |front| ==> !Closing(front[i])
    ensures Closing(Split(rest)[0])
    ensures text == Join(front) + ("\n" + rest)
    ensures StripModel(text).value == Join(Modelless(front)) + ("\n" + rest)
    ensures Modelless(front) != []
  {
    var ls := Split(text);
    var k := CloseAt(ls);
    front, rest := ls[..k], Join(ls[k..]);
    assert ls == front + ls[k..];
    JoinSplit(text);
    JoinConcat(front, ls[k..]);
    SplitJoin(ls[k..]);
    FrontKept(ls, k);
    JoinConcat(Modelless(front), ls[k..]);
  }

  lemma FrontKept(ls: seq<string>, k: nat)
    requires 1 <= k < |ls| && Opening(ls[0])
    ensures StripLines(ls, k) == Modelless(ls[..k]) + ls[k..] && Modelless(ls[..k]) != []
  {
    assert ls[..k] == [ls[0]] + ls[1..k];
    OpeningDash(ls[0]);
    HeadKeptInFront(ls[0], ls[1..k]);
  }

  lemma HeadKeptInFront(l: string, ls: seq<string>)
    requires !ModelLine(l)
    ensures Modelless([l] + ls) == [l] + Modelless(ls)
  {
    assert ([l] + ls)[1..] == ls;
  }

  /** The shape determines the result. */
  lemma StripOfShape(front: seq<string>, rest: string)
    requires front != [] && Opening(front[0]) && Closing(Split(rest)[0])
    requires forall i :: 0 <= i < |front| ==> !HasNewline(front[i])
    requires forall i :: 1 <= i < |front| ==> !Closing(front[i])
    ensures StripModel(Join(front) + ("\n" + rest)) == Some(Join(Modelless(front)) + ("\n" + rest))
  {
    var ls := front + Split(rest);
    SplitJoin(front);
    SplitNewline(Join(front), rest);
    FirstIs(Closing, ls, 1, |front|);
    assert ls[1..|front|] == front[1..] && ls[|front|..] == Split(rest);
    OpeningDash(front[0]);
    assert front == [front[0]] + front[1..];
    HeadKeptInFront(front[0], front[1..]);
    JoinConcat(Modelless(front), Split(rest));
    JoinSplit(rest);
  }

  // ---- the line patterns ----

  /** What may follow a closing line's padding: a carriage return is part of the line end. */
  predicate LineEnd(r: string) { r == "" || r == "\r" }

  predicate Padding(a: string) { forall c :: c in a ==> c == ' ' || c == '\t' }

  /** The opening line: /^---\r?\n/. */
  lemma OpeningIff(l: string)
    ensures Opening(l) <==> l == "---" || l == "---\r"
  {
    if l != "" { assert l == l[..|l| - 1] + [l[|l| - 1]]; }
  }

  /** The closing line: /^---[ \t]*(?:\r?\n|$)/. */
  lemma ClosingIff(l: string)
    ensures Closing(l) <==>
              exists a, r :: l == "---" + a + r && LineEnd(r) && Padding(a)
  {
    if Closing(l) { var a, r := ClosingParts(l); }
    if a, r :| l == "---" + a + r && LineEnd(r) && Padding(a) { ClosingWhole(l, a, r); }
  }

  lemma ClosingParts(l: string) returns (a: string, r: string)
    requires Closing(l)
    ensures l == "---" + a + r && LineEnd(r) && Padding(a)
  {
    var s := StripReturn(l);
    a, r := s[3..], l[|s|..];
    assert s[..3] == "---" by { assert s[..3] == l[..3]; }
    assert l == s + r && s == "---" + a;
  }

  lemma ClosingWhole(l: string, a: string, r: string)
    requires l == "---" + a + r && LineEnd(r) && Padding(a)
    ensures Closing(l)
  {
    assert l[..3] == "---";
    forall i | 0 <= i < |a| ensures a[i] == ' ' || a[i] == '\t' { assert a[i] in a; }
    assert StripReturn(l) == "---" + a by {
      if r == "" && a != "" { assert l[|l| - 1] == a[|a| - 1]; }
    }
    assert ("---" + a)[3..] == a;
  }

  /** A line that is dropped: /^model:/. */
  lemma ModelLineIff(l: string)
    ensures ModelLine(l) <==> exists r :: l == "model:" + r
  {
    if ModelLine(l) { assert l == "model:" + l[6..]; }
    if r :| l == "model:" + r { assert l[..6] == "model:"; }
  }
}
