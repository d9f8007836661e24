/**
 Reading the Amendments section back: the timeline the plan renderer shows, and the proof that
 amending a plan appends exactly one entry to it.
 */
module AmendReader {
  import opened Lines
  import opened Amend
  import Seqs

  datatype Shown = Shown(date: string, summary: string, detail: string)

  function ReaderLines(md: string): (r: seq<string>)
    ensures |r| >= 1
  {
    var ls := Split(md);
    MapLines(StripReturn, ls[..|ls| - 1]) + [ls[|ls| - 1]]
  }

  /** Two hashes and white space: the reader's idea of where the section ends. */
  predicate IsBreak(l: string) { StartsWith(l, "##") && |l| > 2 && IsSpace(l[2]) }

  predicate NoTerminator(s: string) { forall i :: 0 <= i < |s| ==> !IsTerminator(s[i]) }

  /** The text of an entry heading. */
  function HeadText(l: string): string { if |l| < 3 then "" else TrimStart(l[3..]) }

  predicate IsHead(l: string) {
    StartsWith(l, "###") && |l| > 3 && IsSpace(l[3]) && NoTerminator(HeadText(l))
  }

  /** White space, a dash, white space, starting at i. */
  predicate SeparatorAt(s: string, i: nat) {
    && i < |s| && IsSpace(s[i])
    && var j := i + Leading(s[i..]);
       j + 1 < |s| && s[j] == '\U{2014}' && IsSpace(s[j + 1])
  }

  /** The first separator at or after i, or the length of s. */
  function FindSeparator(s: string, i: nat): (n: nat)
    requires i <= |s|
    ensures i <= n <= |s|
    ensures n < |s| ==> SeparatorAt(s, n)
    decreases |s| - i
  {
    if i == |s| || SeparatorAt(s, i) then i else FindSeparator(s, i + 1)
  }

  lemma {:induction false} FindSeparatorIs(s: string, i: nat, n: nat)
    requires i <= n < |s| && SeparatorAt(s, n)
    requires forall k :: i <= k < n ==> !SeparatorAt(s, k)
    ensures FindSeparator(s, i) == n
    decreases n - i
  {
    if i < n {
      FindSeparatorIs(s, i + 1, n);
    }
  }

  /** An entry heading and the lines up to the next one. */
  datatype Group = Group(head: string, detail: seq<string>)

  /** A section's lines as groups, each led by a line that satisfies p; lines before the first such
      line belong to none. */
  function Groups(p: string -> bool, body: seq<string>): seq<Group> {
    if body == [] then []
    else if p(body[0]) then
      var n := First(p, body, 1);
      [Group(body[0], body[1..n])] + Groups(p, body[n..])
    else Groups(p, body[1..])
  }

  /** What follows the dash of the separator at i. */
  function AfterSeparator(s: string, i: nat): string
    requires SeparatorAt(s, i)
  {
    s[i + Leading(s[i..]) + 1..]
  }

  /** The date and the summary of an entry heading. */
  function Fields(head: string): (string, string) {
    var text := HeadText(head);
    var i := FindSeparator(text, 0);
    if i == |text| then ("", Trim(text)) else (Trim(text[..i]), Trim(AfterSeparator(text, i)))
  }

  function Show(g: Group): Shown {
    var (date, summary) := Fields(g.head);
    Shown(date, summary, Trim(Join(g.detail)))
  }

  function ShowAll(gs: seq<Group>): (r: seq<Shown>)
    ensures |r| == |gs| && forall i :: 0 <= i < |gs| ==> r[i] == Show(gs[i])
  {
    seq(|gs|, i requires 0 <= i < |gs| => Show(gs[i]))
  }

  function Entries(body: seq<string>): seq<Shown> { ShowAll(Groups(IsHead, body)) }

  function Body(ls: seq<string>): seq<string> {
    var h := FindHeading(ls);
    if h == |ls| then [] else ls[h + 1..First(IsBreak, ls, h + 1)]
  }

  function Timeline(md: string): seq<Shown> { Entries(Body(ReaderLines(md))) }

  /** A heading starts afresh: what precedes it and what it starts are grouped separately. */
  lemma {:induction false} GroupsConcat(p: string -> bool, a: seq<string>, b: seq<string>)
    requires b != [] && p(b[0])
    ensures Groups(p, a + b) == Groups(p, a) + Groups(p, b)
    decreases |a|
  {
    if a == [] {
      assert a + b == b;
    } else if p(a[0]) {
      var n := First(p, a, 1);
      FirstConcat(p, a, b, 1);
      assert (a + b)[1..n] == a[1..n] && (a + b)[n..] == a[n..] + b;
      GroupsConcat(p, a[n..], b);
      Seqs.Assoc([Group(a[0], a[1..n])], Groups(p, a[n..]), Groups(p, b));
    } else {
      assert (a + b)[1..] == a[1..] + b;
      GroupsConcat(p, a[1..], b);
    }
  }

  lemma EntriesConcat(a: seq<string>, b: seq<string>)
    requires b != [] && IsHead(b[0])
    ensures Entries(a + b) == Entries(a) + Entries(b)
  {
    GroupsConcat(IsHead, a, b);
  }

  /** The groups with more lines in the last one. */
  function Extend(gs: seq<Group>, ls: seq<string>): seq<Group> {
    var n := |gs| - 1;
    if gs == [] then [] else gs[..n] + [gs[n].(detail := gs[n].detail + ls)]
  }

  lemma ExtendCons(g: Group, gs: seq<Group>, ls: seq<string>)
    requires gs != []
    ensures Extend([g] + gs, ls) == [g] + Extend(gs, ls)
  {
  }

  lemma {:induction false} GroupsNone(p: string -> bool, b: seq<string>)
    requires forall i :: 0 <= i < |b| ==> !p(b[i])
    ensures Groups(p, b) == []
  {
    if b != [] {
      GroupsNone(p, b[1..]);
    }
  }

  lemma GroupsOne(p: string -> bool, s: seq<string>)
    requires s != [] && p(s[0]) && forall i :: 1 <= i < |s| ==> !p(s[i])
    ensures Groups(p, s) == [Group(s[0], s[1..])]
  {
    FirstIs(p, s, 1, |s|);
    assert s[1..|s|] == s[1..] && s[|s|..] == [];
  }

  /** Lines without a heading go to the last group. */
  lemma {:induction false} GroupsPlain(p: string -> bool, a: seq<string>, b: seq<string>)
    requires forall i :: 0 <= i < |b| ==> !p(b[i])
    ensures Groups(p, a + b) == Extend(Groups(p, a), b)
    decreases |a|
  {
    if a == [] {
      assert a + b == b;
      GroupsNone(p, b);
    } else if p(a[0]) {
      var n := First(p, a, 1);
      if n < |a| {
        FirstConcat(p, a, b, 1);
        assert (a + b)[1..n] == a[1..n] && (a + b)[n..] == a[n..] + b;
        GroupsPlain(p, a[n..], b);
        ExtendCons(Group(a[0], a[1..n]), Groups(p, a[n..]), b);
      } else {
        GroupsOne(p, a);
        GroupsOne(p, a + b);
        assert (a + b)[1..] == a[1..] + b;
      }
    } else {
      assert (a + b)[1..] == a[1..] + b;
      GroupsPlain(p, a[1..], b);
    }
  }

  lemma BlankIsPlain(l: string)
    requires IsBlank(l)
    ensures !IsHead(l) && !IsBreak(l) && IsBlank(StripReturn(l))
  {
    BlankSpec(l);
    if l != [] { assert IsSpace(l[0]); }
    BlankSpec(StripReturn(l));
  }

  lemma BlanksArePlain(blanks: seq<string>)
    requires AllBlank(blanks)
    ensures forall i :: 0 <= i < |blanks| ==> !IsHead(blanks[i])
  {
    forall i | 0 <= i < |blanks| ensures !IsHead(blanks[i]) { BlankIsPlain(blanks[i]); }
  }

  lemma ExtendAt(gs: seq<Group>, ls: seq<string>, i: nat)
    requires i < |gs|
    ensures |Extend(gs, ls)| == |gs|
    ensures Extend(gs, ls)[i] == if i == |gs| - 1 then gs[i].(detail := gs[i].detail + ls) else gs[i]
  {
  }

  lemma ShowExtended(gs: seq<Group>, blanks: seq<string>)
    requires AllBlank(blanks)
    ensures ShowAll(Extend(gs, blanks)) == ShowAll(gs)
  {
    var more := Extend(gs, blanks);
    if gs != [] { ExtendAt(gs, blanks, 0); }
    forall i | 0 <= i < |gs| ensures ShowAll(more)[i] == ShowAll(gs)[i] {
      ExtendAt(gs, blanks, i);
      BlankDetail(gs[i], blanks);
    }
  }

  /** Blank lines at the end of a section are not part of any entry. */
  lemma EntriesBlank(a: seq<string>, blanks: seq<string>)
    requires AllBlank(blanks)
    ensures Entries(a + blanks) == Entries(a)
  {
    BlanksArePlain(blanks);
    GroupsPlain(IsHead, a, blanks);
    ShowExtended(Groups(IsHead, a), blanks);
  }

  lemma BlankDetail(g: Group, blanks: seq<string>)
    requires AllBlank(blanks)
    ensures Show(g.(detail := g.detail + blanks)) == Show(g)
  {
    TrimJoinBlank(g.detail, blanks);
  }
}
