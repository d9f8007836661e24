/**
 Amending appends exactly one entry to the timeline, and it does so exactly when the writer and
 the reader agree on where the section ends.
 */
module TimelineProofs {
  import opened Lines
  import opened Amend
  import opened AmendReader
  import opened AmendProofs
  import Seqs

  function Stripped(ls: seq<string>): seq<string> { MapLines(StripReturn, ls) }

  lemma StrippedConcat(a: seq<string>, b: seq<string>)
    ensures Stripped(a + b) == Stripped(a) + Stripped(b)
  {
  }

  /** The text does not end in a carriage return without its newline. */
  predicate CleanEnd(plan: string) { plan == "" || plan[|plan| - 1] != '\r' }

  lemma ReaderLinesAre(plan: string)
    requires CleanEnd(plan)
    ensures ReaderLines(plan) == Stripped(Split(plan))
  {
    SplitLast(plan);
    LastUnstripped(Split(plan), |Split(plan)| - 1);
  }

  lemma LastUnstripped(ls: seq<string>, n: nat)
    requires |ls| == n + 1 && StripReturn(ls[n]) == ls[n]
    ensures Stripped(ls) == Stripped(ls[..n]) + [ls[n]]
  {
  }

  /** White space at the end of a line does not decide whether it is the section's heading. */
  lemma HeadingTail(m: string, y: string)
    requires IsBlank(y)
    ensures IsHeading(m + y) <==> IsHeading(m)
  {
    BlankSpec(y);
    if |m| > 2 {
      assert (m + y)[2..] == m[2..] + y;
      assert (m + y)[..2] == m[..2];
      TrimBlankTail(m[2..], y);
    } else if |m| == 2 {
      assert (m + y)[2..] == "" + y;
      TrimBlankTail("", y);
    } else if |m + y| >= 2 {
      assert (m + y)[1] == y[1 - |m|];
      assert (m + y)[..2][1] == (m + y)[1];
    }
  }

  lemma HeadingStripped(l: string)
    ensures IsHeading(StripReturn(l)) <==> IsHeading(l)
  {
    if StripReturn(l) != l {
      assert l == StripReturn(l) + "\r";
      HeadingTail(StripReturn(l), "\r");
    }
  }

  lemma HeadingTrimmed(l: string)
    ensures IsHeading(TrimEnd(l)) <==> IsHeading(l)
  {
    var y := l[Trailing(l)..];
    TrailingSpec(l);
    BlankSpec(y);
    assert l == TrimEnd(l) + y;
    HeadingTail(TrimEnd(l), y);
  }

  lemma FindHeadingStripped(ls: seq<string>)
    ensures FindHeading(Stripped(ls)) == FindHeading(ls)
  {
    var h := FindHeading(ls);
    forall i | 0 <= i < |ls| ensures IsHeading(Stripped(ls)[i]) <==> IsHeading(ls[i]) {
      HeadingStripped(ls[i]);
    }
    FirstIs(IsHeading, Stripped(ls), 0, h);
  }

  /** A line that ends the section for the reader. */
  predicate Breaks(l: string) { IsBreak(StripReturn(l)) }

  /** Where the reader stops reading the section. */
  function ReaderEnd(ls: seq<string>, k: nat): nat
    requires k <= |ls|
  {
    First(Breaks, ls, k)
  }

  /** The writer and the reader end the section at the same line. */
  predicate EndsAgree(ls: seq<string>, h: nat)
    requires h < |ls|
  {
    ReaderEnd(ls, h + 1) == SectionEnd(ls, h + 1)
  }

  lemma {:induction false} ReaderEndStripped(ls: seq<string>, k: nat)
    requires k <= |ls|
    ensures First(IsBreak, Stripped(ls), k) == ReaderEnd(ls, k)
    decreases |ls| - k
  {
    if k < |ls| && !Breaks(ls[k]) {
      ReaderEndStripped(ls, k + 1);
    }
  }

  lemma BodyStripped(ls: seq<string>, h: nat)
    requires h == FindHeading(ls) < |ls|
    ensures Body(Stripped(ls)) == Stripped(ls[h + 1..ReaderEnd(ls, h + 1)])
  {
    FindHeadingStripped(ls);
    ReaderEndStripped(ls, h + 1);
    var n := ReaderEnd(ls, h + 1);
    assert Stripped(ls)[h + 1..n] == Stripped(ls[h + 1..n]);
  }

  /** The section of a plan whose heading is line h, as far as the reader reads it. */
  lemma TimelineIs(plan: string, h: nat, n: nat)
    requires CleanEnd(plan) && h == FindHeading(Split(plan)) < |Split(plan)|
    requires n == ReaderEnd(Split(plan), h + 1)
    ensures Timeline(plan) == Entries(Stripped(Split(plan)[h + 1..n]))
  {
    ReaderLinesAre(plan);
    BodyStripped(Split(plan), h);
  }

  /** No line has the property q. */
  ghost predicate Lacks(q: string -> bool, s: seq<string>) { forall i :: 0 <= i < |s| ==> !q(s[i]) }

  // ---- the lines of an entry, for the reader ----

  /** A line that does not start with a hash is no heading of any kind. */
  lemma NotHash(l: string)
    requires !StartsWith(l, "#")
    ensures !IsHead(StripReturn(l)) && !Breaks(l) && !IsBoundary(l) && !IsHeading(l)
  {
    if |l| >= 2 { assert l[..2][0] == l[..1][0]; }
    if |l| >= 3 { assert l[..3][0] == l[..1][0]; }
    if StripReturn(l) != l { assert StripReturn(l) <= l; }
    HashPrefix(l);
    HashPrefix(StripReturn(l));
  }

  lemma HashPrefix(l: string)
    ensures StartsWith(l, "##") || StartsWith(l, "###") || StartsWith(l, "# ") || StartsWith(l, "## ") ==>
              StartsWith(l, "#")
  {
    if |l| >= 1 {
      assert l[..1] == [l[0]];
      if |l| >= 2 { assert l[..2][0] == l[0]; }
      if |l| >= 3 { assert l[..3][0] == l[0]; }
    }
  }

  lemma HeadKept(date: string, summary: string)
    requires IsoDate(date) && OneLine(summary)
    ensures StripReturn(EntryHead(date, summary)) == EntryHead(date, summary)
    ensures !Breaks(EntryHead(date, summary)) && !IsBoundary(EntryHead(date, summary))
              && !IsHeading(EntryHead(date, summary))
  {
    var head := EntryHead(date, summary);
    HeadHasNoNewline(date, summary);
    assert !IsTerminator(head[|head| - 1]);
    assert head[..2] == "##" && head[2] == '#' && head[..3] == "###";
  }

  lemma BlockReads(date: string, summary: string, detail: string)
    requires IsoDate(date) && OneLine(summary)
    ensures var b := Stripped(Block(date, summary, detail));
            && IsHead(b[0]) && Groups(IsHead, b) == [Group(b[0], b[1..])]
            && Show(Group(b[0], b[1..])) == Expected(date, summary, detail)
  {
    var head, tail := EntryHead(date, summary), Stripped(DetailLines(detail));
    DetailFacts(detail);
    HeadKept(date, summary);
    StrippedConcat([head], DetailLines(detail));
    assert Stripped([head]) == [head];
    HeadReadsBack(date, summary, tail);
    forall i | 0 <= i < |tail| ensures !IsHead(tail[i]) {
      NotHash(DetailLines(detail)[i]);
    }
    assert ([head] + tail)[1..] == tail;
    GroupsOne(IsHead, [head] + tail);
  }

  lemma BlockIsQuiet(date: string, summary: string, detail: string)
    requires IsoDate(date) && OneLine(summary)
    ensures Lacks(Breaks, Block(date, summary, detail)) && Lacks(IsBoundary, Block(date, summary, detail))
  {
    DetailFacts(detail);
    HeadKept(date, summary);
    forall i | 0 <= i < |DetailLines(detail)|
      ensures !Breaks(DetailLines(detail)[i]) && !IsBoundary(DetailLines(detail)[i])
                && !IsHeading(DetailLines(detail)[i])
    {
      NotHash(DetailLines(detail)[i]);
    }
  }

  /** A section with the entry after its last line reads as before, and then the entry. */
  lemma EntryAppended(
    a: seq<string>, before: seq<string>, date: string, summary: string, detail: string, after: seq<string>)
    requires IsoDate(date) && OneLine(summary) && AllBlank(before) && AllBlank(after)
    ensures var b := Block(date, summary, detail);
            Entries(Stripped((a + [""]) + (b + after)))
              == Entries(Stripped(a + before)) + [Expected(date, summary, detail)]
  {
    var b := Block(date, summary, detail);
    StrippedConcat(a + [""], b + after);
    StrippedConcat(a, [""]);
    StrippedConcat(b, after);
    StrippedConcat(a, before);
    StrippedBlank([""]);
    StrippedBlank(after);
    StrippedBlank(before);
    BlockReads(date, summary, detail);
    EntriesConcat(Stripped(a) + Stripped([""]), Stripped(b) + Stripped(after));
    EntriesBlank(Stripped(a), Stripped([""]));
    EntriesBlank(Stripped(a), Stripped(before));
    EntriesBlank(Stripped(b), Stripped(after));
    OneShown(Groups(IsHead, Stripped(b))[0]);
  }

  lemma OneShown(g: Group)
    ensures ShowAll([g]) == [Show(g)]
  {
  }

  lemma StrippedBlank(ls: seq<string>)
    requires AllBlank(ls)
    ensures AllBlank(Stripped(ls))
  {
    forall i | 0 <= i < |ls| ensures IsBlank(Stripped(ls)[i]) {
      BlankIsPlain(ls[i]);
    }
  }

  // ---- the new lines ----

  /** A level-two heading keeps ending the section when white space at its end is trimmed. */
  lemma BoundaryTrimmed(l: string, x: string)
    requires IsBoundary(l) && (x == l || x == TrimEnd(l))
    ensures IsBoundary(x) && (Breaks(l) ==> Breaks(x))
  {
    TrailingSpec(l);
    var k := if StartsWith(l, "## ") then 3 else 2;
    assert !IsSpace(l[k]) by { if StartsWith(l, "## ") { assert l[..2] == "##"; } }
    assert Trailing(l) > k;
    assert x[..k] == l[..k] && x[k] == l[k];
    var y, m := StripReturn(x), StripReturn(l);
    assert |y| > k && y[..k] == l[..k];
  }

  /** Where the section ends in the new lines. */
  function NewEnd(ls: seq<string>, h: nat, b: seq<string>): nat
    requires h < |ls|
  {
    EntryPoint(ls, h) + 1 + |b| + |Gap(ls, EntryPoint(ls, h), SectionEnd(ls, h + 1))|
  }

  lemma NewLinesShape(ls: seq<string>, h: nat, b: seq<string>)
    requires h < |ls|
    ensures var e, at := SectionEnd(ls, h + 1), EntryPoint(ls, h);
            var out, n := NewLines(ls, h, b), NewEnd(ls, h, b);
            && h < at <= e && at < n <= |out|
            && out[..at] == ls[..at]
            && out[h + 1..n] == (ls[h + 1..at] + [""]) + (b + Gap(ls, at, e))
  {
    var e, at := SectionEnd(ls, h + 1), EntryPoint(ls, h);
    Spliced(ls[..at], b, Gap(ls, at, e), Remainder(ls, e), h + 1);
    assert ls[..at][h + 1..] == ls[h + 1..at];
  }

  lemma Spliced(a: seq<string>, b: seq<string>, c: seq<string>, d: seq<string>, k: nat)
    requires k <= |a|
    ensures var s, n := a + (([""] + b) + (c + d)), |a| + 1 + |b| + |c|;
            && n <= |s| && s[..|a|] == a && s[k..n] == (a[k..] + [""]) + (b + c)
            && |s| == n + |d| && (d != [] ==> s[n] == d[0])
  {
    Seqs.Regroup(a, [""], b, c, d);
    Seqs.Middle(a, [""], b + c, d, k);
  }

  lemma FirstSpliced(q: string -> bool, a: seq<string>, b: seq<string>, c: seq<string>, d: seq<string>, k: nat)
    requires k <= |a| && First(q, a, k) == |a|
    requires !q("") && Lacks(q, b) && Lacks(q, c) && (d != [] ==> q(d[0]))
    ensures First(q, a + (([""] + b) + (c + d)), k) == |a| + 1 + |b| + |c|
  {
    var s, n := a + (([""] + b) + (c + d)), |a| + 1 + |b| + |c|;
    Spliced(a, b, c, d, k);
    forall i | k <= i < n ensures !q(s[i]) {
      assert s[i] == s[k..n][i - k];
      QuietParts(q, a[k..], b, c, i - k);
    }
    FirstIs(q, s, k, n);
  }

  lemma QuietParts(q: string -> bool, x: seq<string>, b: seq<string>, c: seq<string>, i: nat)
    requires !q("") && Lacks(q, x) && Lacks(q, b) && Lacks(q, c)
    requires i < |(x + [""]) + (b + c)|
    ensures !q(((x + [""]) + (b + c))[i])
  {
  }

  lemma {:induction false} FirstPrefix(q: string -> bool, s: seq<string>, k: nat, n: nat)
    requires k <= |s| && k <= n <= First(q, s, k)
    ensures First(q, s[..n], k) == n
  {
    FirstIs(q, s[..n], k, n);
  }

  /** A property that first holds where the section ends first holds where the new section ends. */
  lemma FirstNew(q: string -> bool, ls: seq<string>, h: nat, b: seq<string>)
    requires h < |ls| && First(q, ls, h + 1) == SectionEnd(ls, h + 1)
    requires !q("") && Lacks(q, b)
    requires SectionEnd(ls, h + 1) < |ls| ==> q(TrimLines(ls[SectionEnd(ls, h + 1)..])[0])
    ensures First(q, NewLines(ls, h, b), h + 1) == NewEnd(ls, h, b)
  {
    var e, at := SectionEnd(ls, h + 1), EntryPoint(ls, h);
    FirstPrefix(q, ls, h + 1, at);
    assert Lacks(q, Gap(ls, at, e));
    FirstSpliced(q, ls[..at], b, Gap(ls, at, e), Remainder(ls, e), h + 1);
  }

  lemma NewHeading(ls: seq<string>, h: nat, b: seq<string>)
    requires h == FindHeading(ls) < |ls|
    ensures FindHeading(NewLines(ls, h, b)) == h
  {
    var at, out := EntryPoint(ls, h), NewLines(ls, h, b);
    NewLinesShape(ls, h, b);
    forall i | 0 <= i <= h ensures out[i] == ls[i] {
      assert out[..at][i] == ls[..at][i];
    }
    FirstIs(IsHeading, out, 0, h);
  }

  lemma EmptyIsQuiet()
    ensures !Breaks("") && !IsBoundary("") && !IsHeading("")
  {
  }

  lemma NewEndsAgree(ls: seq<string>, h: nat, b: seq<string>)
    requires h < |ls| && EndsAgree(ls, h) && Lacks(Breaks, b) && Lacks(IsBoundary, b)
    ensures h < NewEnd(ls, h, b) && h < |NewLines(ls, h, b)|
    ensures SectionEnd(NewLines(ls, h, b), h + 1) == NewEnd(ls, h, b)
    ensures ReaderEnd(NewLines(ls, h, b), h + 1) == NewEnd(ls, h, b)
  {
    var e := SectionEnd(ls, h + 1);
    NewLinesShape(ls, h, b);
    EmptyIsQuiet();
    if e < |ls| {
      FirstTrimmed(ls[e..]);
      BoundaryTrimmed(ls[e], TrimLines(ls[e..])[0]);
    }
    FirstNew(IsBoundary, ls, h, b);
    FirstNew(Breaks, ls, h, b);
  }

  /** The plan's timeline can be appended to: it has no section, or writer and reader agree on its end. */
  ghost predicate Settled(plan: string) {
    && CleanEnd(plan)
    && var ls := Split(plan);
       FindHeading(ls) < |ls| ==> EndsAgree(ls, FindHeading(ls))
  }

  /** The lines before the entry, the blank lines it displaces, and the blank lines after it. */
  function Kept(ls: seq<string>, h: nat): seq<string>
    requires h < |ls|
  {
    var at := EntryPoint(ls, h);
    if h < at then ls[h + 1..at] else []
  }

  function Displaced(ls: seq<string>, h: nat): seq<string>
    requires h < |ls|
  {
    var e, at := SectionEnd(ls, h + 1), EntryPoint(ls, h);
    if at <= e then ls[at..e] else []
  }

  function Followed(ls: seq<string>, h: nat): seq<string>
    requires h < |ls|
  {
    Gap(ls, EntryPoint(ls, h), SectionEnd(ls, h + 1))
  }

  lemma BlankSlice(ls: seq<string>, at: nat, e: nat)
    requires at <= e <= |ls| && forall i :: at <= i < e ==> IsBlank(ls[i])
    ensures AllBlank(ls[at..e])
  {
  }

  lemma EntryPointSpec(ls: seq<string>, h: nat)
    requires h < |ls|
    ensures h < EntryPoint(ls, h) <= SectionEnd(ls, h + 1) <= |ls|
    ensures AllBlank(ls[EntryPoint(ls, h)..SectionEnd(ls, h + 1)])
  {
    BlankSlice(ls, EntryPoint(ls, h), SectionEnd(ls, h + 1));
  }

  lemma PartsAre(ls: seq<string>, h: nat)
    requires h < |ls|
    ensures ls[h + 1..SectionEnd(ls, h + 1)] == Kept(ls, h) + Displaced(ls, h)
    ensures AllBlank(Displaced(ls, h)) && AllBlank(Followed(ls, h))
  {
    EntryPointSpec(ls, h);
    Seqs.Halves(ls, h + 1, EntryPoint(ls, h), SectionEnd(ls, h + 1));
    GapBlank(ls, EntryPoint(ls, h), SectionEnd(ls, h + 1));
  }

  lemma GapBlank(ls: seq<string>, at: nat, e: nat)
    requires at <= e <= |ls| && AllBlank(ls[at..e])
    ensures AllBlank(Gap(ls, at, e))
  {
  }

  lemma OldTimeline(plan: string, ls: seq<string>, h: nat)
    requires CleanEnd(plan) && ls == Split(plan) && h == FindHeading(ls) < |ls| && EndsAgree(ls, h)
    ensures Timeline(plan) == Entries(Stripped(Kept(ls, h) + Displaced(ls, h)))
  {
    TimelineIs(plan, h, SectionEnd(ls, h + 1));
    PartsAre(ls, h);
  }

  lemma NewTimeline(out: string, ls: seq<string>, h: nat, b: seq<string>)
    requires h == FindHeading(ls) < |ls| && EndsAgree(ls, h)
    requires Lacks(Breaks, b) && Lacks(IsBoundary, b)
    requires CleanEnd(out) && Split(out) == NewLines(ls, h, b)
    ensures Settled(out)
    ensures Timeline(out) == Entries(Stripped((Kept(ls, h) + [""]) + (b + Followed(ls, h))))
  {
    NewHeading(ls, h, b);
    NewEndsAgree(ls, h, b);
    NewLinesShape(ls, h, b);
    TimelineIs(out, h, NewEnd(ls, h, b));
  }

  lemma SectionAppends(plan: string, date: string, summary: string, detail: string, out: string)
    requires IsoDate(date) && OneLine(summary)
    requires Settled(plan) && FindHeading(Split(plan)) < |Split(plan)|
    requires CleanEnd(out)
    requires Split(out) == NewLines(Split(plan), FindHeading(Split(plan)), Block(date, summary, detail))
    ensures Settled(out)
    ensures Timeline(out) == Timeline(plan) + [Expected(date, summary, detail)]
  {
    var ls := Split(plan);
    var h := FindHeading(ls);
    BlockIsQuiet(date, summary, detail);
    OldTimeline(plan, ls, h);
    NewTimeline(out, ls, h, Block(date, summary, detail));
    PartsAre(ls, h);
    EntryAppended(Kept(ls, h), Displaced(ls, h), date, summary, detail, Followed(ls, h));
  }

  // ---- the first amendment ----

  lemma {:induction false} TrimLinesHeading(ls: seq<string>, i: nat)
    requires ls != [] && i < |TrimLines(ls)| && forall k :: 0 <= k < |ls| ==> !IsHeading(ls[k])
    ensures !IsHeading(TrimLines(ls)[i])
  {
    var n := |ls| - 1;
    if n > 0 && IsBlank(ls[n]) {
      TrimLinesHeading(ls[..n], i);
    } else {
      HeadingTrimmed(ls[n]);
    }
  }

  lemma BaseHasNoHeading(plan: string)
    requires FindHeading(Split(plan)) == |Split(plan)|
    ensures forall i :: 0 <= i < |Split(TrimEnd(plan))| ==> !IsHeading(Split(TrimEnd(plan))[i])
  {
    var ls := Split(plan);
    JoinSplit(plan);
    TrimJoin(ls);
    TrimLinesPlain(ls);
    SplitJoin(TrimLines(ls));
    forall i | 0 <= i < |TrimLines(ls)| ensures !IsHeading(TrimLines(ls)[i]) {
      TrimLinesHeading(ls, i);
    }
  }

  /** What precedes the new section. */
  function BaseLines(base: string): seq<string> { if base == "" then [] else Split(base) + [""] }

  /** The plan's lines after its first amendment. */
  function FirstLines(x: seq<string>, heading: string, b: seq<string>): seq<string> {
    x + ([heading] + (([""] + b) + [""]))
  }

  lemma FirstUseLinesAre(all: seq<string>, heading: string, base: string, entry: string, b: seq<string>)
    requires all == FirstUseLines(heading, base, entry) && !HasNewline(heading)
    requires b == Split(entry) && Tight(b) && !IsBlank(b[0])
    ensures Split(TrimEnd(Join(all)) + "\n") == FirstLines(BaseLines(base), heading, b)
  {
    FirstUseUnfolds(heading, base, entry);
    FirstLinesAre(all, BaseLines(base), heading, entry, b);
  }

  lemma FirstUseUnfolds(heading: string, base: string, entry: string)
    ensures FirstUseLines(heading, base, entry) == (BaseLines(base) + [heading, ""]) + (Split(entry) + [""])
    ensures forall i :: 0 <= i < |BaseLines(base)| ==> !HasNewline(BaseLines(base)[i])
  {
    Seqs.Assoc(BaseLines(base), [heading, ""], Split(entry) + [""]);
  }

  lemma FirstLinesAre(all: seq<string>, x: seq<string>, heading: string, entry: string, b: seq<string>)
    requires !HasNewline(heading) && forall i :: 0 <= i < |x| ==> !HasNewline(x[i])
    requires b == Split(entry) && Tight(b) && !IsBlank(b[0])
    requires all == (x + [heading, ""]) + (b + [""])
    ensures Split(TrimEnd(Join(all)) + "\n") == FirstLines(x, heading, b)
  {
    FirstUsePlain(x, heading, b, entry);
    SplitTrimmed(all);
    SectionTrimmed(x, heading, b);
  }

  lemma FirstUsePlain(x: seq<string>, heading: string, b: seq<string>, entry: string)
    requires b == Split(entry) && !HasNewline(heading) && forall i :: 0 <= i < |x| ==> !HasNewline(x[i])
    ensures var all := (x + [heading, ""]) + (b + [""]); forall i :: 0 <= i < |all| ==> !HasNewline(all[i])
  {
  }

  lemma SectionTrimmed(x: seq<string>, heading: string, b: seq<string>)
    requires Tight(b) && !IsBlank(b[0])
    ensures TrimLines((x + [heading, ""]) + (b + [""])) + [""] == FirstLines(x, heading, b)
  {
    TrimLinesSuffix(x + [heading, ""], b + [""], 0);
    TightThenBlank(b, [""]);
    Seqs.Assoc(x, [heading, ""], b);
    Seqs.Assoc(x, [heading, ""] + b, [""]);
    assert [heading, ""] == [heading] + [""];
    Seqs.Assoc([heading], [""], b);
    Seqs.Assoc([heading], [""] + b, [""]);
  }

  lemma FirstUseShape(x: seq<string>, heading: string, b: seq<string>, q: string -> bool)
    requires !q("") && Lacks(q, b)
    ensures var ls := FirstLines(x, heading, b);
            && ls[|x|] == heading && ls[..|x|] == x && ls[|x| + 1..] == ([""] + b) + [""]
            && First(q, ls, |x| + 1) == |ls|
  {
    var ls, tail := FirstLines(x, heading, b), ([""] + b) + [""];
    Seqs.Join3(x, heading, tail);
    forall i | |x| < i < |ls| ensures !q(ls[i]) {
      assert ls[i] == ls[|x| + 1..][i - (|x| + 1)];
    }
    FirstIs(q, ls, |x| + 1, |ls|);
  }

  lemma FirstUseSettled(out: string, x: seq<string>, heading: string, b: seq<string>)
    requires CleanEnd(out) && IsHeading(heading) && Lacks(IsHeading, x)
    requires Lacks(Breaks, b) && Lacks(IsBoundary, b)
    requires Split(out) == FirstLines(x, heading, b)
    ensures Settled(out)
    ensures Timeline(out) == Entries(Stripped(([""] + b) + [""]))
  {
    var ls, h := FirstLines(x, heading, b), |x|;
    EmptyIsQuiet();
    FirstUseShape(x, heading, b, Breaks);
    FirstUseShape(x, heading, b, IsBoundary);
    FirstHeading(ls, x, heading);
    TimelineIs(out, h, |ls|);
    assert ls[h + 1..|ls|] == ls[h + 1..];
  }

  lemma FirstHeading(ls: seq<string>, x: seq<string>, heading: string)
    requires |x| < |ls| && ls[..|x|] == x && ls[|x|] == heading && IsHeading(heading)
    requires Lacks(IsHeading, x)
    ensures FindHeading(ls) == |x|
  {
    forall i | 0 <= i < |x| ensures !IsHeading(ls[i]) {
      assert ls[i] == ls[..|x|][i];
    }
    FirstIs(IsHeading, ls, 0, |x|);
  }

  lemma FirstUseTimeline(out: string, x: seq<string>, heading: string, date: string, summary: string, detail: string)
    requires IsoDate(date) && OneLine(summary) && CleanEnd(out) && IsHeading(heading)
    requires Lacks(IsHeading, x)
    requires Split(out) == FirstLines(x, heading, Block(date, summary, detail))
    ensures Settled(out)
    ensures Timeline(out) == [Expected(date, summary, detail)]
  {
    var b := Block(date, summary, detail);
    BlockIsQuiet(date, summary, detail);
    FirstUseSettled(out, x, heading, b);
    EntryAppended([], [], date, summary, detail, [""]);
    Seqs.Assoc([""], b, [""]);
    assert [] + [""] == [""];
    NothingShown();
  }

  lemma NothingShown()
    ensures Entries(Stripped([] + [])) == []
  {
    assert Stripped([] + []) == [];
  }

  lemma HeadingOf(l: string, t: string)
    requires l == "## " + t && t == TITLE
    requires t != "" && !IsSpace(t[0]) && !IsSpace(t[|t| - 1])
    ensures IsHeading(l)
  {
    assert l[..2] == "##";
    assert l[2..] == " " + t;
    TrimSpaced(t);
    TrimClean(t);
  }

  /** A plan without the section shows no timeline. */
  lemma NoSection(plan: string)
    requires CleanEnd(plan) && FindHeading(Split(plan)) == |Split(plan)|
    ensures Timeline(plan) == []
  {
    ReaderLinesAre(plan);
    FindHeadingStripped(Split(plan));
  }

  lemma EndsInNewline(t: string)
    ensures CleanEnd(t + "\n")
  {
  }

  /** One accepted amendment of a settled plan appends its entry to the timeline, after all others,
      and leaves the plan settled. */
  lemma AmendAppends(plan: string, date: string, summary: string, detail: string)
    requires IsoDate(date) && OneLine(summary) && Settled(plan)
    ensures var out := AmendedText(plan, EntryText(date, summary, detail));
            Settled(out) && Timeline(out) == Timeline(plan) + [Expected(date, summary, detail)]
  {
    var entry, b := EntryText(date, summary, detail), Block(date, summary, detail);
    EntryLines(date, summary, detail);
    BlockTrimmed(date, summary, detail);
    EndsInNewline(TrimEnd(Join(AmendedLines(plan, entry))));
    if FindHeading(Split(plan)) == |Split(plan)| {
      AmendedFirst(plan, entry, b);
      HeadingOf(HEADING, TITLE);
      FirstAmendment(plan, HEADING, AmendedText(plan, entry), date, summary, detail);
    } else {
      AmendedLinesAre(plan, entry, b);
      SectionAppends(plan, date, summary, detail, AmendedText(plan, entry));
    }
  }

  lemma HeadingPlain()
    ensures !HasNewline(HEADING)
  {
  }

  lemma AmendedUnfolds(plan: string, entry: string)
    requires FindHeading(Split(plan)) == |Split(plan)|
    ensures AmendedLines(plan, entry) == FirstUseLines(HEADING, TrimEnd(plan), entry)
  {
  }

  lemma AmendedFirst(plan: string, entry: string, b: seq<string>)
    requires FindHeading(Split(plan)) == |Split(plan)|
    requires b == Split(entry) && Tight(b) && !IsBlank(b[0])
    ensures Split(AmendedText(plan, entry)) == FirstLines(BaseLines(TrimEnd(plan)), HEADING, b)
  {
    HeadingPlain();
    AmendedUnfolds(plan, entry);
    FirstUseLinesAre(AmendedLines(plan, entry), HEADING, TrimEnd(plan), entry, b);
  }

  lemma FirstAmendment(plan: string, heading: string, out: string, date: string, summary: string, detail: string)
    requires IsoDate(date) && OneLine(summary) && CleanEnd(plan) && CleanEnd(out)
    requires FindHeading(Split(plan)) == |Split(plan)| && IsHeading(heading)
    requires Split(out) == FirstLines(BaseLines(TrimEnd(plan)), heading, Block(date, summary, detail))
    ensures Settled(out) && Timeline(out) == Timeline(plan) + [Expected(date, summary, detail)]
  {
    BaseIsPlain(plan, TrimEnd(plan));
    FirstUseTimeline(out, BaseLines(TrimEnd(plan)), heading, date, summary, detail);
    NoSection(plan);
  }

  lemma BaseIsPlain(plan: string, base: string)
    requires base == TrimEnd(plan) && FindHeading(Split(plan)) == |Split(plan)|
    ensures Lacks(IsHeading, BaseLines(base))
  {
    BaseHasNoHeading(plan);
    EmptyIsQuiet();
  }
}
