/**
 When an amendment does not show up as the next entry: the writer ends the section at a level-one or
 level-two heading with exactly one space, the reader at two hashes and any white space.
 */
module AmendLimits {
  import opened Lines
  import opened Amend
  import opened AmendReader
  import opened AmendProofs
  import opened TimelineProofs
  import opened AmendTails
  import Seqs

  // ---- the reader stops before the new entry ----

  lemma BreakIsNotBlank(l: string)
    requires Breaks(l)
    ensures !IsBlank(l)
  {
    var m := StripReturn(l);
    assert m[0] == '#' by { assert m[..2][0] == m[0]; }
    BlankSpec(l);
    assert l[0] == m[0];
  }

  lemma SamePrefix(q: string -> bool, s: seq<string>, t: seq<string>, at: nat, k: nat)
    requires k <= |s| && at <= |s| && at <= |t| && s[..at] == t[..at] && First(q, s, k) < at
    ensures First(q, t, k) == First(q, s, k)
    ensures t[k..First(q, s, k)] == s[k..First(q, s, k)]
  {
    var n := First(q, s, k);
    forall i | 0 <= i <= n ensures t[i] == s[i] {
      assert s[..at][i] == t[..at][i];
    }
    FirstIs(q, t, k, n);
  }

  /** A line that ends the section for the reader but not for the writer hides the new entry. */
  lemma EntryHidden(plan: string, out: string, ls: seq<string>, h: nat, b: seq<string>)
    requires CleanEnd(plan) && CleanEnd(out) && ls == Split(plan)
    requires h == FindHeading(ls) < |ls| && Split(out) == NewLines(ls, h, b)
    requires ReaderEnd(ls, h + 1) < SectionEnd(ls, h + 1)
    ensures Timeline(out) == Timeline(plan)
  {
    var n := ReaderEnd(ls, h + 1);
    NewLinesShape(ls, h, b);
    BreakIsNotBlank(ls[n]);
    SamePrefix(Breaks, ls, Split(out), EntryPoint(ls, h), h + 1);
    NewHeading(ls, h, b);
    TimelineIs(plan, h, n);
    TimelineIs(out, h, n);
  }

  // ---- the reader runs past the writer's end ----

  lemma TrimmedShowGrows(g: Group, more: seq<string>, i: nat)
    requires i < |more| && !IsBlank(more[i])
    ensures |Show(g.(detail := g.detail + more)).detail| > |Show(g).detail|
  {
    TrimJoinGrows(g.detail, more, i);
  }

  /** Entries of plain lines and then whatever starts with a heading. */
  lemma EntriesSplit(k: seq<string>, y: seq<string>, c: seq<string>)
    requires Lacks(IsHead, y)
    requires c != [] ==> IsHead(c[0])
    ensures Entries(k + (y + c)) == ShowAll(Extend(Groups(IsHead, k), y)) + Entries(c)
  {
    Seqs.Assoc(k, y, c);
    GroupsPlain(IsHead, k, y);
    if c == [] {
      assert (k + y) + c == k + y;
    } else {
      EntriesConcat(k + y, c);
    }
  }

  lemma ExtendOne(g: Group, y: seq<string>)
    ensures ShowAll(Extend([g], y)) == [Show(g.(detail := g.detail + y))]
  {
  }

  lemma EntriesAround(k: seq<string>, b: seq<string>)
    requires b != [] && IsHead(b[0])
    ensures Entries((k + [""]) + b) == Entries(k) + Entries(b)
  {
    EntriesConcat(k + [""], b);
    EmptyIsBlank();
    EntriesBlank(k, [""]);
  }

  lemma EmptyIsBlank()
    ensures AllBlank([""])
  {
  }

  /** After an entry, the lines that were nobody's detail make its detail grow. */
  lemma NewestGrows(y: seq<string>, c: seq<string>, b: seq<string>, g: Group, j: nat)
    requires Lacks(IsHead, y) && j < |y| && !IsBlank(y[j])
    requires c != [] ==> IsHead(c[0])
    requires b != [] && IsHead(b[0]) && Groups(IsHead, b) == [g]
    ensures |Entries(b + (y + c))| == |Entries(c) + [Show(g)]|
    ensures Size(Entries(b + (y + c))) > Size(Entries(c) + [Show(g)])
  {
    var x := Show(g.(detail := g.detail + y));
    EntriesSplit(b, y, c);
    ExtendOne(g, y);
    TrimmedShowGrows(g, y, j);
    SizeConcat([x], Entries(c));
    SizeConcat(Entries(c), [Show(g)]);
    SizeOne(x);
    SizeOne(Show(g));
  }

  /** Lines after the writer's end that the reader still reads change which entry they belong to: the last
      one before the new entry loses them, or, if there is none, the new one gains them. */
  lemma EntriesShift(
    k: seq<string>, y: seq<string>, c: seq<string>, u: seq<string>, b: seq<string>, g: Group, j: nat)
    requires Lacks(IsHead, y) && j < |y| && !IsBlank(y[j])
    requires c != [] ==> IsHead(c[0])
    requires b != [] && IsHead(b[0]) && Groups(IsHead, b) == [g]
    requires NoLess(Entries(b + u), Entries(b + (y + c)))
    ensures Entries((k + [""]) + (b + u)) != Entries(k + (y + c)) + [Show(g)]
  {
    var gs := Groups(IsHead, k);
    EntriesSplit(k, y, c);
    BlockAround(k, b, u);
    if gs == [] {
      NewestGrows(y, c, b, g, j);
      assert ShowAll(gs) + Entries(b + u) == Entries(b + u);
      assert ShowAll(Extend(gs, y)) + Entries(c) == Entries(c);
    } else {
      LosesDetail(gs, y, j);
      LastDiffers(ShowAll(gs), ShowAll(Extend(gs, y)), Entries(b + u), Entries(c) + [Show(g)]);
      Seqs.Assoc(ShowAll(Extend(gs, y)), Entries(c), [Show(g)]);
    }
  }

  lemma BlockAround(k: seq<string>, b: seq<string>, u: seq<string>)
    requires b != [] && IsHead(b[0])
    ensures Entries((k + [""]) + (b + u)) == ShowAll(Groups(IsHead, k)) + Entries(b + u)
  {
    assert (b + u)[0] == b[0];
    EntriesAround(k, b + u);
  }

  lemma LosesDetail(gs: seq<Group>, y: seq<string>, j: nat)
    requires gs != [] && j < |y| && !IsBlank(y[j])
    ensures var n := |gs| - 1; |Extend(gs, y)| == |gs| && ShowAll(gs)[n] != ShowAll(Extend(gs, y))[n]
  {
    TrimmedShowGrows(gs[|gs| - 1], y, j);
  }

  lemma LastDiffers<T>(a: seq<T>, b: seq<T>, c: seq<T>, d: seq<T>)
    requires |a| == |b| > 0 && a[|a| - 1] != b[|b| - 1]
    ensures a + c != b + d
  {
    assert (a + c)[|a| - 1] == a[|a| - 1] && (b + d)[|b| - 1] == b[|b| - 1];
  }

  lemma LevelTwoBreaks(l: string)
    requires IsBoundary(l) && StartsWith(l, "## ")
    ensures Breaks(l)
  {
    var m := StripReturn(l);
    assert l[..2] == "##" && l[2] == ' ';
    assert |l| > 3 && !IsSpace(l[3]) by { assert l[1] == '#'; assert l[..2][1] == '#'; }
    assert m[..2] == l[..2] && m[2] == l[2];
  }

  lemma HeadSecond(l: string)
    ensures IsHead(l) ==> l[1] == '#'
  {
    if IsHead(l) { assert l[..3][1] == l[1]; }
  }

  /** A level-one heading is, for the reader, one more line of the last entry's detail. */
  lemma LevelOneIsDetail(l: string)
    requires IsBoundary(l) && !Breaks(l)
    ensures !IsHead(StripReturn(l)) && !IsBlank(StripReturn(l))
  {
    var m := StripReturn(l);
    BoundaryNotBlank(l);
    if StartsWith(l, "## ") { LevelTwoBreaks(l); }
    assert l[..2] == "# " && l[..2][1] == l[1] == ' ';
    HeadSecond(m);
    BlankSpec(m);
    assert m[0] == '#' && m[1] == ' ';
  }

  // ---- the lines before and after ----

  /** The end of the new lines: what followed the entry's place, trimmed at the end of the text. */
  lemma NewTail(ls: seq<string>, at: nat, e: nat) returns (p: nat)
    requires at <= e < |ls| && !IsBlank(ls[e])
    ensures var t := ls[at..];
            && p < |t| && !IsBlank(t[p]) && AllBlank(t[p + 1..])
            && Gap(ls, at, e) + Remainder(ls, e) == (t[..p] + [TrimEnd(t[p])]) + [""]
  {
    var t, n := ls[at..], e - at;
    assert t[n..] == ls[e..] && t[..n] == ls[at..e];
    var last := LastLine(ls[e..]);
    p := n + last;
    TailAt(t, n, last);
    TailJoin(t[..n], t[n..p], TrimEnd(t[p]));
  }

  lemma TailAt(t: seq<string>, n: nat, i: nat)
    requires n + i < |t|
    ensures t[n..][i] == t[n + i] && t[n..][..i] == t[n..n + i] && t[n..][i + 1..] == t[n + i + 1..]
    ensures t[..n + i] == t[..n] + t[n..n + i]
  {
  }

  lemma TailJoin(a: seq<string>, c: seq<string>, l: string)
    ensures a + ((c + [l]) + [""]) == ((a + c) + [l]) + [""]
  {
  }

  lemma FirstFrom(q: string -> bool, ls: seq<string>, k: nat, at: nat)
    requires k <= at <= |ls| && at <= First(q, ls, k)
    ensures First(q, ls[at..], 0) == First(q, ls, k) - at
    ensures ls[at..][..First(q, ls, k) - at] == ls[at..First(q, ls, k)]
  {
    FirstIs(q, ls[at..], 0, First(q, ls, k) - at);
  }

  /** Where the reader stops in lines that hold the entry, and what it has read of the section then. */
  lemma ReaderStops(a: seq<string>, h: nat, b: seq<string>, z: seq<string>, d: seq<string>, s: seq<string>)
    requires h < |a| && First(Breaks, a, h + 1) == |a| && s == a + (([""] + b) + (z + d))
    requires Lacks(Breaks, b) && Lacks(Breaks, z) && (d != [] ==> Breaks(d[0]))
    ensures var n := |a| + 1 + |b| + |z|;
            n <= |s| && ReaderEnd(s, h + 1) == n && s[h + 1..n] == (a[h + 1..] + [""]) + (b + z)
  {
    EmptyIsQuiet();
    FirstSpliced(Breaks, a, b, z, d, h + 1);
    Spliced(a, b, z, d, h + 1);
  }

  lemma TimelineBody(md: string, ls: seq<string>, h: nat, n: nat, body: seq<string>)
    requires CleanEnd(md) && ls == Split(md) && h == FindHeading(ls) < |ls|
    requires n == ReaderEnd(ls, h + 1) && body == ls[h + 1..n]
    ensures Timeline(md) == Entries(Stripped(body))
  {
    TimelineIs(md, h, n);
  }

  /** What the reader reads of the lines after the amendment. */
  lemma NewRunsOn(
    out: string, ls: seq<string>, h: nat, at: nat, b: seq<string>, z: seq<string>, d: seq<string>, s: seq<string>)
    requires CleanEnd(out) && s == Split(out) && h < at <= |ls| && at <= ReaderEnd(ls, h + 1)
    requires h == FindHeading(s) < |s| && s == ls[..at] + (([""] + b) + (z + d))
    requires Lacks(Breaks, b) && Lacks(Breaks, z) && (d != [] ==> Breaks(d[0]))
    ensures Timeline(out) == Entries(Stripped((ls[h + 1..at] + [""]) + (b + z)))
  {
    FirstPrefix(Breaks, ls, h + 1, at);
    ReaderStops(ls[..at], h, b, z, d, s);
    assert ls[..at][h + 1..] == ls[h + 1..at];
    TimelineBody(out, s, h, at + 1 + |b| + |z|, (ls[h + 1..at] + [""]) + (b + z));
  }

  lemma OldRunsOn(plan: string, ls: seq<string>, h: nat, at: nat, r: nat)
    requires CleanEnd(plan) && ls == Split(plan) && h == FindHeading(ls) < |ls|
    requires r == ReaderEnd(ls, h + 1) && h < at <= r
    ensures Timeline(plan) == Entries(Stripped(ls[h + 1..at] + ls[at..r]))
  {
    Seqs.Halves(ls, h + 1, at, r);
    TimelineIs(plan, h, r);
  }

  /** The lines of one entry, which the reader shows as given. */
  ghost predicate ReadsAs(b: seq<string>, shown: Shown) {
    && b != [] && Lacks(Breaks, b)
    && var s := Stripped(b);
       && IsHead(s[0])
       && Groups(IsHead, s) == [Group(s[0], s[1..])]
       && Show(Group(s[0], s[1..])) == shown
  }

  lemma PlainUntil(tail: seq<string>, j: nat)
    requires j < |tail| && !IsHead(StripReturn(tail[j])) && AllBlank(tail[..j])
    ensures Lacks(IsHead, Stripped(tail)[..j + 1])
  {
    forall i | 0 <= i < j ensures !IsHead(Stripped(tail)[i]) {
      assert tail[..j][i] == tail[i];
      BlankIsPlain(tail[i]);
      BlankIsPlain(StripReturn(tail[i]));
    }
  }

  lemma LacksUntil(q: string -> bool, t: seq<string>, j: nat)
    requires j < |t| && Lacks(q, t[..j + 1])
    ensures j < First(q, t, j + 1) && Lacks(q, t[..First(q, t, j + 1)])
  {
    var m := First(q, t, j + 1);
    forall i | 0 <= i < m ensures !q(t[i]) {
      if i <= j { assert t[..j + 1][i] == t[i]; }
    }
  }

  lemma AbsorbedLines(kept: seq<string>, t: seq<string>, u: seq<string>, j: nat, b: seq<string>, g: Group)
    requires b != [] && IsHead(b[0]) && Groups(IsHead, b) == [g]
    requires j < |t| && !IsBlank(t[j]) && Lacks(IsHead, t[..j + 1])
    requires NoLess(Entries(b + u), Entries(b + t))
    ensures Entries((kept + [""]) + (b + u)) != Entries(kept + t) + [Show(g)]
  {
    var m := First(IsHead, t, j + 1);
    LacksUntil(IsHead, t, j);
    Seqs.Parts(t, m);
    assert t[..m][j] == t[j];
    EntriesShift(kept, t[..m], t[m..], u, b, g, j);
  }

  lemma StrippedParts(kept: seq<string>, b: seq<string>, tail: seq<string>)
    ensures Stripped((kept + [""]) + (b + tail)) == (Stripped(kept) + [""]) + (Stripped(b) + Stripped(tail))
    ensures Stripped(b + tail) == Stripped(b) + Stripped(tail)
    ensures Stripped(kept + tail) == Stripped(kept) + Stripped(tail)
  {
    StrippedConcat(kept + [""], b + tail);
    StrippedConcat(kept, [""]);
    StrippedConcat(b, tail);
    StrippedConcat(kept, tail);
    assert Stripped([""]) == [""];
  }

  /** The reader reads on past a line that ends the section for the writer, with blank lines before it. */
  ghost predicate ReadsPast(tail: seq<string>, j: nat) {
    j < |tail| && IsBoundary(tail[j]) && !Breaks(tail[j]) && AllBlank(tail[..j])
  }

  lemma Absorbed(kept: seq<string>, tail: seq<string>, z: seq<string>, j: nat, b: seq<string>, shown: Shown)
    requires ReadsAs(b, shown)
    requires ReadsPast(tail, j)
    requires ReadsNoLess(b, z, tail)
    ensures Entries(Stripped((kept + [""]) + (b + z))) != Entries(Stripped(kept + tail)) + [shown]
  {
    var s := Stripped(b);
    StrippedParts(kept, b, tail);
    StrippedParts(kept, b, z);
    LevelOneIsDetail(tail[j]);
    PlainUntil(tail, j);
    AbsorbedLines(Stripped(kept), Stripped(tail), Stripped(z), j, s, Group(s[0], s[1..]));
  }

  /** The line that ends the section for the writer alone, among the lines the reader reads on. */
  lemma OverrunAt(ls: seq<string>, h: nat, at: nat, e: nat, r: nat) returns (j: nat)
    requires h < |ls| && at == EntryPoint(ls, h)
    requires e == SectionEnd(ls, h + 1) < r == ReaderEnd(ls, h + 1)
    ensures at <= r && ReadsPast(ls[at..r], j)
  {
    EntryPointSpec(ls, h);
    Seqs.Within(ls, at, e, r);
    j := e - at;
  }

  /** What the reader reads after the entry, and what it does not. */
  lemma TailReading(ls: seq<string>, at: nat, e: nat, b: seq<string>, t: seq<string>, y: seq<string>)
    returns (z: seq<string>, d: seq<string>)
    requires at <= e < |ls| && !IsBlank(ls[e]) && t == ls[at..] && y == t[..First(Breaks, t, 0)]
    requires b != [] && IsHead(Stripped(b)[0])
    ensures Gap(ls, at, e) + Remainder(ls, e) == z + d && Lacks(Breaks, z) && (d != [] ==> Breaks(d[0]))
    ensures ReadsNoLess(b, z, y)
  {
    var p := NewTail(ls, at, e);
    z, d := TrimmedReading(b, t, p, Gap(ls, at, e) + Remainder(ls, e));
  }

  lemma OldTail(ls: seq<string>, h: nat, at: nat, e: nat, r: nat)
    requires h < |ls| && at == EntryPoint(ls, h) && e == SectionEnd(ls, h + 1) < r == ReaderEnd(ls, h + 1)
    ensures at <= e < |ls| && !IsBlank(ls[e])
    ensures ls[at..r] == ls[at..][..First(Breaks, ls[at..], 0)]
  {
    EntryPointSpec(ls, h);
    BoundaryNotBlank(ls[e]);
    FirstFrom(Breaks, ls, h + 1, at);
  }

  lemma OverrunReading(ls: seq<string>, h: nat, at: nat, e: nat, r: nat, b: seq<string>, y: seq<string>)
    returns (z: seq<string>, d: seq<string>)
    requires h < |ls| && at == EntryPoint(ls, h) && e == SectionEnd(ls, h + 1) < r == ReaderEnd(ls, h + 1)
    requires at <= r && y == ls[at..r]
    requires b != [] && IsHead(Stripped(b)[0])
    ensures NewLines(ls, h, b) == ls[..at] + (([""] + b) + (z + d)) && Lacks(Breaks, z) && (d != [] ==> Breaks(d[0]))
    ensures ReadsNoLess(b, z, y)
  {
    OldTail(ls, h, at, e, r);
    z, d := TailReading(ls, at, e, b, ls[at..], y);
  }

  /** The reader's new lines: those before the entry, the entry, and more. */
  lemma NewReading(out: string, ls: seq<string>, h: nat, at: nat, e: nat, r: nat, b: seq<string>)
    returns (z: seq<string>)
    requires CleanEnd(out) && h == FindHeading(ls) < |ls| && Split(out) == NewLines(ls, h, b)
    requires b != [] && IsHead(Stripped(b)[0]) && Lacks(Breaks, b)
    requires at == EntryPoint(ls, h) && e == SectionEnd(ls, h + 1) < r == ReaderEnd(ls, h + 1)
    ensures h < at <= r
    ensures Timeline(out) == Entries(Stripped((ls[h + 1..at] + [""]) + (b + z)))
    ensures ReadsNoLess(b, z, ls[at..r])
  {
    var d;
    EntryPointSpec(ls, h);
    z, d := OverrunReading(ls, h, at, e, r, b, ls[at..r]);
    NewHeading(ls, h, b);
    NewLinesShape(ls, h, b);
    NewRunsOn(out, ls, h, at, b, z, d, Split(out));
  }

  lemma Overrun(plan: string, out: string, ls: seq<string>, h: nat, b: seq<string>, shown: Shown)
    requires CleanEnd(plan) && CleanEnd(out)
    requires ls == Split(plan) && h == FindHeading(ls) < |ls|
    requires Split(out) == NewLines(ls, h, b) && ReadsAs(b, shown)
    requires ReaderEnd(ls, h + 1) > SectionEnd(ls, h + 1)
    ensures Timeline(out) != Timeline(plan) + [shown]
  {
    var e, r, at := SectionEnd(ls, h + 1), ReaderEnd(ls, h + 1), EntryPoint(ls, h);
    var z := NewReading(out, ls, h, at, e, r, b);
    var j := OverrunAt(ls, h, at, e, r);
    OldRunsOn(plan, ls, h, at, r);
    BothAbsorbed(Timeline(plan), Timeline(out), ls[h + 1..at], ls[at..r], z, j, b, shown);
  }

  lemma BothAbsorbed(
    before: seq<Shown>, after: seq<Shown>, kept: seq<string>, tail: seq<string>, z: seq<string>, j: nat,
    b: seq<string>, shown: Shown)
    requires ReadsAs(b, shown) && ReadsPast(tail, j) && ReadsNoLess(b, z, tail)
    requires before == Entries(Stripped(kept + tail))
    requires after == Entries(Stripped((kept + [""]) + (b + z)))
    ensures after != before + [shown]
  {
    Absorbed(kept, tail, z, j, b, shown);
  }

  /** When the ends disagree, whatever the new lines are read as, it is not the old timeline and the entry. */
  lemma DisagreementShows(plan: string, out: string, ls: seq<string>, h: nat, b: seq<string>, shown: Shown)
    requires CleanEnd(plan) && CleanEnd(out)
    requires ls == Split(plan) && h == FindHeading(ls) < |ls|
    requires Split(out) == NewLines(ls, h, b) && ReadsAs(b, shown)
    requires !EndsAgree(ls, h)
    ensures Timeline(out) != Timeline(plan) + [shown]
  {
    if ReaderEnd(ls, h + 1) < SectionEnd(ls, h + 1) {
      EntryHidden(plan, out, ls, h, b);
    } else {
      Overrun(plan, out, ls, h, b, shown);
    }
  }

  lemma BlockReadsAs(date: string, summary: string, detail: string)
    requires IsoDate(date) && OneLine(summary)
    ensures ReadsAs(Block(date, summary, detail), Expected(date, summary, detail))
  {
    BlockReads(date, summary, detail);
    BlockIsQuiet(date, summary, detail);
  }

  lemma BlockLines(plan: string, date: string, summary: string, detail: string, entry: string)
    requires IsoDate(date) && OneLine(summary) && FindHeading(Split(plan)) < |Split(plan)|
    requires entry == EntryText(date, summary, detail)
    ensures CleanEnd(AmendedText(plan, entry))
    ensures Split(AmendedText(plan, entry))
              == NewLines(Split(plan), FindHeading(Split(plan)), Block(date, summary, detail))
  {
    EndsInNewline(TrimEnd(Join(AmendedLines(plan, entry))));
    EntryLines(date, summary, detail);
    BlockTrimmed(date, summary, detail);
    AmendedLinesAre(plan, entry, Block(date, summary, detail));
  }

  /** In a plan that has the section, an amendment appends exactly its entry to the timeline if and only
      if writer and reader agree on where the section ends. */
  lemma AppendsIffEndsAgree(plan: string, date: string, summary: string, detail: string)
    requires IsoDate(date) && OneLine(summary) && CleanEnd(plan)
    requires FindHeading(Split(plan)) < |Split(plan)|
    ensures Timeline(AmendedText(plan, EntryText(date, summary, detail)))
              == Timeline(plan) + [Expected(date, summary, detail)]
       <==> EndsAgree(Split(plan), FindHeading(Split(plan)))
  {
    var out := AmendedText(plan, EntryText(date, summary, detail));
    if EndsAgree(Split(plan), FindHeading(Split(plan))) {
      AmendAppends(plan, date, summary, detail);
    } else {
      BlockLines(plan, date, summary, detail, EntryText(date, summary, detail));
      BlockReadsAs(date, summary, detail);
      DisagreementShows(plan, out, Split(plan), FindHeading(Split(plan)), Block(date, summary, detail),
                        Expected(date, summary, detail));
    }
  }

  /** The plan ends in exactly one newline and no other white space. */
  predicate Tidy(plan: string) { plan == TrimEnd(plan) + "\n" }

  lemma AmendedIsTidy(plan: string, entry: string)
    ensures Tidy(AmendedText(plan, entry))
  {
    var t := TrimEnd(Join(AmendedLines(plan, entry)));
    TrimEndTrimmed(Join(AmendedLines(plan, entry)));
    TrimEndConcat(t, "\n");
    assert IsBlank("\n");
  }

  /** A level-one heading after the section ends it for the writer alone. */
  lemma EndsCanDisagree(heading: string)
    requires IsHeading(heading) && !HasNewline(heading)
    ensures var plan := Join([heading, "", "# X", ""]);
            && FindHeading(Split(plan)) == 0 && |Split(plan)| == 4
            && !EndsAgree(Split(plan), 0)
  {
    var ls := [heading, "", "# X", ""];
    SplitJoin(ls);
    EmptyIsQuiet();
    assert IsBoundary(ls[2]) by { assert ls[2][..2] == "# "; }
    FirstIs(IsBoundary, ls, 1, 2);
    NotLevelTwo(ls[2]);
    FirstIs(Breaks, ls, 1, 4);
  }

  lemma NotLevelTwo(l: string)
    requires |l| == 3 && l[1] == ' '
    ensures !Breaks(l)
  {
    var m := StripReturn(l);
    if |m| >= 2 { assert m[..2][1] == ' '; }
  }

  /** In a plan whose section ends at the level-one heading "# X", an amendment is not appended. */
  lemma AmendmentMisread(date: string, summary: string, detail: string)
    requires IsoDate(date) && OneLine(summary)
    ensures var plan := Join([HEADING, "", "# X", ""]);
            Timeline(AmendedText(plan, EntryText(date, summary, detail)))
              != Timeline(plan) + [Expected(date, summary, detail)]
  {
    HeadingPlain();
    HeadingOf(HEADING, TITLE);
    EndsCanDisagree(HEADING);
    SmallEnd(HEADING);
    AppendsIffEndsAgree(Join([HEADING, "", "# X", ""]), date, summary, detail);
  }

  lemma SmallEnd(heading: string)
    ensures CleanEnd(Join([heading, "", "# X", ""]))
  {
    var head := [heading, "", "# X"];
    assert [heading, "", "# X", ""] == head + [""];
    JoinConcat(head, [""]);
    assert Join(head) + ("\n" + "") == Join(head) + "\n";
    EndsInNewline(Join(head));
  }
}
