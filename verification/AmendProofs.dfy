/** What amending a plan does to its lines, and to the timeline read back from it. */
module AmendProofs {
  import opened Lines
  import opened Amend
  import opened AmendReader
  import Seqs

  // ---- the lines of one entry ----

  /** A date without white space, as an ISO date is. */
  predicate IsoDate(date: string) {
    date != "" && forall i :: 0 <= i < |date| ==> !IsSpace(date[i])
  }

  /** A trimmed, non-empty summary without line terminators. */
  predicate OneLine(summary: string) {
    && summary != "" && !IsSpace(summary[0]) && !IsSpace(summary[|summary| - 1])
    && NoTerminator(summary)
  }

  function DetailLines(detail: string): seq<string> {
    if EscapedDetail(detail) == "" then [] else Split(EscapedDetail(detail))
  }

  /** The timeline entry an amendment must show up as. */
  function Expected(date: string, summary: string, detail: string): Shown {
    Shown(date, summary, Trim(Join(MapLines(StripReturn, DetailLines(detail)))))
  }

  lemma EntryLines(date: string, summary: string, detail: string)
    requires IsoDate(date) && OneLine(summary)
    ensures Split(EntryText(date, summary, detail)) == [EntryHead(date, summary)] + DetailLines(detail)
  {
    var head := EntryHead(date, summary);
    HeadHasNoNewline(date, summary);
    SplitPlain(head);
    if EscapedDetail(detail) != "" {
      SplitNewline(head, EscapedDetail(detail));
      Seqs.Assoc(head, "\n", EscapedDetail(detail));
    }
  }

  lemma HeadHasNoNewline(date: string, summary: string)
    requires IsoDate(date) && OneLine(summary)
    ensures !HasNewline(EntryHead(date, summary)) && NoTerminator(EntryHead(date, summary))
  {
  }

  lemma SeparatorFound(date: string, summary: string)
    requires IsoDate(date) && OneLine(summary)
    ensures var text := date + (" " + DASH + " " + summary);
            && FindSeparator(text, 0) == |date|
            && Leading(text[|date|..]) == 1
  {
    var text := date + (" " + DASH + " " + summary);
    var n := |date|;
    LeadingIs(text[n..], 1);
    assert SeparatorAt(text, n);
    forall i | 0 <= i < n ensures !SeparatorAt(text, i) {
      assert text[i] == date[i];
    }
    FindSeparatorIs(text, 0, n);
  }

  /** An entry heading reads back as its date and its summary. */
  lemma HeadReadsBack(date: string, summary: string, detail: seq<string>)
    requires IsoDate(date) && OneLine(summary)
    ensures IsHead(EntryHead(date, summary))
    ensures Show(Group(EntryHead(date, summary), detail)) == Shown(date, summary, Trim(Join(detail)))
  {
    var text := date + (" " + DASH + " " + summary);
    var head := EntryHead(date, summary);
    assert head[3..] == " " + text;
    HeadHasNoNewline(date, summary);
    TrimSpaced(text);
    SeparatorFound(date, summary);
    TrimClean(date);
    TrimSpaced(summary);
    TrimClean(summary);
    assert text[..|date|] == date;
    assert text[|date| + 2..] == " " + summary;
  }

  /** The detail as lines: the escaped lines, trimmed at the end. */
  lemma DetailLinesAre(detail: string)
    requires EscapedDetail(detail) != ""
    ensures DetailLines(detail) == TrimLines(MapLines(EscapeLine, Split(detail)))
  {
    var escaped := MapLines(EscapeLine, Split(detail));
    forall i | 0 <= i < |escaped| ensures !HasNewline(escaped[i]) {
      assert escaped[i] == EscapeLine(Split(detail)[i]);
    }
    TrimJoin(escaped);
    TrimLinesPlain(escaped);
    SplitJoin(TrimLines(escaped));
  }

  /** Detail lines never look like headings, and the entry ends in a line that is not blank. */
  lemma DetailFacts(detail: string)
    ensures forall i :: 0 <= i < |DetailLines(detail)| ==> !StartsWith(DetailLines(detail)[i], "#")
    ensures DetailLines(detail) != [] ==>
              var l := DetailLines(detail)[|DetailLines(detail)| - 1]; Trimmed(l) && !IsBlank(l)
  {
    if EscapedDetail(detail) != "" {
      var escaped := MapLines(EscapeLine, Split(detail));
      DetailLinesAre(detail);
      TrimLinesKeep(escaped);
      forall i | 0 <= i < |TrimLines(escaped)| ensures !StartsWith(TrimLines(escaped)[i], "#") {
        EscapedIsNoHeading(Split(detail)[i]);
      }
      if |TrimLines(escaped)| == 1 {
        TrimEndTrimmed(EscapeDetail(detail));
        JoinSplit(EscapedDetail(detail));
      }
    }
  }

  /** The lines of an entry. */
  function Block(date: string, summary: string, detail: string): seq<string> {
    [EntryHead(date, summary)] + DetailLines(detail)
  }

  lemma BlockTrimmed(date: string, summary: string, detail: string)
    requires IsoDate(date) && OneLine(summary)
    ensures var b := Block(date, summary, detail); Tight(b) && !IsBlank(b[0])
  {
    var b, head := Block(date, summary, detail), EntryHead(date, summary);
    DetailFacts(detail);
    assert head[|head| - 1] == summary[|summary| - 1];
    TrailingIs(head, |head|);
  }

  // ---- an amendment only inserts one block ----

  /** The blank lines after the new entry: those it was put before, or the one that ends the text. */
  function Gap(ls: seq<string>, at: nat, e: nat): seq<string>
    requires at <= e <= |ls|
  {
    if e == |ls| then [""] else ls[at..e]
  }

  /** What follows the section, trimmed at the end of the text. */
  function Remainder(ls: seq<string>, e: nat): seq<string>
    requires e <= |ls|
  {
    if e == |ls| then [] else TrimLines(ls[e..]) + [""]
  }

  /** Where the new entry goes in a plan whose section heading is line h. */
  function EntryPoint(ls: seq<string>, h: nat): (at: nat)
    requires h < |ls|
    ensures at <= |ls|
  {
    InsertPoint(ls, h, SectionEnd(ls, h + 1))
  }

  /** The lines of the plan after the amendment. */
  function NewLines(ls: seq<string>, h: nat, b: seq<string>): seq<string>
    requires h < |ls|
  {
    var at := EntryPoint(ls, h);
    ls[..at] + (([""] + b) + (Gap(ls, at, SectionEnd(ls, h + 1)) + Remainder(ls, SectionEnd(ls, h + 1))))
  }

  lemma InsertedLinesAre(ls: seq<string>, h: nat, entry: string, b: seq<string>)
    requires h < |ls| && forall i :: 0 <= i < |ls| ==> !HasNewline(ls[i])
    requires b == Split(entry) && Tight(b) && !IsBlank(b[0])
    ensures Split(TrimEnd(Join(InsertedLines(ls, h, entry))) + "\n") == NewLines(ls, h, b)
  {
    var e, at := SectionEnd(ls, h + 1), EntryPoint(ls, h);
    InsertedPlain(ls, at, b, entry);
    SplitTrimmed(InsertedLines(ls, h, entry));
    InsertTrimmed(ls, at, e, b);
  }

  lemma AmendedLinesAre(plan: string, entry: string, b: seq<string>)
    requires FindHeading(Split(plan)) < |Split(plan)|
    requires b == Split(entry) && Tight(b) && !IsBlank(b[0])
    ensures Split(AmendedText(plan, entry)) == NewLines(Split(plan), FindHeading(Split(plan)), b)
  {
    InsertedLinesAre(Split(plan), FindHeading(Split(plan)), entry, b);
  }

  /** In a plan that has the section, the new lines are the old ones with a blank line and the entry
      put after the section's last line that is not blank and before the heading that ends it; only
      white space at the end of the text is lost. */
  lemma InsertsOneBlock(plan: string, date: string, summary: string, detail: string)
    requires IsoDate(date) && OneLine(summary)
    requires FindHeading(Split(plan)) < |Split(plan)|
    ensures var ls := Split(plan);
            var h := FindHeading(ls);
            var e, at := SectionEnd(ls, h + 1), EntryPoint(ls, h);
            && h < at <= e
            && (forall i :: at <= i < e ==> IsBlank(ls[i]))
            && (at - 1 > h ==> !IsBlank(ls[at - 1]))
            && Split(AmendedText(plan, EntryText(date, summary, detail)))
               == ls[..at] + (([""] + Block(date, summary, detail)) + (Gap(ls, at, e) + Remainder(ls, e)))
  {
    EntryLines(date, summary, detail);
    BlockTrimmed(date, summary, detail);
    AmendedLinesAre(plan, EntryText(date, summary, detail), Block(date, summary, detail));
  }

  lemma InsertTrimmed(ls: seq<string>, at: nat, e: nat, b: seq<string>)
    requires at <= e <= |ls| && (forall i :: at <= i < e ==> IsBlank(ls[i]))
    requires e < |ls| ==> IsBoundary(ls[e])
    requires Tight(b) && !IsBlank(b[0])
    ensures TrimLines(ls[..at] + (([""] + b) + ls[at..])) + [""]
         == ls[..at] + (([""] + b) + (Gap(ls, at, e) + Remainder(ls, e)))
  {
    var tail := ls[at..];
    Seqs.Assoc([""], b, tail);
    Seqs.Assoc(ls[..at], [""], b + tail);
    TrimLinesSuffix(ls[..at] + [""], b + tail, 0);
    TailTrimmed(ls, at, e, b);
    Seqs.Assoc(ls[..at] + [""], TrimLines(b + tail), [""]);
    Reassociate(ls[..at], [""], b, Gap(ls, at, e) + Remainder(ls, e));
  }

  lemma InsertedPlain(ls: seq<string>, at: nat, b: seq<string>, entry: string)
    requires at <= |ls| && b == Split(entry)
    requires forall k :: 0 <= k < |ls| ==> !HasNewline(ls[k])
    ensures var all := ls[..at] + (([""] + b) + ls[at..]);
            forall i :: 0 <= i < |all| ==> !HasNewline(all[i])
  {
  }

  lemma Reassociate<T>(a: seq<T>, b: seq<T>, c: seq<T>, d: seq<T>)
    ensures (a + b) + (c + d) == a + ((b + c) + d)
  {
  }

  lemma TailTrimmed(ls: seq<string>, at: nat, e: nat, b: seq<string>)
    requires at <= e <= |ls| && (forall i :: at <= i < e ==> IsBlank(ls[i]))
    requires e < |ls| ==> IsBoundary(ls[e])
    requires Tight(b)
    ensures TrimLines(b + ls[at..]) + [""] == b + (Gap(ls, at, e) + Remainder(ls, e))
  {
    if e == |ls| {
      assert ls[at..] == ls[at..e];
      TightThenBlank(b, ls[at..e]);
      assert [""] + [] == [""];
    } else {
      assert ls[at..] == ls[at..e] + ls[e..];
      BoundaryNotBlank(ls[e]);
      TailKept(b, ls[at..e], ls[e..]);
    }
  }

  lemma TailKept(b: seq<string>, blanks: seq<string>, tail: seq<string>)
    requires tail != [] && !IsBlank(tail[0])
    ensures TrimLines(b + (blanks + tail)) + [""] == b + (blanks + (TrimLines(tail) + [""]))
  {
    Seqs.Assoc(b, blanks, tail);
    TrimLinesSuffix(b + blanks, tail, 0);
    Seqs.Assoc(b + blanks, TrimLines(tail), [""]);
    Seqs.Assoc(b, blanks, TrimLines(tail) + [""]);
  }

  lemma BoundaryNotBlank(l: string)
    requires IsBoundary(l)
    ensures !IsBlank(l) && l[0] == '#'
  {
    assert l[..2][0] == l[0];
    BlankSpec(l);
  }
}
