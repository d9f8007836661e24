/** Getting an amendment's detail back: from the lines written, and from what the timeline shows. */
module AmendDetails {
  import opened Lines
  import opened Amend
  import opened AmendReader
  import opened AmendProofs
  import Seqs

  // ---- from the lines written ----

  /** The detail an entry's lines stand for. */
  function Unescaped(ls: seq<string>): string { Join(MapLines(UnescapeLine, ls)) }

  lemma EscapeTrims(l: string)
    ensures IsBlank(EscapeLine(l)) <==> IsBlank(l)
    ensures TrimEnd(EscapeLine(l)) == EscapeLine(TrimEnd(l))
  {
    if StartsWith(l, "#") {
      assert l[0] == '#' by { assert l[..1][0] == l[0]; }
      BlankSpec(l);
      assert !IsSpace(l[0]);
      TrimEndConcat("\\", l);
      TrailingSpec(l);
      assert TrimEnd(l)[..1] == l[..1];
      BlankConcat("\\", l);
    } else if TrimEnd(l) != "" {
      assert TrimEnd(l)[..1] == l[..1];
    }
  }

  lemma {:induction false} EscapeTrimLines(ls: seq<string>)
    requires ls != []
    ensures TrimLines(MapLines(EscapeLine, ls)) == MapLines(EscapeLine, TrimLines(ls))
  {
    var n, m := |ls| - 1, MapLines(EscapeLine, ls);
    EscapeTrims(ls[n]);
    assert m[..n] == MapLines(EscapeLine, ls[..n]);
    if n > 0 && IsBlank(ls[n]) {
      EscapeTrimLines(ls[..n]);
    }
  }

  lemma TrimmedSplit(s: string)
    ensures Split(TrimEnd(s)) == TrimLines(Split(s))
  {
    JoinSplit(s);
    TrimJoin(Split(s));
    TrimLinesPlain(Split(s));
    SplitJoin(TrimLines(Split(s)));
  }

  /** Unescaping the written detail gives the detail back, up to white space at its end, exactly when
      none of its lines already looked escaped. */
  lemma DetailRecovered(detail: string)
    requires !IsBlank(detail)
    ensures Unescaped(DetailLines(detail)) == TrimEnd(detail)
       <==> forall i :: 0 <= i < |Split(TrimEnd(detail))| ==> !StartsWith(Split(TrimEnd(detail))[i], "\\#")
  {
    var kept := Split(TrimEnd(detail));
    TrimmedSplit(detail);
    EscapeTrimLines(Split(detail));
    EscapedNotBlank(detail);
    DetailLinesAre(detail);
    var back := MapLines(UnescapeLine, MapLines(EscapeLine, kept));
    assert Unescaped(DetailLines(detail)) == Join(back);
    forall i | 0 <= i < |kept| ensures back[i] == kept[i] <==> !StartsWith(kept[i], "\\#") {
      UnescapeEscape(kept[i]);
    }
    forall i | 0 <= i < |kept| ensures !HasNewline(back[i]) {
      UnescapePlain(kept[i]);
    }
    JoinSplit(TrimEnd(detail));
    SplitJoin(back);
    if Join(back) == TrimEnd(detail) {
      assert back == kept;
    } else {
      assert back != kept;
      DifferentAt(back, kept);
    }
  }

  lemma DifferentAt(a: seq<string>, b: seq<string>)
    requires |a| == |b| && a != b
    ensures exists i :: 0 <= i < |a| && a[i] != b[i]
  {
  }

  lemma UnescapePlain(l: string)
    requires !HasNewline(l)
    ensures !HasNewline(UnescapeLine(EscapeLine(l)))
  {
  }

  lemma EscapedNotBlank(detail: string)
    requires !IsBlank(detail)
    ensures EscapedDetail(detail) != ""
  {
    var ls := Split(detail);
    if EscapedDetail(detail) == "" {
      JoinSplit(detail);
      forall i | 0 <= i < |ls| ensures IsBlank(ls[i]) {
        EscapeTrims(ls[i]);
        if !IsBlank(ls[i]) {
          JoinNotBlank(MapLines(EscapeLine, ls), i);
          TrimEndTrimmed(EscapeDetail(detail));
        }
      }
      JoinBlank(ls);
    }
  }

  // ---- from what the timeline shows ----

  /** The detail without the white space at its end, as lines. */
  function Remaining(detail: string): seq<string> { Split(TrimEnd(detail)) }

  predicate EndsInReturn(l: string) { l != "" && l[|l| - 1] == '\r' }

  /** A line that survives escaping, the reader's line split, and unescaping. */
  predicate PlainLine(l: string) { !StartsWith(l, "\\#") && !EndsInReturn(l) }

  /** A detail that the timeline shows in full: blank, or one that does not start with white space and
      whose lines neither look escaped already nor end in a carriage return. */
  predicate Plain(detail: string) {
    IsBlank(detail)
      || (!IsSpace(detail[0]) && forall i :: 0 <= i < |Remaining(detail)| ==> PlainLine(Remaining(detail)[i]))
  }

  /** Unescaping the lines of a shown detail gives the detail that was asked for. */
  predicate Recovers(shown: Shown, detail: string) { Unescaped(Split(shown.detail)) == TrimEnd(detail) }

  /** A line as the reader gets it. */
  function Got(l: string): string { StripReturn(EscapeLine(l)) }

  lemma StripStart(l: string)
    ensures StartsWith(StripReturn(l), "\\#") ==> StartsWith(l, "\\#")
  {
    var n := |StripReturn(l)|;
    assert l[..n] == StripReturn(l);
    assert n >= 2 ==> l[..2] == l[..n][..2];
  }

  lemma LineBack(l: string)
    ensures UnescapeLine(Got(l)) == l <==> PlainLine(l)
    ensures |UnescapeLine(Got(l))| <= |l|
  {
    UnescapeEscape(l);
    if StartsWith(l, "#") {
      assert l[0] == '#' by { assert l[..1][0] == l[0]; }
      assert StartsWith(Got(l), "\\#") by { assert Got(l)[0] == '\\'; }
      assert Got(l)[1..] == StripReturn(l);
    } else if StartsWith(l, "\\#") {
      assert l[..2][1] == l[1];
      assert Got(l)[..2] == l[..2];
    } else {
      StripStart(l);
    }
  }

  function GotLines(ls: seq<string>): (r: seq<string>)
    ensures |r| == |ls| && forall i :: 0 <= i < |ls| ==> r[i] == Got(ls[i])
  {
    MapLines(StripReturn, MapLines(EscapeLine, ls))
  }

  lemma GotPlain(l: string)
    requires !HasNewline(l)
    ensures !HasNewline(Got(l)) && !HasNewline(UnescapeLine(Got(l)))
  {
  }

  // ---- trimming at the start ----

  /** White space at the start of the first line, if there is more in it. */
  lemma TrimStartFirst(ls: seq<string>)
    requires ls != [] && !IsBlank(ls[0])
    ensures TrimStart(Join(ls)) == Join([TrimStart(ls[0])] + ls[1..])
  {
    if |ls| > 1 {
      assert ([TrimStart(ls[0])] + ls[1..])[1..] == ls[1..];
      TrimStartHead(ls[0], "\n", Join(ls[1..]));
    }
  }

  lemma TrimStartHead(x: string, y: string, z: string)
    requires !IsBlank(x)
    ensures TrimStart(x + y + z) == TrimStart(x) + y + z
  {
    LeadingBlank(x);
    Seqs.Assoc(x, y, z);
    LeadingConcat(x, y + z);
    assert (x + (y + z))[Leading(x)..] == TrimStart(x) + (y + z);
    Seqs.Assoc(TrimStart(x), y, z);
  }

  lemma TrimStartBlank(ls: seq<string>)
    requires |ls| > 1 && IsBlank(ls[0])
    ensures TrimStart(Join(ls)) == TrimStart(Join(ls[1..]))
  {
    var head, rest := ls[0] + "\n", Join(ls[1..]);
    BlankConcat(ls[0], "\n");
    LeadingBlank(head);
    LeadingConcat(head, rest);
    assert (head + rest)[|head| + Leading(rest)..] == rest[Leading(rest)..];
  }

  /** A blank first line disappears. */
  lemma {:induction false} FewerLines(ls: seq<string>)
    requires ls != [] && forall i :: 0 <= i < |ls| ==> !HasNewline(ls[i])
    ensures |Split(TrimStart(Join(ls)))| <= |ls|
  {
    if !IsBlank(ls[0]) {
      TrimStartFirst(ls);
      SplitJoin([TrimStart(ls[0])] + ls[1..]);
    } else if |ls| > 1 {
      TrimStartBlank(ls);
      FewerLines(ls[1..]);
    } else {
      LeadingBlank(ls[0]);
    }
  }

  // ---- the text shown ----

  lemma KeptLast(detail: string)
    requires !IsBlank(detail)
    ensures var l := Remaining(detail)[|Remaining(detail)| - 1]; l != "" && !IsSpace(l[|l| - 1])
    ensures |Remaining(detail)| > 1 || !IsBlank(Remaining(detail)[0])
  {
    TrimmedSplit(detail);
    TrimLinesKeep(Split(detail));
    var ls := Remaining(detail);
    var l := ls[|ls| - 1];
    JoinSplit(TrimEnd(detail));
    TrimEndTrimmed(detail);
    TrailingSpec(l);
  }

  lemma LastGot(l: string)
    requires l != "" && !IsSpace(l[|l| - 1])
    ensures Got(l) == EscapeLine(l) && Got(l) != "" && !IsSpace(Got(l)[|Got(l)| - 1])
  {
  }

  lemma {:induction false} JoinEnds(ls: seq<string>)
    requires ls != [] && ls[|ls| - 1] != ""
    ensures Join(ls) != "" && var l := ls[|ls| - 1]; Join(ls)[|Join(ls)| - 1] == l[|l| - 1]
  {
    if |ls| > 1 { JoinEnds(ls[1..]); }
  }

  lemma TrimIsTrimStart(s: string)
    requires s != "" && !IsSpace(s[|s| - 1])
    ensures Trim(s) == TrimStart(s)
  {
    LeadingSpec(s);
    var t := TrimStart(s);
    assert t != "" && t[|t| - 1] == s[|s| - 1];
    TrailingIs(t, |t|);
  }

  lemma LinesGot(detail: string)
    requires !IsBlank(detail)
    ensures MapLines(StripReturn, DetailLines(detail)) == GotLines(Remaining(detail))
  {
    TrimmedSplit(detail);
    EscapeTrimLines(Split(detail));
    EscapedNotBlank(detail);
    DetailLinesAre(detail);
  }

  lemma GotEnds(detail: string)
    requires !IsBlank(detail)
    ensures var text := Join(GotLines(Remaining(detail))); text != "" && !IsSpace(text[|text| - 1])
  {
    var kept := Remaining(detail);
    KeptLast(detail);
    LastGot(kept[|kept| - 1]);
    JoinEnds(GotLines(kept));
  }

  lemma ShownText(date: string, summary: string, detail: string)
    requires !IsBlank(detail)
    ensures Expected(date, summary, detail).detail == TrimStart(Join(GotLines(Remaining(detail))))
  {
    LinesGot(detail);
    GotEnds(detail);
    TrimIsTrimStart(Join(GotLines(Remaining(detail))));
  }

  // ---- the condition ----

  lemma FirstKept(detail: string)
    requires !IsBlank(detail)
    ensures IsSpace(detail[0]) <==> Remaining(detail)[0] == "" || IsSpace(Remaining(detail)[0][0])
  {
    var d := TrimEnd(detail);
    TrimEndTrimmed(detail);
    assert d != "" && d[0] == detail[0];
    JoinSplit(d);
    var r := Split(d[1..]);
    assert Remaining(detail)[0] == if d[0] == '\n' then "" else [d[0]] + r[0];
  }

  lemma GotStart(l: string)
    requires l != "" && !IsSpace(l[0]) && !EndsInReturn(l)
    ensures Got(l) == EscapeLine(l) && Got(l) != "" && !IsSpace(Got(l)[0])
  {
  }

  lemma PlainIsShown(date: string, summary: string, detail: string)
    requires !IsBlank(detail) && Plain(detail)
    ensures Recovers(Expected(date, summary, detail), detail)
  {
    var kept := Remaining(detail);
    var got := GotLines(kept);
    ShownText(date, summary, detail);
    FirstKept(detail);
    GotStart(kept[0]);
    LeadingIs(got[0], 0);
    LeadingBlank(got[0]);
    TrimStartFirst(got);
    assert [TrimStart(got[0])] + got[1..] == got;
    forall i | 0 <= i < |kept| ensures !HasNewline(got[i]) && UnescapeLine(got[i]) == kept[i] {
      GotPlain(kept[i]);
      LineBack(kept[i]);
    }
    SplitJoin(got);
    assert MapLines(UnescapeLine, got) == kept;
    JoinSplit(TrimEnd(detail));
  }

  /** What the unescaped lines are, if they are the detail. */
  lemma ShownLines(date: string, summary: string, detail: string)
    requires !IsBlank(detail) && Recovers(Expected(date, summary, detail), detail)
    ensures MapLines(UnescapeLine, Split(TrimStart(Join(GotLines(Remaining(detail)))))) == Remaining(detail)
  {
    ShownText(date, summary, detail);
    var shown := Split(Expected(date, summary, detail).detail);
    forall i | 0 <= i < |shown| ensures !HasNewline(UnescapeLine(shown[i])) {
    }
    SplitJoin(MapLines(UnescapeLine, shown));
  }

  lemma ShortUnescape(l: string)
    ensures |UnescapeLine(l)| <= |l|
  {
  }

  /** Only the first line can be shorter by what was trimmed. */
  lemma SplitShown(detail: string)
    requires !IsBlank(detail) && !IsBlank(GotLines(Remaining(detail))[0])
    ensures var got := GotLines(Remaining(detail)); Split(TrimStart(Join(got))) == [TrimStart(got[0])] + got[1..]
  {
    var kept := Remaining(detail);
    var got := GotLines(kept);
    forall i | 0 <= i < |kept| ensures !HasNewline(got[i]) { GotPlain(kept[i]); }
    TrimStartFirst(got);
    SplitJoin([TrimStart(got[0])] + got[1..]);
  }

  lemma ShownIsPlain(date: string, summary: string, detail: string)
    requires !IsBlank(detail) && Recovers(Expected(date, summary, detail), detail)
    ensures Plain(detail)
  {
    var kept := Remaining(detail);
    var got := GotLines(kept);
    ShownLines(date, summary, detail);
    FirstNotBlank(detail);
    SplitShown(detail);
    var shown := [TrimStart(got[0])] + got[1..];
    assert forall i :: 0 <= i < |kept| ==> UnescapeLine(shown[i]) == kept[i];
    FirstLineWhole(kept[0]);
    FirstKept(detail);
    forall i | 0 <= i < |kept| ensures PlainLine(kept[i]) {
      assert shown[i] == got[i];
      LineBack(kept[i]);
    }
  }

  lemma FirstNotBlank(detail: string)
    requires !IsBlank(detail)
    requires |Split(TrimStart(Join(GotLines(Remaining(detail)))))| == |Remaining(detail)|
    ensures !IsBlank(GotLines(Remaining(detail))[0])
  {
    var kept := Remaining(detail);
    var got := GotLines(kept);
    KeptLast(detail);
    forall i | 0 <= i < |kept| ensures !HasNewline(got[i]) { GotPlain(kept[i]); }
    if |got| == 1 {
      LastGot(kept[0]);
      BlankSpec(got[0]);
    } else if IsBlank(got[0]) {
      TrimStartBlank(got);
      FewerLines(got[1..]);
    }
  }

  lemma FirstLineWhole(l: string)
    requires !IsBlank(Got(l)) && UnescapeLine(TrimStart(Got(l))) == l
    ensures l != "" && !IsSpace(l[0]) && TrimStart(Got(l)) == Got(l)
  {
    ShortUnescape(TrimStart(Got(l)));
    LeadingSpec(Got(l));
    if StartsWith(l, "#") {
      assert l[0] == '#' by { assert l[..1][0] == l[0]; }
      LeadingIs(Got(l), 0);
    }
  }

  /** What the timeline shows of a detail, unescaped, is that detail, up to white space at its end, exactly
      for plain details: the reader also trims the start and takes carriage returns for line ends. */
  lemma DetailShownIff(date: string, summary: string, detail: string)
    ensures Recovers(Expected(date, summary, detail), detail) <==> Plain(detail)
  {
    if IsBlank(detail) {
      BlankShown(date, summary, detail);
    } else {
      if Plain(detail) { PlainIsShown(date, summary, detail); }
      if Recovers(Expected(date, summary, detail), detail) { ShownIsPlain(date, summary, detail); }
    }
  }

  lemma BlankShown(date: string, summary: string, detail: string)
    requires IsBlank(detail)
    ensures Recovers(Expected(date, summary, detail), detail)
  {
    var ls := Split(detail);
    JoinSplit(detail);
    forall i | 0 <= i < |ls| ensures IsBlank(EscapeLine(ls[i])) {
      EscapeTrims(ls[i]);
      if !IsBlank(ls[i]) { JoinNotBlank(ls, i); }
    }
    JoinBlank(MapLines(EscapeLine, ls));
    assert EscapedDetail(detail) == "";
    assert Trim("") == "";
    assert MapLines(UnescapeLine, [""]) == [""];
  }

  /** A detail none of whose lines looks escaped, and which does not come back from the timeline: its
      leading blank is trimmed, and what is left looks escaped. */
  lemma LeadingBlankMisleads(date: string, summary: string)
    ensures var detail := " \\# x";
            && (forall i :: 0 <= i < |Remaining(detail)| ==> !StartsWith(Remaining(detail)[i], "\\#"))
            && !Recovers(Expected(date, summary, detail), detail)
  {
    var detail := " \\# x";
    SpacedIsNotPlain(detail);
    DetailShownIff(date, summary, detail);
    assert detail[..2][0] == ' ';
  }

  lemma SpacedIsNotPlain(detail: string)
    requires |detail| > 1 && IsSpace(detail[0]) && !IsSpace(detail[|detail| - 1]) && !HasNewline(detail)
    ensures !Plain(detail) && Remaining(detail) == [detail]
  {
    BlankSpec(detail);
    TrailingIs(detail, |detail|);
    assert TrimEnd(detail) == detail;
    SplitPlain(detail);
  }
}
