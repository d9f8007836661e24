/**
 The writer of the Amendments section of plan.md: it refuses bad input, escapes detail lines so
 that none reads as a heading, and inserts the new entry as the last one of the section.
 */
module Amend {
  import opened Lines
  import opened Options

  datatype Refusal =
    | Archived | PlanAbsent | SummaryEmpty | SummaryNotOneLine | SummaryIsHeading | DateMissing

  datatype Outcome = Refused(why: Refusal) | Accepted(planText: string, summary: string)

  const TITLE: string := "Amendments"
  const HEADING: string := "## " + TITLE
  const DASH: string := ['\U{2014}']

  // ---- the line patterns ----

  /** Two hashes, white space, the word Amendments, then only white space. */
  predicate IsHeading(l: string) {
    StartsWith(l, "##") && |l| > 2 && IsSpace(l[2]) && Trim(l[2..]) == TITLE
  }

  /** One or two hashes, one space, then something: the heading that ends the section. */
  predicate IsBoundary(l: string) {
    || (StartsWith(l, "# ") && |l| > 2 && !IsSpace(l[2]))
    || (StartsWith(l, "## ") && |l| > 3 && !IsSpace(l[3]))
  }

  // ---- escaping detail lines ----

  function EscapeLine(l: string): string { if StartsWith(l, "#") then "\\" + l else l }

  function UnescapeLine(l: string): string { if StartsWith(l, "\\#") then l[1..] else l }

  function EscapeDetail(detail: string): string { Join(MapLines(EscapeLine, Split(detail))) }

  /** Unescaping gives a line back exactly when it did not already look escaped. */
  lemma UnescapeEscape(l: string)
    ensures UnescapeLine(EscapeLine(l)) == l <==> !StartsWith(l, "\\#")
  {
    if StartsWith(l, "#") {
      assert ("\\" + l)[1..] == l;
      assert ("\\" + l)[..2] == "\\#" by { assert l[0] == '#'; }
    }
  }

  /** No escaped line can be taken for an entry heading or a section boundary. */
  lemma EscapedIsNoHeading(l: string)
    ensures !StartsWith(EscapeLine(l), "#")
  {
  }

  // ---- the entry ----

  function EscapedDetail(detail: string): string { TrimEnd(EscapeDetail(detail)) }

  function EntryHead(date: string, summary: string): string { "### " + date + " " + DASH + " " + summary }

  function EntryText(date: string, summary: string, detail: string): string {
    if EscapedDetail(detail) == "" then EntryHead(date, summary)
    else EntryHead(date, summary) + "\n" + EscapedDetail(detail)
  }

  // ---- where it goes ----

  function FindHeading(ls: seq<string>): nat { First(IsHeading, ls, 0) }

  function SectionEnd(ls: seq<string>, k: nat): nat
    requires k <= |ls|
  {
    First(IsBoundary, ls, k)
  }

  /** Back from e over the blank lines, but not past the heading. */
  function InsertPoint(ls: seq<string>, h: nat, e: nat): (at: nat)
    requires h < e <= |ls|
    ensures h < at <= e
    ensures forall i :: at <= i < e ==> IsBlank(ls[i])
    ensures at - 1 > h ==> !IsBlank(ls[at - 1])
    decreases e
  {
    if e - 1 > h && IsBlank(ls[e - 1]) then InsertPoint(ls, h, e - 1) else e
  }

  /** The section's first lines: its heading, and its first entry. */
  function NewSection(heading: string, entry: string): (r: seq<string>)
    ensures r != []
  {
    [heading, ""] + (Split(entry) + [""])
  }

  function FirstUseLines(heading: string, base: string, entry: string): (r: seq<string>)
    ensures r != []
  {
    if base == "" then NewSection(heading, entry) else (Split(base) + [""]) + NewSection(heading, entry)
  }

  /** A blank line and the entry, after the section's last line that is not blank. */
  function InsertedLines(ls: seq<string>, h: nat, entry: string): (r: seq<string>)
    requires h < |ls|
    ensures r != []
  {
    var at := InsertPoint(ls, h, SectionEnd(ls, h + 1));
    ls[..at] + (([""] + Split(entry)) + ls[at..])
  }

  /** The lines of the plan with the entry put in, before the end of the text is trimmed. */
  function AmendedLines(plan: string, entry: string): (r: seq<string>)
    ensures r != []
  {
    var ls := Split(plan);
    var h := FindHeading(ls);
    if h == |ls| then FirstUseLines(HEADING, TrimEnd(plan), entry) else InsertedLines(ls, h, entry)
  }

  function AmendedText(plan: string, entry: string): string {
    TrimEnd(Join(AmendedLines(plan, entry))) + "\n"
  }

  function Amended(plan: Option<string>, summary: string, detail: string, date: string, archived: bool): Outcome {
    if archived then Refused(Archived)
    else if plan.None? then Refused(PlanAbsent)
    else if Trim(summary) == "" then Refused(SummaryEmpty)
    else if '\r' in summary || '\n' in summary then Refused(SummaryNotOneLine)
    else if StartsWith(Trim(summary), "#") then Refused(SummaryIsHeading)
    else if Trim(date) == "" then Refused(DateMissing)
    else Accepted(AmendedText(plan.value, EntryText(Trim(date), Trim(summary), detail)), Trim(summary))
  }

  /** With the section present: scan for its end, step back over blank lines, splice. */
  method InsertEntry(lines: seq<string>, heading: nat, entry: string) returns (r: seq<string>)
    requires heading < |lines|
    ensures r == InsertedLines(lines, heading, entry)
  {
    var end := |lines|;
    for k := heading + 1 to |lines|
      invariant SectionEnd(lines, heading + 1) == SectionEnd(lines, k)
      invariant end == |lines|
    {
      if IsBoundary(lines[k]) {
        end := k;
        break;
      }
    }
    assert end == SectionEnd(lines, heading + 1);
    var insertAt := end;
    while insertAt - 1 > heading && IsBlank(lines[insertAt - 1])
      invariant heading < insertAt <= end
      invariant InsertPoint(lines, heading, end) == InsertPoint(lines, heading, insertAt)
    {
      insertAt := insertAt - 1;
    }
    r := lines[..insertAt] + (([""] + Split(entry)) + lines[insertAt..]);
  }

  /** The writer itself: refuse bad input, find the heading, and create the section or splice the entry in. */
  method AmendPlan(plan: Option<string>, summary: string, detail: string, date: string, archived: bool)
    returns (r: Outcome)
    ensures r == Amended(plan, summary, detail, date, archived)
  {
    if archived { return Refused(Archived); }
    if plan.None? { return Refused(PlanAbsent); }
    if Trim(summary) == "" { return Refused(SummaryEmpty); }
    if '\r' in summary || '\n' in summary { return Refused(SummaryNotOneLine); }
    var trimmed := Trim(summary);
    if StartsWith(trimmed, "#") { return Refused(SummaryIsHeading); }
    if Trim(date) == "" { return Refused(DateMissing); }
    var entry := EntryText(Trim(date), trimmed, detail);
    var lines := Split(plan.value);
    var heading := FindHeading(lines);
    var text: string;
    if heading == |lines| {
      var base := TrimEnd(plan.value);
      text := (if base == "" then "" else base + "\n\n") + (HEADING + "\n\n" + entry + "\n");
      FirstUseText(HEADING, base, entry);
    } else {
      lines := InsertEntry(lines, heading, entry);
      text := Join(lines);
    }
    text := TrimEnd(text) + "\n";
    r := Accepted(text, trimmed);
  }

  lemma SectionText(heading: string, entry: string)
    ensures Join(NewSection(heading, entry)) == heading + "\n\n" + entry + "\n"
  {
    JoinSplit(entry);
    JoinConcat(Split(entry), [""]);
    JoinConcat([heading, ""], Split(entry) + [""]);
    assert Join([heading, ""]) == heading + "\n";
    var tail := entry + "\n";
    assert Join(Split(entry) + [""]) == tail;
    assert heading + "\n" + ("\n" + tail) == heading + "\n\n" + entry + "\n";
  }

  /** Adding the section at the end of the text is adding its lines. */
  lemma FirstUseText(heading: string, base: string, entry: string)
    ensures Join(FirstUseLines(heading, base, entry))
         == (if base == "" then "" else base + "\n\n") + (heading + "\n\n" + entry + "\n")
  {
    SectionText(heading, entry);
    if base != "" {
      var section := Join(NewSection(heading, entry));
      JoinSplit(base);
      JoinConcat(Split(base), [""]);
      JoinConcat(Split(base) + [""], NewSection(heading, entry));
      assert base + "\n" + ("\n" + section) == base + "\n\n" + section;
    }
  }
}
