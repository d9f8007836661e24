/** Whole histories of amendments, read back. */
module AmendRuns {
  import opened Lines
  import opened Amend
  import opened AmendReader
  import opened AmendProofs
  import opened TimelineProofs
  import opened AmendDetails
  import opened Options
  import Seqs

  datatype Amendment = Amendment(date: string, summary: string, detail: string)

  /** What the writer assumes without checking: the date is an ISO date, and the summary holds neither
      U+2028 nor U+2029. */
  predicate Conventional(a: Amendment) {
    IsoDate(Trim(a.date)) && forall i :: 0 <= i < |a.summary| ==> a.summary[i] as int !in {0x2028, 0x2029}
  }

  function ExpectedOf(a: Amendment): Shown { Expected(Trim(a.date), Trim(a.summary), a.detail) }

  /** One run of amend-plan on an open bundle's plan. */
  function Apply(plan: string, a: Amendment): Outcome { Amended(Some(plan), a.summary, a.detail, a.date, false) }

  /** The plan after a list of amendments, or the first refusal. */
  function Run(step: (string, Amendment) -> Outcome, plan: string, amendments: seq<Amendment>): Outcome
    decreases |amendments|
  {
    if amendments == [] then Accepted(plan, "")
    else
      match step(plan, amendments[0])
      case Refused(why) => Refused(why)
      case Accepted(out, _) => Run(step, out, amendments[1..])
  }

  function Map<A, B>(f: A -> B, s: seq<A>): (r: seq<B>)
    ensures |r| == |s| && forall i :: 0 <= i < |r| ==> r[i] == f(s[i])
  {
    seq(|s|, i requires 0 <= i < |s| => f(s[i]))
  }

  lemma AcceptedAppends(plan: string, a: Amendment)
    requires Settled(plan) && Conventional(a) && Apply(plan, a).Accepted?
    ensures Settled(Apply(plan, a).planText)
    ensures Timeline(Apply(plan, a).planText) == Timeline(plan) + [ExpectedOf(a)]
  {
    AppliedText(plan, a);
    SummaryTrimmed(a);
    AmendAppends(plan, Trim(a.date), Trim(a.summary), a.detail);
  }

  lemma AppliedText(plan: string, a: Amendment)
    requires Apply(plan, a).Accepted?
    ensures Apply(plan, a).planText == AmendedText(plan, EntryText(Trim(a.date), Trim(a.summary), a.detail))
    ensures Trim(a.summary) != "" && '\r' !in a.summary && '\n' !in a.summary
  {
    AcceptedIff(Some(plan), a.summary, a.detail, a.date, false);
    TrimEnds(a.summary);
    assert forall i :: 0 <= i < |a.summary| ==> a.summary[i] !in {'\r', '\n'};
  }

  /** What is left of a trimmed summary comes from it. */
  lemma TrimWithin(s: string, i: nat)
    requires i < |Trim(s)|
    ensures Leading(s) + i < |s| && Trim(s)[i] == s[Leading(s) + i]
  {
  }

  lemma SummaryTrimmed(a: Amendment)
    requires Conventional(a) && Trim(a.summary) != "" && '\r' !in a.summary && '\n' !in a.summary
    ensures OneLine(Trim(a.summary))
  {
    TrimEnds(a.summary);
    forall i | 0 <= i < |Trim(a.summary)| ensures !IsTerminator(Trim(a.summary)[i]) {
      TrimWithin(a.summary, i);
    }
  }

  // ---- which amendments are accepted ----

  predicate Broken(summary: string) { exists i :: 0 <= i < |summary| && summary[i] in {'\r', '\n'} }

  /** The first character that is not white space is a hash. */
  predicate Hashed(summary: string) { Leading(summary) < |summary| && summary[Leading(summary)] == '#' }

  lemma HashedIff(summary: string)
    ensures StartsWith(Trim(summary), "#") <==> Hashed(summary)
  {
    TrimEnds(summary);
    LeadingBlank(summary);
    if !IsBlank(summary) {
      TrimWithin(summary, 0);
      assert Trim(summary)[..1] == [Trim(summary)[0]];
    }
  }

  /** A refusal names the first thing that is wrong. */
  lemma RefusedFor(plan: Option<string>, summary: string, detail: string, date: string, archived: bool, why: Refusal)
    ensures Amended(plan, summary, detail, date, archived) == Refused(why) <==>
              if archived then why == Archived
              else if plan == None then why == PlanAbsent
              else if IsBlank(summary) then why == SummaryEmpty
              else if Broken(summary) then why == SummaryNotOneLine
              else if Hashed(summary) then why == SummaryIsHeading
              else IsBlank(date) && why == DateMissing
  {
    TrimEnds(summary);
    TrimEnds(date);
    HashedIff(summary);
    assert Broken(summary) <==> '\r' in summary || '\n' in summary;
  }

  /** An amendment is accepted if and only if the run is open, there is a plan, the summary is neither blank
      nor broken over lines nor a heading, and the date is not blank. */
  lemma AcceptedIff(plan: Option<string>, summary: string, detail: string, date: string, archived: bool)
    ensures Amended(plan, summary, detail, date, archived).Accepted? <==>
              !archived && plan.Some? && !IsBlank(summary) && !Broken(summary) && !Hashed(summary) && !IsBlank(date)
  {
    TrimEnds(summary);
    TrimEnds(date);
    HashedIff(summary);
    assert Broken(summary) <==> '\r' in summary || '\n' in summary;
  }

  /** A summary with a line break is refused, whatever entry heading hides behind it. */
  lemma ForgedHeadingRefused(plan: string, date: string, detail: string, forged: string)
    requires !IsBlank(forged)
    ensures Amended(Some(plan), "ship it\n### " + forged, detail, date, false) == Refused(SummaryNotOneLine)
  {
    var summary := "ship it\n### " + forged;
    assert summary[0] == 's' && summary[7] == '\n';
    BlankSpec(summary);
    RefusedFor(Some(plan), summary, detail, date, false, SummaryNotOneLine);
  }

  /** Steps that each append one item append the list of items. */
  lemma {:induction false} Accumulates(
    step: (string, Amendment) -> Outcome, ok: string -> bool, shown: string -> seq<Shown>,
    fine: Amendment -> bool, item: Amendment -> Shown, plan: string, amendments: seq<Amendment>)
    requires forall p, a :: ok(p) && fine(a) && step(p, a).Accepted? ==>
               ok(step(p, a).planText) && shown(step(p, a).planText) == shown(p) + [item(a)]
    requires ok(plan) && forall i :: 0 <= i < |amendments| ==> fine(amendments[i])
    requires Run(step, plan, amendments).Accepted?
    ensures var out := Run(step, plan, amendments).planText;
            ok(out) && shown(out) == shown(plan) + Map(item, amendments)
    decreases |amendments|
  {
    if amendments == [] {
      assert shown(plan) + [] == shown(plan);
    } else {
      var a := amendments[0];
      Accumulates(step, ok, shown, fine, item, step(plan, a).planText, amendments[1..]);
      Seqs.Assoc(shown(plan), [item(a)], Map(item, amendments[1..]));
      assert [item(a)] + Map(item, amendments[1..]) == Map(item, amendments);
    }
  }

  /** An amendment's date and summary, and, exactly for a plain detail, its detail. */
  predicate ShowsWell(shown: Shown, a: Amendment) {
    && shown.date == Trim(a.date) && shown.summary == Trim(a.summary)
    && (Recovers(shown, a.detail) <==> Plain(a.detail))
  }

  lemma AllShowWell(amendments: seq<Amendment>)
    ensures forall i :: 0 <= i < |amendments| ==> ShowsWell(Map(ExpectedOf, amendments)[i], amendments[i])
  {
    forall i | 0 <= i < |amendments| ensures ShowsWell(Map(ExpectedOf, amendments)[i], amendments[i]) {
      var a := amendments[i];
      DetailShownIff(Trim(a.date), Trim(a.summary), a.detail);
    }
  }

  /** Every history of accepted amendments reads back as its entries, in order, newest last, after
      whatever the plan's timeline already held. */
  lemma HistoryReadsBack(plan: string, amendments: seq<Amendment>)
    requires Settled(plan) && forall i :: 0 <= i < |amendments| ==> Conventional(amendments[i])
    requires Run(Apply, plan, amendments).Accepted?
    ensures var out := Run(Apply, plan, amendments).planText;
            Settled(out) && Timeline(out) == Timeline(plan) + Map(ExpectedOf, amendments)
    ensures forall i :: 0 <= i < |amendments| ==> ShowsWell(Map(ExpectedOf, amendments)[i], amendments[i])
  {
    forall p, a | Settled(p) && Conventional(a) && Apply(p, a).Accepted?
      ensures Settled(Apply(p, a).planText) && Timeline(Apply(p, a).planText) == Timeline(p) + [ExpectedOf(a)]
    {
      AcceptedAppends(p, a);
    }
    Accumulates(Apply, Settled, Timeline, Conventional, ExpectedOf, plan, amendments);
    AllShowWell(amendments);
  }

  /** Starting from a plan without the section, the timeline is exactly the accepted amendments. */
  lemma FreshHistoryReadsBack(plan: string, amendments: seq<Amendment>)
    requires CleanEnd(plan) && FindHeading(Split(plan)) == |Split(plan)|
    requires forall i :: 0 <= i < |amendments| ==> Conventional(amendments[i])
    requires Run(Apply, plan, amendments).Accepted?
    ensures var shown := Timeline(Run(Apply, plan, amendments).planText);
            && shown == Map(ExpectedOf, amendments)
            && forall i :: 0 <= i < |amendments| ==> ShowsWell(shown[i], amendments[i])
  {
    NoSection(plan);
    HistoryReadsBack(plan, amendments);
    assert [] + Map(ExpectedOf, amendments) == Map(ExpectedOf, amendments);
  }
}
