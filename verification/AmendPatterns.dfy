/** The line patterns of the writer and the reader of the Amendments section, as their regular expressions read. */
module AmendPatterns {
  import opened Lines
  import opened Amend
  import opened AmendReader
  import Seqs

  ghost predicate Spaces(s: string) { s != "" && Blank(s) }

  /** White space: the characters that \s matches and that trim removes. */
  lemma SpaceIs(c: char)
    ensures IsSpace(c) <==>
              c as int in {0x09, 0x0A, 0x0B, 0x0C, 0x0D, 0x20, 0xA0, 0x1680, 0x2000, 0x2001, 0x2002, 0x2003, 0x2004,
                           0x2005, 0x2006, 0x2007, 0x2008, 0x2009, 0x200A, 0x2028, 0x2029, 0x202F, 0x205F, 0x3000,
                             0xFEFF}
  {
  }

  /** What a dot does not match. */
  lemma TerminatorIs(c: char)
    ensures IsTerminator(c) <==> c as int in {0x0A, 0x0D, 0x2028, 0x2029}
  {
  }

  // ---- trimming ----

  lemma StartParts(s: string)
    ensures s == s[..Leading(s)] + TrimStart(s) && Blank(s[..Leading(s)])
  {
    LeadingSpec(s);
    Seqs.Parts(s, Leading(s));
  }

  lemma EndParts(s: string)
    ensures s == TrimEnd(s) + s[Trailing(s)..] && Blank(s[Trailing(s)..])
  {
    TrailingSpec(s);
    Seqs.Parts(s, Trailing(s));
  }

  /** What surrounds a trimmed text. */
  lemma TrimAround(s: string) returns (a: string, b: string)
    ensures s == a + (Trim(s) + b) && Blank(a) && Blank(b)
    ensures s != "" && IsSpace(s[0]) ==> a != ""
  {
    StartParts(s);
    EndParts(TrimStart(s));
    LeadingSpec(s);
    a, b := s[..Leading(s)], TrimStart(s)[Trailing(TrimStart(s))..];
  }

  lemma TrimOf(a: string, m: string, b: string)
    requires Blank(a) && Blank(b) && m != "" && !IsSpace(m[0]) && !IsSpace(m[|m| - 1])
    ensures Trim(a + m + b) == m && TrimStart(a + m) == m
  {
    BlankSpec(b);
    TrimBlankTail(a + m, b);
    LeadingIs(a + m, |a|);
    Seqs.DropAppend(a, m);
    TrimClean(m);
  }

  // ---- the headings ----

  /** The section heading: /^##\s+Amendments\s*$/. */
  lemma HeadingIff(l: string)
    ensures IsHeading(l) <==> exists a, b :: l == "##" + a + "Amendments" + b && Spaces(a) && Blank(b)
  {
    if IsHeading(l) { var a, b := HeadingParts(l); }
    if a, b :| l == "##" + a + "Amendments" + b && Spaces(a) && Blank(b) { HeadingWhole(l, a, b); }
  }

  lemma HeadingParts(l: string) returns (a: string, b: string)
    requires IsHeading(l)
    ensures l == "##" + a + "Amendments" + b && Spaces(a) && Blank(b)
  {
    a, b := TrimAround(l[2..]);
    Seqs.Parts(l, 2);
    Joined("##", a, "Amendments", b);
    assert l[2..][0] == l[2];
  }

  lemma Joined(h: string, a: string, m: string, b: string)
    ensures h + (a + (m + b)) == h + a + m + b
  {
  }

  lemma HeadingWhole(l: string, a: string, b: string)
    requires l == "##" + a + "Amendments" + b && Spaces(a) && Blank(b)
    ensures IsHeading(l)
  {
    var m := a + "Amendments" + b;
    Joined("##", a, "Amendments", b);
    Joined("", a, "Amendments", b);
    assert l == "##" + m;
    assert l[..2] == "##" && l[2..] == m && m[0] == a[0];
    TrimOf(a, "Amendments", b);
  }

  /** What ends the section for the writer: /^#{1,2} \S/. */
  lemma BoundaryIff(l: string)
    ensures IsBoundary(l) <==>
              exists h, c, r :: (h == "#" || h == "##") && l == h + " " + [c] + r && !IsSpace(c)
  {
    if StartsWith(l, "# ") && |l| > 2 && !IsSpace(l[2]) {
      assert l == "#" + " " + [l[2]] + l[3..] by { assert l == l[..2] + l[2..]; }
    }
    if StartsWith(l, "## ") && |l| > 3 && !IsSpace(l[3]) {
      assert l == "##" + " " + [l[3]] + l[4..] by { assert l == l[..3] + l[3..]; }
    }
    if h, c, r :| (h == "#" || h == "##") && l == h + " " + [c] + r && !IsSpace(c) {
      if h == "#" {
        assert l[..2] == "# " && l[2] == c;
      } else {
        assert l[..3] == "## " && l[3] == c;
      }
    }
  }

  /** What ends it for the reader: /^##\s/. */
  lemma BreakIff(l: string)
    ensures IsBreak(l) <==> exists c, r :: l == "##" + [c] + r && IsSpace(c)
  {
    if IsBreak(l) {
      assert l == "##" + [l[2]] + l[3..] by { assert l == l[..2] + l[2..]; }
    }
    if c, r :| l == "##" + [c] + r && IsSpace(c) {
      assert l[..2] == "##" && l[2] == c;
    }
  }

  /** An entry heading and its text: /^###\s+(.*)$/. */
  lemma HeadIff(l: string, t: string)
    ensures IsHead(l) && HeadText(l) == t <==>
              && (exists a :: l == "###" + a + t && Spaces(a))
              && (t != "" ==> !IsSpace(t[0])) && NoTerminator(t)
  {
    if IsHead(l) && HeadText(l) == t { var a := HeadParts(l); }
    if a :| l == "###" + a + t && Spaces(a) && (t != "" ==> !IsSpace(t[0])) && NoTerminator(t) { HeadWhole(l, a, t); }
  }

  lemma HeadParts(l: string) returns (a: string)
    requires IsHead(l)
    ensures var t := HeadText(l); l == "###" + a + t && Spaces(a) && (t != "" ==> !IsSpace(t[0])) && NoTerminator(t)
  {
    var m := l[3..];
    StartParts(m);
    LeadingSpec(m);
    Seqs.Parts(l, 3);
    assert m[0] == l[3];
    a := m[..Leading(m)];
    Seqs.Assoc("###", a, TrimStart(m));
  }

  lemma HeadWhole(l: string, a: string, t: string)
    requires l == "###" + a + t && Spaces(a) && (t != "" ==> !IsSpace(t[0])) && NoTerminator(t)
    ensures IsHead(l) && HeadText(l) == t
  {
    Seqs.Assoc("###", a, t);
    assert l[..3] == "###" && l[3..] == a + t && l[3] == a[0];
    LeadingIs(a + t, |a|);
    Seqs.DropAppend(a, t);
  }

  /** A separator at a place: white space, the dash, white space. */
  lemma SeparatorIff(s: string, i: nat)
    requires i <= |s|
    ensures SeparatorAt(s, i) <==>
              exists a, b, r :: s[i..] == a + [DASH_CHAR] + b + r && Spaces(a) && Spaces(b)
  {
    var m := s[i..];
    LeadingSpec(m);
    if SeparatorAt(s, i) {
      var j := Leading(m);
      assert m[0] == s[i] && m[j] == s[i + j] && m[j + 1] == s[i + j + 1];
      assert m == m[..j] + [DASH_CHAR] + [m[j + 1]] + m[j + 2..];
      assert Spaces(m[..j]) && Spaces([m[j + 1]]);
    }
    if a, b, r :| m == a + [DASH_CHAR] + b + r && Spaces(a) && Spaces(b) {
      assert m[0] == a[0] && m[|a|] == DASH_CHAR && m[|a| + 1] == b[0];
      LeadingIs(m, |a|);
      assert m[0] == s[i] && m[|a|] == s[i + |a|] && m[|a| + 1] == s[i + |a| + 1];
    }
  }

  const DASH_CHAR: char := '\U{2014}'

  /** The first separator of t is at i, with white space a before its dash and r after it. */
  ghost predicate Separated(t: string, i: nat, a: string, r: string) {
    && i < |t| && t[i..] == a + ([DASH_CHAR] + r) && Spaces(a)
    && SeparatorAt(t, i) && forall k :: 0 <= k < i ==> !SeparatorAt(t, k)
  }

  /** The fields of a heading's text, split at its first separator: /^(.*?)\s+DASH\s+(.*)$/. Without one, all of
      it is the summary. */
  lemma FieldsExactly(head: string, i: nat, a: string, r: string)
    requires Separated(HeadText(head), i, a, r)
    ensures Fields(head) == (Trim(HeadText(head)[..i]), Trim(r))
  {
    FirstSeparator(HeadText(head), i, a, r);
  }

  lemma FirstSeparator(t: string, i: nat, a: string, r: string)
    requires Separated(t, i, a, r)
    ensures i < |t| && FindSeparator(t, 0) == i && AfterSeparator(t, i) == r
  {
    FindSeparatorIs(t, 0, i);
    AfterDash(t, i, a, r);
  }

  lemma AfterDash(t: string, i: nat, a: string, r: string)
    requires i < |t| && t[i..] == a + ([DASH_CHAR] + r) && Spaces(a)
    ensures Leading(t[i..]) == |a| && i + |a| + 1 <= |t| && t[i + |a| + 1..] == r
  {
    LeadingIs(a + ([DASH_CHAR] + r), |a|);
    Seqs.Join3(a, DASH_CHAR, r);
    assert t[i + |a| + 1..] == t[i..][|a| + 1..];
  }

  lemma NoFields(head: string)
    requires var t := HeadText(head); forall k :: 0 <= k < |t| ==> !SeparatorAt(t, k)
    ensures Fields(head) == ("", Trim(HeadText(head)))
  {
    var n := FindSeparator(HeadText(head), 0);
    assert n == |HeadText(head)|;
  }
}
