/** Trimming the end of a text does not make its timeline as long with less detail. */
module AmendTails {
  import opened Lines
  import opened AmendReader
  import opened TimelineProofs
  import Seqs

  /** All that the details of a timeline hold. */
  function Size(s: seq<Shown>): nat {
    if s == [] then 0 else Size(s[..|s| - 1]) + |s[|s| - 1].detail|
  }

  lemma {:induction false} SizeConcat(a: seq<Shown>, b: seq<Shown>)
    ensures Size(a + b) == Size(a) + Size(b)
    decreases |b|
  {
    if b == [] {
      assert a + b == a;
    } else {
      var n := |b| - 1;
      assert (a + b)[..|a| + n] == a + b[..n];
      SizeConcat(a, b[..n]);
    }
  }

  lemma SizeOne(x: Shown)
    ensures Size([x]) == |x.detail|
  {
    assert [x][..0] == [];
  }

  /** A timeline has other entries than another, or at least as much detail. */
  predicate NoLess(a: seq<Shown>, b: seq<Shown>) { |a| == |b| ==> Size(a) >= Size(b) }

  /** So of the entries in a block of lines and z, compared with the block and y. */
  predicate ReadsNoLess(b: seq<string>, z: seq<string>, y: seq<string>) {
    NoLess(Entries(Stripped(b + z)), Entries(Stripped(b + y)))
  }

  // ---- one line more, or a line trimmed ----

  lemma ShowSnoc(gs: seq<Group>, g: Group)
    ensures ShowAll(gs + [g]) == ShowAll(gs) + [Show(g)]
  {
  }

  lemma SizeSnoc(gs: seq<Group>, g: Group)
    ensures Size(ShowAll(gs + [g])) == Size(ShowAll(gs)) + |Trim(Join(g.detail))|
  {
    ShowSnoc(gs, g);
    SizeConcat(ShowAll(gs), [Show(g)]);
    SizeOne(Show(g));
  }

  /** The size of a timeline whose last entry was extended. */
  lemma ExtendedSize(gs: seq<Group>, more: seq<string>)
    requires gs != []
    ensures var n := |gs| - 1;
            && |Extend(gs, more)| == |gs|
            && Size(ShowAll(Extend(gs, more))) == Size(ShowAll(gs[..n])) + |Trim(Join(gs[n].detail + more))|
  {
    var n := |gs| - 1;
    SizeSnoc(gs[..n], gs[n].(detail := gs[n].detail + more));
  }

  lemma GroupsOfHeaded(c: seq<string>)
    requires c != [] && IsHead(c[0])
    ensures Groups(IsHead, c) != []
  {
  }

  lemma OneLonger(c: seq<string>, l: string)
    requires c != [] && IsHead(c[0])
    ensures |Entries(c + [l])| == |Entries(c)| + if IsHead(l) then 1 else 0
    ensures IsHead(l) ==> Size(Entries(c + [l])) == Size(Entries(c))
    ensures !IsHead(l) ==> Entries(c + [l]) == ShowAll(Extend(Groups(IsHead, c), [l]))
  {
    if IsHead(l) {
      EntriesConcat(c, [l]);
      GroupsOne(IsHead, [l]);
      assert [l][1..] == [];
      assert Entries([l]) == [Show(Group(l, []))];
      SizeConcat(Entries(c), Entries([l]));
      SizeOne(Show(Group(l, [])));
      assert Trim("") == "";
    } else {
      GroupsPlain(IsHead, c, [l]);
      GroupsOfHeaded(c);
      ExtendedSize(Groups(IsHead, c), [l]);
    }
  }

  lemma ExtendedGrows(gs: seq<Group>, l: string)
    requires gs != [] && !IsBlank(l)
    ensures Size(ShowAll(Extend(gs, [l]))) > Size(ShowAll(gs))
  {
    var n := |gs| - 1;
    ExtendedSize(gs, [l]);
    SizeSnoc(gs[..n], gs[n]);
    Seqs.Init(gs);
    TrimJoinGrows(gs[n].detail, [l], 0);
  }

  lemma MoreLine(c: seq<string>, l: string)
    requires c != [] && IsHead(c[0]) && !IsBlank(l)
    ensures NoLess(Entries(c + [l]), Entries(c))
  {
    OneLonger(c, l);
    if !IsHead(l) {
      GroupsOfHeaded(c);
      ExtendedGrows(Groups(IsHead, c), l);
    }
  }

  lemma TrimmedSuffix(l: string)
    ensures l == TrimEnd(l) + l[Trailing(l)..] && IsBlank(l[Trailing(l)..])
  {
    TrailingSpec(l);
    SuffixBlank(l, Trailing(l));
    Seqs.Parts(l, Trailing(l));
  }

  lemma SuffixBlank(l: string, n: nat)
    requires n <= |l| && forall i :: n <= i < |l| ==> IsSpace(l[i])
    ensures IsBlank(l[n..])
  {
    TrailingIs(l[n..], 0);
  }

  lemma LongerByBlank(a: string, t: string, y: string)
    requires IsBlank(y)
    ensures Trim(a + (t + y)) == Trim(a + t)
  {
    Seqs.Assoc(a, t, y);
    TrimBlankTail(a + t, y);
  }

  lemma TrimmedDetail(ls: seq<string>, l: string)
    ensures Trim(Join(ls + [TrimEnd(l)])) == Trim(Join(ls + [l]))
  {
    var t, y := TrimEnd(l), l[Trailing(l)..];
    TrimmedSuffix(l);
    if ls == [] {
      assert ls + [l] == [l] && ls + [t] == [t];
      TrimBlankTail(t, y);
    } else {
      JoinConcat(ls, [l]);
      JoinConcat(ls, [t]);
      Seqs.Assoc("\n", t, y);
      LongerByBlank(Join(ls), "\n" + t, y);
    }
  }

  lemma TrimmedLine(c: seq<string>, l: string)
    requires c != [] && IsHead(c[0])
    ensures NoLess(Entries(c + [TrimEnd(l)]), Entries(c + [l]))
  {
    OneLonger(c, l);
    OneLonger(c, TrimEnd(l));
    if !IsHead(l) && !IsHead(TrimEnd(l)) {
      var gs := Groups(IsHead, c);
      GroupsOfHeaded(c);
      ExtendedSize(gs, [l]);
      ExtendedSize(gs, [TrimEnd(l)]);
      TrimmedDetail(gs[|gs| - 1].detail, l);
    }
  }

  // ---- the lines the reader reads ----

  /** z is y with the end of the text trimmed: y ends in the last line that is not blank, with blank ones
      after it, or, if that line ends the section, before it. */
  ghost predicate Shortens(q: seq<string>, l: string, w: seq<string>, y: seq<string>, z: seq<string>) {
    !IsBlank(l) && AllBlank(w) && (y == q || y == q + ([l] + w)) && z == q + [TrimEnd(l), ""]
  }

  lemma StripTrimmed(l: string)
    requires !IsBlank(l)
    ensures StripReturn(TrimEnd(l)) == TrimEnd(l) == TrimEnd(StripReturn(l)) && !IsBlank(StripReturn(l))
  {
    TrailingSpec(l);
    var m := StripReturn(l);
    TrailingIs(m, Trailing(l));
  }

  lemma ShortenedRead(b: seq<string>, q: seq<string>, l: string, z: seq<string>)
    requires !IsBlank(l) && z == q + [TrimEnd(l), ""]
    ensures Entries(Stripped(b + z)) == Entries((Stripped(b) + Stripped(q)) + [TrimEnd(StripReturn(l))])
  {
    StripTrimmed(l);
    assert Stripped(b + z) == ((Stripped(b) + Stripped(q)) + [TrimEnd(l)]) + [""];
    BlankSpec("");
    EntriesBlank((Stripped(b) + Stripped(q)) + [TrimEnd(l)], [""]);
  }

  lemma FullRead(b: seq<string>, q: seq<string>, l: string, w: seq<string>)
    requires AllBlank(w)
    ensures Entries(Stripped(b + (q + ([l] + w)))) == Entries((Stripped(b) + Stripped(q)) + [StripReturn(l)])
  {
    assert Stripped(b + (q + ([l] + w))) == ((Stripped(b) + Stripped(q)) + [StripReturn(l)]) + Stripped(w);
    StrippedBlank(w);
    EntriesBlank((Stripped(b) + Stripped(q)) + [StripReturn(l)], Stripped(w));
  }

  lemma ShortensNoLess(b: seq<string>, q: seq<string>, l: string, w: seq<string>, y: seq<string>, z: seq<string>)
    requires b != [] && IsHead(Stripped(b)[0]) && Shortens(q, l, w, y, z)
    ensures ReadsNoLess(b, z, y)
  {
    var c := Stripped(b) + Stripped(q);
    StripTrimmed(l);
    TrimEndTrimmed(StripReturn(l));
    ShortenedRead(b, q, l, z);
    if y == q {
      StrippedConcat(b, q);
      MoreLine(c, TrimEnd(StripReturn(l)));
    } else {
      FullRead(b, q, l, w);
      TrimmedLine(c, StripReturn(l));
    }
  }

  // ---- the lines after an amendment ----

  lemma {:induction false} LastLine(ls: seq<string>) returns (p: nat)
    requires ls != [] && !IsBlank(ls[0])
    ensures p < |ls| && !IsBlank(ls[p]) && AllBlank(ls[p + 1..])
    ensures TrimLines(ls) == ls[..p] + [TrimEnd(ls[p])]
    decreases |ls|
  {
    var n := |ls| - 1;
    if n > 0 && IsBlank(ls[n]) {
      p := LastLine(ls[..n]);
      assert ls[p + 1..] == ls[..n][p + 1..] + [ls[n]];
      assert ls[..n][..p] == ls[..p];
    } else {
      p := n;
    }
  }

  lemma TrimmedBreak(l: string)
    requires Breaks(TrimEnd(l)) && !IsBlank(l)
    ensures Breaks(l)
  {
    StripTrimmed(l);
    var m, t := StripReturn(l), TrimEnd(l);
    assert t == m[..|t|];
    assert m[..2] == t[..2] && m[2] == t[2];
  }

  lemma BlanksDoNotBreak(ls: seq<string>)
    requires AllBlank(ls)
    ensures Lacks(Breaks, ls)
  {
    forall i | 0 <= i < |ls| ensures !Breaks(ls[i]) {
      BlankIsPlain(ls[i]);
      BlankIsPlain(StripReturn(ls[i]));
    }
  }

  /** Where the reader stops in trimmed lines, and what it reads until there: what it read before, or that
      with the end of the text trimmed. */
  lemma TrimmedReading(b: seq<string>, t: seq<string>, p: nat, u: seq<string>) returns (z: seq<string>, d: seq<string>)
    requires b != [] && IsHead(Stripped(b)[0])
    requires p < |t| && !IsBlank(t[p]) && AllBlank(t[p + 1..]) && u == (t[..p] + [TrimEnd(t[p])]) + [""]
    ensures z + d == u && Lacks(Breaks, z) && (d != [] ==> Breaks(d[0]))
    ensures ReadsNoLess(b, z, t[..First(Breaks, t, 0)])
  {
    var r := First(Breaks, t, 0);
    if r < p || (r == p && Breaks(TrimEnd(t[p]))) {
      z, d := t[..r], u[r..];
      assert u[..r] == t[..r];
      Seqs.Parts(u, r);
      assert r < p ==> u[r] == t[..p][r];
    } else {
      z, d := u, [];
      assert u == t[..p] + [TrimEnd(t[p]), ""];
      WholeReading(t, p, r, z);
      ShortensNoLess(b, t[..p], t[p], t[p + 1..], t[..r], z);
    }
  }

  lemma WholeReading(t: seq<string>, p: nat, r: nat, z: seq<string>)
    requires p < |t| && !IsBlank(t[p]) && AllBlank(t[p + 1..]) && z == t[..p] + [TrimEnd(t[p]), ""]
    requires r == First(Breaks, t, 0) >= p && (r == p ==> !Breaks(TrimEnd(t[p])))
    ensures Lacks(Breaks, z) && Shortens(t[..p], t[p], t[p + 1..], t[..r], z)
  {
    if r > p {
      NoLaterBreak(t, p);
      LastParts(t, p);
      if Breaks(TrimEnd(t[p])) { TrimmedBreak(t[p]); }
    }
    LacksParts(t[..p], TrimEnd(t[p]));
  }

  /** Blank lines end no section. */
  lemma NoLaterBreak(t: seq<string>, p: nat)
    requires p < |t| && AllBlank(t[p + 1..])
    ensures forall i :: p < i < |t| ==> !Breaks(t[i])
  {
    BlanksDoNotBreak(t[p + 1..]);
    forall i | p < i < |t| ensures !Breaks(t[i]) {
      assert t[i] == t[p + 1..][i - p - 1];
    }
  }

  lemma LastParts(t: seq<string>, p: nat)
    requires p < |t|
    ensures t == t[..p] + ([t[p]] + t[p + 1..]) && t[..|t|] == t
  {
  }

  lemma LacksParts(q: seq<string>, l: string)
    requires Lacks(Breaks, q) && !Breaks(l)
    ensures Lacks(Breaks, q + [l, ""])
  {
    EmptyIsQuiet();
  }
}
