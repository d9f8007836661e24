/** Strings as lines, and the white space that JavaScript's trim and \s remove. */
module Lines {
  import Seqs

  /** ECMAScript white space and line terminators. */
  predicate IsSpace(c: char) {
    var n := c as int;
    || 0x09 <= n <= 0x0D || n == 0x20 || n == 0xA0 || n == 0x1680
    || 0x2000 <= n <= 0x200A || n == 0x2028 || n == 0x2029 || n == 0x202F
    || n == 0x205F || n == 0x3000 || n == 0xFEFF
  }

  /** What a dot in a regular expression does not match. */
  predicate IsTerminator(c: char) {
    c == '\n' || c == '\r' || c as int == 0x2028 || c as int == 0x2029
  }

  ghost predicate Blank(s: string) { forall i :: 0 <= i < |s| ==> IsSpace(s[i]) }

  function Leading(s: string): (n: nat)
    ensures n <= |s|
  {
    if s == [] || !IsSpace(s[0]) then 0 else 1 + Leading(s[1..])
  }

  /** The length of s without its trailing white space. */
  function Trailing(s: string): (n: nat)
    ensures n <= |s|
  {
    if s == [] || !IsSpace(s[|s| - 1]) then |s| else Trailing(s[..|s| - 1])
  }

  function TrimStart(s: string): string { s[Leading(s)..] }

  function TrimEnd(s: string): string { s[..Trailing(s)] }

  function Trim(s: string): string { TrimEnd(TrimStart(s)) }

  lemma {:induction false} LeadingSpec(s: string)
    ensures forall i :: 0 <= i < Leading(s) ==> IsSpace(s[i])
    ensures Leading(s) < |s| ==> !IsSpace(s[Leading(s)])
  {
    if s != [] && IsSpace(s[0]) {
      LeadingSpec(s[1..]);
    }
  }

  lemma {:induction false} TrailingSpec(s: string)
    ensures forall i :: Trailing(s) <= i < |s| ==> IsSpace(s[i])
    ensures Trailing(s) > 0 ==> !IsSpace(s[Trailing(s) - 1])
  {
    if s != [] && IsSpace(s[|s| - 1]) {
      TrailingSpec(s[..|s| - 1]);
    }
  }

  lemma {:induction false} LeadingIs(s: string, n: nat)
    requires n <= |s| && forall i :: 0 <= i < n ==> IsSpace(s[i])
    requires n < |s| ==> !IsSpace(s[n])
    ensures Leading(s) == n
  {
    if n > 0 {
      LeadingIs(s[1..], n - 1);
    }
  }

  lemma {:induction false} TrailingIs(s: string, n: nat)
    requires n <= |s| && forall i :: n <= i < |s| ==> IsSpace(s[i])
    requires n > 0 ==> !IsSpace(s[n - 1])
    ensures Trailing(s) == n
    decreases |s|
  {
    if n < |s| {
      TrailingIs(s[..|s| - 1], n);
    }
  }

  lemma TrimClean(s: string)
    requires s != "" && !IsSpace(s[0]) && !IsSpace(s[|s| - 1])
    ensures Trim(s) == s && TrimStart(s) == s && TrimEnd(s) == s
  {
    LeadingIs(s, 0);
    TrailingIs(s, |s|);
  }

  lemma TrimSpaced(s: string)
    requires s != "" && !IsSpace(s[0])
    ensures TrimStart(" " + s) == s
  {
    LeadingIs(" " + s, 1);
  }

  predicate IsBlank(s: string) { Trailing(s) == 0 }

  lemma BlankSpec(s: string)
    ensures IsBlank(s) <==> Blank(s)
  {
    TrailingSpec(s);
  }

  predicate HasNewline(s: string) { '\n' in s }

  function Split(s: string): (ls: seq<string>)
    ensures |ls| >= 1
    ensures forall i :: 0 <= i < |ls| ==> !HasNewline(ls[i])
  {
    if s == [] then [""]
    else
      var r := Split(s[1..]);
      if s[0] == '\n' then [""] + r else [[s[0]] + r[0]] + r[1..]
  }

  function Join(ls: seq<string>): string {
    if ls == [] then "" else if |ls| == 1 then ls[0] else ls[0] + "\n" + Join(ls[1..])
  }

  lemma {:induction false} JoinSplit(s: string)
    ensures Join(Split(s)) == s
  {
    if s != [] {
      JoinSplit(s[1..]);
      var r := Split(s[1..]);
      if s[0] == '\n' {
        assert ([""] + r)[1..] == r;
      } else {
        var h := [s[0]] + r[0];
        assert ([h] + r[1..])[1..] == r[1..];
        if |r| > 1 {
          assert h + "\n" + Join(r[1..]) == [s[0]] + (r[0] + "\n" + Join(r[1..]));
        }
      }
    }
  }

  lemma {:induction false} SplitPlain(a: string)
    requires !HasNewline(a)
    ensures Split(a) == [a]
  {
    if a != [] {
      SplitPlain(a[1..]);
      Seqs.HeadTail(a);
    }
  }

  lemma {:induction false} SplitNewline(a: string, b: string)
    ensures Split(a + ("\n" + b)) == Split(a) + Split(b)
  {
    var s := a + ("\n" + b);
    if a == [] {
      assert s == "\n" + b;
      assert s[1..] == b;
    } else {
      assert s[1..] == a[1..] + ("\n" + b);
      SplitNewline(a[1..], b);
      var q, r := Split(a[1..]), Split(b);
      Seqs.Assoc([""], q, r);
      assert (q + r)[1..] == q[1..] + r;
      Seqs.Assoc([[s[0]] + q[0]], q[1..], r);
    }
  }

  lemma {:induction false} SplitJoin(ls: seq<string>)
    requires ls != [] && forall i :: 0 <= i < |ls| ==> !HasNewline(ls[i])
    ensures Split(Join(ls)) == ls
  {
    SplitPlain(ls[0]);
    if |ls| > 1 {
      SplitJoin(ls[1..]);
      SplitNewline(ls[0], Join(ls[1..]));
      Seqs.Assoc(ls[0], "\n", Join(ls[1..]));
    }
    Seqs.HeadTail(ls);
  }

  lemma {:induction false} JoinConcat(a: seq<string>, b: seq<string>)
    requires a != [] && b != []
    ensures Join(a + b) == Join(a) + ("\n" + Join(b))
  {
    if |a| == 1 {
      assert (a + b)[1..] == b;
      Seqs.Assoc(a[0], "\n", Join(b));
    } else {
      assert (a + b)[1..] == a[1..] + b;
      JoinConcat(a[1..], b);
      Seqs.Assoc(a[0] + "\n", Join(a[1..]), "\n" + Join(b));
    }
  }

  lemma BlankConcat(a: string, b: string)
    ensures IsBlank(a + b) <==> IsBlank(a) && IsBlank(b)
  {
    TrailingConcat(a, b);
  }

  lemma {:induction false} TrailingConcat(a: string, b: string)
    ensures Trailing(a + b) == if Trailing(b) == 0 then Trailing(a) else |a| + Trailing(b)
    decreases |b|
  {
    if b == [] {
      assert a + b == a;
    } else {
      var n := |b| - 1;
      assert (a + b)[|a| + n] == b[n];
      assert (a + b)[..|a| + n] == a + b[..n];
      if IsSpace(b[n]) {
        TrailingConcat(a, b[..n]);
      }
    }
  }

  lemma TrimEndConcat(a: string, b: string)
    ensures TrimEnd(a + b) == if IsBlank(b) then TrimEnd(a) else a + TrimEnd(b)
  {
    TrailingConcat(a, b);
  }

  /** Lines without the blank ones at the end, and without white space at the end of the last one. */
  function TrimLines(ls: seq<string>): (r: seq<string>)
    requires ls != []
    ensures r != []
  {
    var n := |ls| - 1;
    if n > 0 && IsBlank(ls[n]) then TrimLines(ls[..n]) else ls[..n] + [TrimEnd(ls[n])]
  }

  lemma TrimEndLine(a: string, b: string)
    ensures TrimEnd(a + ("\n" + b)) == if IsBlank(b) then TrimEnd(a) else a + ("\n" + TrimEnd(b))
  {
    TrailingConcat(a, "\n" + b);
    TrailingConcat("\n", b);
  }

  lemma {:induction false} TrimJoin(ls: seq<string>)
    requires ls != []
    ensures TrimEnd(Join(ls)) == Join(TrimLines(ls))
  {
    var n := |ls| - 1;
    if n == 0 {
      assert ls[..0] == [];
    } else {
      assert ls[..n] + [ls[n]] == ls;
      JoinConcat(ls[..n], [ls[n]]);
      TrimEndLine(Join(ls[..n]), ls[n]);
      if IsBlank(ls[n]) {
        TrimJoin(ls[..n]);
      } else {
        JoinConcat(ls[..n], [TrimEnd(ls[n])]);
      }
    }
  }

  lemma {:induction false} TrimLinesPlain(ls: seq<string>)
    requires ls != [] && forall i :: 0 <= i < |ls| ==> !HasNewline(ls[i])
    ensures forall i :: 0 <= i < |TrimLines(ls)| ==> !HasNewline(TrimLines(ls)[i])
  {
    var n := |ls| - 1;
    if n > 0 && IsBlank(ls[n]) {
      TrimLinesPlain(ls[..n]);
    }
  }

  /** The lines of a text that was trimmed at its end and given one final newline. */
  lemma SplitTrimmed(ls: seq<string>)
    requires ls != [] && forall i :: 0 <= i < |ls| ==> !HasNewline(ls[i])
    ensures Split(TrimEnd(Join(ls)) + "\n") == TrimLines(ls) + [""]
  {
    TrimJoin(ls);
    TrimLinesPlain(ls);
    SplitJoin(TrimLines(ls));
    SplitNewline(Join(TrimLines(ls)), "");
    assert "\n" + "" == "\n";
  }

  /** Trimming stops at a line that is not blank. */
  lemma {:induction false} TrimLinesSuffix(a: seq<string>, b: seq<string>, i: nat)
    requires i < |b| && !IsBlank(b[i])
    ensures TrimLines(a + b) == a + TrimLines(b)
    decreases |b|
  {
    var n := |b| - 1;
    assert (a + b)[|a| + n] == b[n];
    assert (a + b)[..|a| + n] == a + b[..n];
    if IsBlank(b[n]) {
      TrimLinesSuffix(a, b[..n], i);
    } else {
      Seqs.Assoc(a, b[..n], [TrimEnd(b[n])]);
    }
  }

  /** No white space at the end. */
  predicate Trimmed(s: string) { Trailing(s) == |s| }

  lemma TrimEndTrimmed(s: string)
    ensures Trimmed(TrimEnd(s))
    ensures IsBlank(TrimEnd(s)) <==> IsBlank(s)
    ensures Trimmed(s) ==> TrimEnd(s) == s
  {
    TrailingSpec(s);
    TrailingIs(TrimEnd(s), Trailing(s));
  }

  /** Trimming keeps a prefix of every line, and leaves the last line trimmed. */
  lemma {:induction false} TrimLinesKeep(ls: seq<string>)
    requires ls != []
    ensures var r := TrimLines(ls);
            && |r| <= |ls|
            && (forall i :: 0 <= i < |r| ==> r[i] <= ls[i])
            && Trimmed(r[|r| - 1])
            && (|r| > 1 ==> !IsBlank(r[|r| - 1]))
  {
    var n := |ls| - 1;
    if n > 0 && IsBlank(ls[n]) {
      TrimLinesKeep(ls[..n]);
    } else {
      TrimEndTrimmed(ls[n]);
    }
  }

  lemma {:induction false} LeadingConcat(x: string, y: string)
    ensures Leading(x + y) == if Leading(x) < |x| then Leading(x) else |x| + Leading(y)
  {
    if x == [] {
      assert x + y == y;
    } else if IsSpace(x[0]) {
      assert (x + y)[1..] == x[1..] + y;
      LeadingConcat(x[1..], y);
    }
  }

  lemma LeadingBlank(x: string)
    ensures IsBlank(x) <==> Leading(x) == |x|
  {
    BlankSpec(x);
    LeadingSpec(x);
    if Blank(x) {
      LeadingIs(x, |x|);
    }
  }

  lemma {:induction false} FirstTrimmed(ls: seq<string>)
    requires ls != []
    ensures TrimLines(ls)[0] == ls[0] || TrimLines(ls)[0] == TrimEnd(ls[0])
  {
    var n := |ls| - 1;
    if n > 0 && IsBlank(ls[n]) {
      FirstTrimmed(ls[..n]);
    }
  }

  lemma TrimBlankTail(x: string, y: string)
    requires IsBlank(y)
    ensures Trim(x + y) == Trim(x)
  {
    LeadingConcat(x, y);
    LeadingBlank(y);
    if Leading(x) < |x| {
      assert TrimStart(x + y) == TrimStart(x) + y;
      TrimEndConcat(TrimStart(x), y);
    }
  }

  ghost predicate AllBlank(ls: seq<string>) { forall i :: 0 <= i < |ls| ==> IsBlank(ls[i]) }

  lemma {:induction false} JoinBlank(ls: seq<string>)
    requires AllBlank(ls)
    ensures IsBlank(Join(ls))
  {
    if |ls| > 1 {
      JoinBlank(ls[1..]);
      BlankConcat(ls[0], "\n");
      BlankConcat(ls[0] + "\n", Join(ls[1..]));
    }
  }

  lemma TrimJoinBlank(ls: seq<string>, blanks: seq<string>)
    requires AllBlank(blanks)
    ensures Trim(Join(ls + blanks)) == Trim(Join(ls))
  {
    JoinBlank(blanks);
    if blanks == [] {
      assert ls + blanks == ls;
    } else if ls == [] {
      assert ls + blanks == blanks;
      TrimBlankTail("", Join(blanks));
      assert "" + Join(blanks) == Join(blanks);
    } else {
      JoinConcat(ls, blanks);
      BlankConcat("\n", Join(blanks));
      TrimBlankTail(Join(ls), "\n" + Join(blanks));
    }
  }

  /** The last line is trimmed, and blank only if it is the only one. */
  predicate Tight(ls: seq<string>) {
    ls != [] && Trimmed(ls[|ls| - 1]) && (|ls| > 1 ==> !IsBlank(ls[|ls| - 1]))
  }

  lemma TightIsTrimmed(ls: seq<string>, n: nat)
    requires Tight(ls) && n + 1 == |ls|
    ensures TrimLines(ls) == ls
  {
    TrimEndTrimmed(ls[n]);
    Seqs.Init(ls);
  }

  /** Blank lines after lines that end tight are all that is trimmed. */
  lemma TightThenBlank(ls: seq<string>, blanks: seq<string>)
    requires Tight(ls) && AllBlank(blanks)
    ensures TrimLines(ls + blanks) == ls
  {
    TightIsTrimmed(ls, |ls| - 1);
    TrimLinesBlank(ls, blanks);
  }

  lemma {:induction false} TrimLinesBlank(ls: seq<string>, blanks: seq<string>)
    requires ls != [] && AllBlank(blanks)
    ensures TrimLines(ls + blanks) == TrimLines(ls)
    decreases |blanks|
  {
    var n := |blanks| - 1;
    if blanks == [] {
      assert ls + blanks == ls;
    } else {
      assert (ls + blanks)[|ls| + n] == blanks[n];
      assert (ls + blanks)[..|ls| + n] == ls + blanks[..n];
      TrimLinesBlank(ls, blanks[..n]);
    }
  }

  /** The last character of a text is the last one of its last line. */
  lemma {:induction false} SplitLast(s: string)
    ensures var l := Split(s)[|Split(s)| - 1]; l != "" ==> s != "" && l[|l| - 1] == s[|s| - 1]
  {
    if s != "" {
      SplitLast(s[1..]);
      if s[1..] == "" {
        assert Split(s[1..]) == [""];
      }
    }
  }

  lemma TrimEnds(s: string)
    ensures Trim(s) != "" ==> !IsSpace(Trim(s)[0]) && !IsSpace(Trim(s)[|Trim(s)| - 1])
    ensures IsBlank(s) <==> Trim(s) == ""
  {
    LeadingSpec(s);
    TrailingSpec(TrimStart(s));
    LeadingBlank(s);
    if Leading(s) < |s| {
      BlankSpec(TrimStart(s));
      assert !IsSpace(TrimStart(s)[0]);
    }
  }

  /** A line that is not blank cannot disappear in the trimmed text. */
  lemma TrimGrows(x: string, y: string)
    requires !IsBlank(y)
    ensures |Trim(x + y)| > |Trim(x)|
  {
    TrimEnds(x);
    TrimEnds(x + y);
    BlankConcat(x, y);
    LeadingConcat(x, y);
    LeadingBlank(x);
    if !IsBlank(x) {
      var t := TrimStart(x);
      assert TrimStart(x + y) == t + y;
      TrimEndConcat(t, y);
    }
  }

  lemma {:induction false} JoinNotBlank(ls: seq<string>, i: nat)
    requires i < |ls| && !IsBlank(ls[i])
    ensures !IsBlank(Join(ls))
  {
    if |ls| > 1 {
      BlankConcat(ls[0] + "\n", Join(ls[1..]));
      BlankConcat(ls[0], "\n");
      if i > 0 {
        JoinNotBlank(ls[1..], i - 1);
      }
    }
  }

  lemma TrimJoinGrows(ls: seq<string>, more: seq<string>, i: nat)
    requires i < |more| && !IsBlank(more[i])
    ensures |Trim(Join(ls + more))| > |Trim(Join(ls))|
  {
    JoinNotBlank(more, i);
    if ls == [] {
      assert ls + more == more;
      assert "" + Join(more) == Join(more);
      TrimGrows("", Join(more));
    } else {
      JoinConcat(ls, more);
      BlankConcat("\n", Join(more));
      TrimGrows(Join(ls), "\n" + Join(more));
    }
  }

  // ---- lines in general ----

  predicate StartsWith(s: string, p: string) { |p| <= |s| && s[..|p|] == p }

  function MapLines(f: string -> string, ls: seq<string>): (r: seq<string>)
    ensures |r| == |ls| && forall i :: 0 <= i < |ls| ==> r[i] == f(ls[i])
  {
    seq(|ls|, i requires 0 <= i < |ls| => f(ls[i]))
  }

  /** A line without the carriage return that a carriage return and newline leaves at its end. */
  function StripReturn(l: string): string {
    if l != [] && l[|l| - 1] == '\r' then l[..|l| - 1] else l
  }

  /** The first line at or after k that satisfies p, or the number of lines. */
  function First(p: string -> bool, ls: seq<string>, k: nat): (n: nat)
    requires k <= |ls|
    ensures k <= n <= |ls|
    ensures n < |ls| ==> p(ls[n])
    ensures forall i :: k <= i < n ==> !p(ls[i])
    decreases |ls| - k
  {
    if k == |ls| || p(ls[k]) then k else First(p, ls, k + 1)
  }

  lemma {:induction false} FirstIs(p: string -> bool, ls: seq<string>, k: nat, n: nat)
    requires k <= n <= |ls|
    requires forall i :: k <= i < n ==> !p(ls[i])
    requires n < |ls| ==> p(ls[n])
    ensures First(p, ls, k) == n
    decreases n - k
  {
    if k < n {
      FirstIs(p, ls, k + 1, n);
    }
  }

  lemma FirstConcat(p: string -> bool, a: seq<string>, b: seq<string>, k: nat)
    requires k <= |a|
    ensures First(p, a + b, k) == if First(p, a, k) < |a| then First(p, a, k) else |a| + First(p, b, 0)
  {
    var n := First(p, a, k);
    if n < |a| {
      FirstIs(p, a + b, k, n);
    } else {
      var q := First(p, b, 0);
      forall i | k <= i < |a| + q ensures !p((a + b)[i]) {
        assert i < |a| || (a + b)[i] == b[i - |a|];
      }
      FirstIs(p, a + b, k, |a| + q);
    }
  }
}
