/** The command line: options with a value after an equals sign, options without, one option that also takes
    the next word as its value, and positional words. */
module Args {
  import opened Lines
  import Seqs

  datatype Value = Given(text: string) | Set

  datatype Parsed = Parsed(positional: seq<string>, flags: map<string, Value>)

  const REPO_ROOT: string := "repo-root"
  const BARE: string := "--" + REPO_ROOT

  predicate IsOption(word: string) { StartsWith(word, "--") }

  /** Where the first equals sign is, or the length of the word. */
  function EqualsAt(word: string): (n: nat)
    ensures n <= |word|
    ensures n < |word| ==> word[n] == '='
    ensures forall i :: 0 <= i < n ==> word[i] != '='
  {
    if word == "" || word[0] == '=' then 0 else 1 + EqualsAt(word[1..])
  }

  /** The option takes the next word as its value. */
  predicate TakesNext(argv: seq<string>)
    requires argv != []
  {
    argv[0] == BARE && |argv| > 1 && !IsOption(argv[1])
  }

  /** What the first word contributes, together with the next one if it takes it. */
  function FirstWord(argv: seq<string>): Parsed
    requires argv != []
  {
    var word := argv[0];
    if !IsOption(word) then Parsed([word], map[])
    else if EqualsAt(word) < |word| && EqualsAt(word) >= 2 then
      Parsed([], map[word[2..EqualsAt(word)] := Given(word[EqualsAt(word) + 1..])])
    else if TakesNext(argv) then Parsed([], map[REPO_ROOT := Given(argv[1])])
    else Parsed([], map[word[2..] := Set])
  }

  function Width(argv: seq<string>): nat
    requires argv != []
  {
    if TakesNext(argv) then 2 else 1
  }

  /** Positional words append, and later flags win. */
  function Then(a: Parsed, b: Parsed): Parsed { Parsed(a.positional + b.positional, a.flags + b.flags) }

  function Parse(argv: seq<string>): Parsed {
    if argv == [] then Parsed([], map[]) else Then(FirstWord(argv), Parse(argv[Width(argv)..]))
  }

  lemma BareIsOption()
    ensures IsOption(BARE) && BARE[2..] == REPO_ROOT && EqualsAt(BARE) == |BARE|
    ensures |BARE| > 2
  {
    NoEquals(BARE);
  }

  lemma {:induction false} NoEquals(word: string)
    requires forall i :: 0 <= i < |word| ==> word[i] != '='
    ensures EqualsAt(word) == |word|
  {
    if word != "" { NoEquals(word[1..]); }
  }

  lemma EqualsAfterDashes(word: string)
    requires IsOption(word)
    ensures |word| >= 2 && EqualsAt(word) >= 2
  {
    assert word[..2][0] == word[0] && word[..2][1] == word[1];
  }

  lemma ThenAssoc(a: Parsed, b: Parsed, c: Parsed)
    ensures Then(Then(a, b), c) == Then(a, Then(b, c))
  {
    Seqs.Assoc(a.positional, b.positional, c.positional);
    assert a.flags + b.flags + c.flags == a.flags + (b.flags + c.flags);
  }

  lemma ThenNothing(a: Parsed)
    ensures Then(a, Parsed([], map[])) == a && Then(Parsed([], map[]), a) == a
  {
    assert a.flags + map[] == a.flags && map[] + a.flags == a.flags;
  }

  /** The parser itself: one pass with an index, collecting words and setting flags. */
  method ParseArgs(argv: seq<string>) returns (r: Parsed)
    ensures r == Parse(argv)
  {
    var positional, flags := [], map[];
    var i := 0;
    ThenNothing(Parse(argv));
    assert argv[0..] == argv;
    while i < |argv|
      invariant 0 <= i <= |argv|
      invariant Then(Parsed(positional, flags), Parse(argv[i..])) == Parse(argv)
    {
      var one, width := ReadWord(argv, i);
      ThenAssoc(Parsed(positional, flags), one, Parse(argv[i + width..]));
      positional, flags := positional + one.positional, flags + one.flags;
      i := i + width;
    }
    ThenNothing(Parsed(positional, flags));
    r := Parsed(positional, flags);
  }

  method ReadWord(argv: seq<string>, i: nat) returns (one: Parsed, width: nat)
    requires i < |argv|
    ensures i + width <= |argv| && width > 0 && Parse(argv[i..]) == Then(one, Parse(argv[i + width..]))
  {
    var a := argv[i];
    Dropped(argv, i);
    width := 1;
    if StartsWith(a, "--") {
      EqualsAfterDashes(a);
      var eq := EqualsAt(a);
      if eq < |a| {
        one := Parsed([], map[a[2..eq] := Given(a[eq + 1..])]);
        NotBare(a);
      } else if a == BARE && i + 1 < |argv| && !StartsWith(argv[i + 1], "--") {
        one, width := Parsed([], map[REPO_ROOT := Given(argv[i + 1])]), 2;
      } else {
        one := Parsed([], map[a[2..] := Set]);
      }
    } else {
      BareIsOption();
      one := Parsed([a], map[]);
    }
  }

  lemma Dropped(argv: seq<string>, i: nat)
    requires i < |argv|
    ensures argv[i..] != [] && argv[i..][0] == argv[i]
    ensures i + 1 < |argv| ==> |argv[i..]| > 1 && argv[i..][1] == argv[i + 1]
    ensures argv[i..][Width(argv[i..])..] == argv[i + Width(argv[i..])..]
  {
  }

  lemma NotBare(word: string)
    requires EqualsAt(word) < |word|
    ensures word != BARE
  {
    BareIsOption();
  }

  // ---- concatenation ----

  /** The list ends in the option that takes the next word. */
  predicate EndsOpen(a: seq<string>) { a != [] && a[|a| - 1] == BARE }

  lemma FirstOfConcat(a: seq<string>, b: seq<string>)
    requires a != [] && (|a| > 1 || !EndsOpen(a) || b == [] || IsOption(b[0]))
    ensures Width(a + b) == Width(a) && FirstWord(a + b) == FirstWord(a)
    ensures (a + b)[Width(a)..] == a[Width(a)..] + b
  {
    assert (a + b)[0] == a[0];
    if |a| > 1 {
      assert (a + b)[1] == a[1];
    } else if b != [] {
      assert (a + b)[1] == b[0];
    }
  }

  lemma TailOpen(a: seq<string>)
    requires a != []
    ensures EndsOpen(a[Width(a)..]) ==> EndsOpen(a)
    ensures EndsOpen(a) && a[Width(a)..] != [] ==> EndsOpen(a[Width(a)..])
    ensures EndsOpen(a) && a[Width(a)..] == [] ==> |a| == 1
  {
    BareIsOption();
  }

  /** Parsing distributes over concatenation unless the left list ends in the option that takes the next
      word and the right one begins with a word it can take. */
  lemma {:induction false} Distributes(a: seq<string>, b: seq<string>)
    requires !EndsOpen(a) || b == [] || IsOption(b[0])
    ensures Parse(a + b) == Then(Parse(a), Parse(b))
    decreases |a|
  {
    if a == [] {
      assert a + b == b;
      ThenNothing(Parse(b));
    } else {
      FirstOfConcat(a, b);
      TailOpen(a);
      Distributes(a[Width(a)..], b);
      ThenAssoc(FirstWord(a), Parse(a[Width(a)..]), Parse(b));
    }
  }

  /** In the other case one word fewer is positional. */
  lemma {:induction false} WordTaken(a: seq<string>, b: seq<string>)
    requires EndsOpen(a) && b != [] && !IsOption(b[0])
    ensures |Parse(a + b).positional| + 1 == |Then(Parse(a), Parse(b)).positional|
    decreases |a|
  {
    BareIsOption();
    if |a| == 1 {
      var all := a + b;
      assert all[0] == BARE && all[1] == b[0] && all[2..] == b[1..];
      assert a[1..] == [];
    } else {
      FirstOfConcat(a, b);
      TailOpen(a);
      WordTaken(a[Width(a)..], b);
    }
  }

  lemma DistributesIff(a: seq<string>, b: seq<string>)
    ensures Parse(a + b) == Then(Parse(a), Parse(b)) <==> !(EndsOpen(a) && b != [] && !IsOption(b[0]))
  {
    if EndsOpen(a) && b != [] && !IsOption(b[0]) {
      WordTaken(a, b);
    } else {
      Distributes(a, b);
    }
  }

  // ---- the two spellings of the value option ----

  lemma Spelled(d: string)
    ensures IsOption(BARE + "=" + d) && Parse([BARE + "=" + d]) == Parsed([], map[REPO_ROOT := Given(d)])
    ensures !EndsOpen([BARE + "=" + d])
  {
    var word: string := BARE + "=" + d;
    BareIsOption();
    EqualsIs(word, |BARE|);
    assert word[..2] == BARE[..2];
    assert word[2..|BARE|] == REPO_ROOT && word[|BARE| + 1..] == d;
    var words := [word];
    assert words[1..] == [];
    ThenNothing(Parsed([], map[REPO_ROOT := Given(d)]));
  }

  lemma {:induction false} EqualsIs(word: string, n: nat)
    requires n < |word| && word[n] == '=' && forall i :: 0 <= i < n ==> word[i] != '='
    ensures EqualsAt(word) == n
  {
    if n > 0 { EqualsIs(word[1..], n - 1); }
  }

  lemma Spaced(d: string)
    requires !IsOption(d)
    ensures Parse([BARE, d]) == Parsed([], map[REPO_ROOT := Given(d)]) && !EndsOpen([BARE, d])
  {
    BareIsOption();
    assert [BARE, d][2..] == [];
    ThenNothing(Parsed([], map[REPO_ROOT := Given(d)]));
  }

  /** A value that does not look like an option can be given either way, whatever stands before and after. */
  lemma SpellingsAgree(x: seq<string>, d: string, y: seq<string>)
    requires !IsOption(d)
    ensures Parse(x + ([BARE, d] + y)) == Parse(x + ([BARE + "=" + d] + y))
  {
    BareIsOption();
    Spelled(d);
    Spaced(d);
    Distributes([BARE, d], y);
    Distributes([BARE + "=" + d], y);
    Distributes(x, [BARE, d] + y);
    Distributes(x, [BARE + "=" + d] + y);
  }

  /** The two spellings mean the same in every context exactly for such values. */
  lemma SpellingsAgreeIff(d: string)
    ensures (forall x, y :: Parse(x + ([BARE, d] + y)) == Parse(x + ([BARE + "=" + d] + y))) <==> !IsOption(d)
  {
    if !IsOption(d) {
      forall x, y ensures Parse(x + ([BARE, d] + y)) == Parse(x + ([BARE + "=" + d] + y)) {
        SpellingsAgree(x, d, y);
      }
    } else {
      SpellingsDiffer(d);
      assert [] + ([BARE, d] + []) == [BARE, d];
      assert [] + ([BARE + "=" + d] + []) == [BARE + "=" + d];
    }
  }

  lemma SpellingsDiffer(d: string)
    requires IsOption(d)
    ensures Parse([BARE, d]) != Parse([BARE + "=" + d])
  {
    BareIsOption();
    Spelled(d);
    EqualsAfterDashes(d);
    var both, one := [BARE, d], [d];
    assert both[1..] == one && one[1..] == [];
    ThenNothing(FirstWord(one));
    assert Parse(one) == FirstWord(one);
    assert Parse(both) == Then(Parsed([], map[REPO_ROOT := Set]), FirstWord(one));
    var flags := Parse(both).flags;
    assert flags[REPO_ROOT] != Given(d);
  }

  // ---- writing a command line ----

  datatype Item = Word(text: string) | Option(name: string, text: string) | Switch(name: string)

  function Spell(item: Item): string {
    match item
    case Word(text) => text
    case Option(name, text) => "--" + name + "=" + text
    case Switch(name) => "--" + name
  }

  function Spelling(items: seq<Item>): (argv: seq<string>)
    ensures |argv| == |items| && forall i :: 0 <= i < |items| ==> argv[i] == Spell(items[i])
  {
    seq(|items|, i requires 0 <= i < |items| => Spell(items[i]))
  }

  /** A word does not look like an option, and a name holds no equals sign. */
  predicate Plain(item: Item) {
    match item
    case Word(text) => !IsOption(text)
    case Option(name, _) => '=' !in name
    case Switch(name) => '=' !in name
  }

  /** No word stands right after the switch that would take it. */
  predicate Separate(items: seq<Item>) {
    forall i :: 0 < i < |items| && items[i].Word? ==> items[i - 1] != Switch(REPO_ROOT)
  }

  function Meaning(item: Item): Parsed {
    match item
    case Word(text) => Parsed([text], map[])
    case Option(name, text) => Parsed([], map[name := Given(text)])
    case Switch(name) => Parsed([], map[name := Set])
  }

  /** The words in order, and for each name the last value given. */
  function Meanings(items: seq<Item>): Parsed {
    if items == [] then Parsed([], map[]) else Then(Meaning(items[0]), Meanings(items[1..]))
  }

  lemma DashesName(name: string, rest: string)
    ensures var word := "--" + name + rest; IsOption(word) && word[2..|name| + 2] == name && word[|name| + 2..] == rest
  {
    var word := "--" + name + rest;
    assert word[..2] == "--";
  }

  lemma OneItem(item: Item)
    requires Plain(item)
    ensures Parse([Spell(item)]) == Meaning(item)
    ensures IsOption(Spell(item)) <==> !item.Word?
    ensures EndsOpen([Spell(item)]) ==> item == Switch(REPO_ROOT)
  {
    var argv := [Spell(item)];
    assert argv[1..] == [];
    ThenNothing(Meaning(item));
    BareIsOption();
    match item
    case Word(text) =>
    case Option(name, text) =>
      DashesName(name, "=" + text);
      assert "--" + name + "=" + text == "--" + name + ("=" + text);
      EqualsIs(argv[0], |name| + 2);
      assert argv[0][|name| + 2 + 1..] == text;
    case Switch(name) =>
      DashesName(name, "");
      assert "--" + name + "" == "--" + name;
      NoEquals(argv[0]);
      assert argv[0][2..] == name;
  }

  /** What is written out item by item is parsed back as written. */
  lemma {:induction false} ParseSpelling(items: seq<Item>)
    requires Separate(items) && forall i :: 0 <= i < |items| ==> Plain(items[i])
    ensures Parse(Spelling(items)) == Meanings(items)
  {
    if items != [] {
      OneItem(items[0]);
      var rest := Spelling(items[1..]);
      assert Spelling(items) == [Spell(items[0])] + rest;
      if |items| > 1 {
        OneItem(items[1]);
        assert rest[0] == Spell(items[1]);
      }
      ParseSpelling(items[1..]);
      Distributes([Spell(items[0])], rest);
    }
  }
}
