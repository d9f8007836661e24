/**
 JSON values as trees, the whitespace-free text JSON.stringify gives them (members in property
 order), and a recursive-descent reader that inverts it (RFC 8259, sections 2 to 7).
 */
module Json {
  import opened JsonText
  import Seqs

  const COMMA: CodeUnit := 0x2C
  const COLON: CodeUnit := 0x3A
  const LBRACKET: CodeUnit := 0x5B
  const RBRACKET: CodeUnit := 0x5D
  const LBRACE: CodeUnit := 0x7B
  const RBRACE: CodeUnit := 0x7D
  const NULL_TEXT: Text := [0x6E, 0x75, 0x6C, 0x6C]
  const TRUE_TEXT: Text := [0x74, 0x72, 0x75, 0x65]
  const FALSE_TEXT: Text := [0x66, 0x61, 0x6C, 0x73, 0x65]

  /** The units that can occur in a number: digits, signs, the point and the exponent mark. */
  predicate IsNumberUnit(u: CodeUnit) {
    0x30 <= u <= 0x39 || u == 0x2B || u == 0x2D || u == 0x2E || u == 0x45 || u == 0x65
  }

  predicate StartsNumber(t: Text) { t != [] && (0x30 <= t[0] <= 0x39 || t[0] == 0x2D) }

  predicate IsNumberText(t: Text) {
    StartsNumber(t) && forall u | u in t :: IsNumberUnit(u)
  }

  /** A finite number, as the shortest decimal text that denotes it. */
  type NumberText = t: Text | IsNumberText(t) witness [0x30]

  datatype Entry<+V> = Entry(key: Text, val: V)

  datatype Json =
    | Null
    | Bool(b: bool)
    | Num(num: NumberText)
    | Str(s: Text)
    | Arr(items: seq<Json>)
    | Obj(members: seq<Entry<Json>>)

  /** What may follow a value in a larger text: nothing, or a unit that cannot extend a number. */
  predicate Delimited(rest: Text) { rest == [] || !IsNumberUnit(rest[0]) }

  predicate StartsValue(t: Text) {
    t != [] && t[0] != COMMA && t[0] != RBRACKET && t[0] != RBRACE
  }

  function Stringify(v: Json): (t: Text)
    ensures StartsValue(t)
    decreases v, 0
  {
    match v
    case Null => NULL_TEXT
    case Bool(b) => if b then TRUE_TEXT else FALSE_TEXT
    case Num(n) => n
    case Str(s) => Quote(s)
    case Arr(items) => [LBRACKET] + Elements(items) + [RBRACKET]
    case Obj(members) => [LBRACE] + Members(members) + [RBRACE]
  }

  /** The items joined by commas. */
  function Elements(items: seq<Json>): (t: Text)
    ensures items != [] ==> StartsValue(t)
    decreases items, 0
  {
    if items == [] then []
    else Stringify(items[0]) + (if |items| == 1 then [] else [COMMA] + Elements(items[1..]))
  }

  /** The "key":value pairs joined by commas. */
  function Members(members: seq<Entry<Json>>): (t: Text)
    ensures members != [] ==> t != [] && t[0] == QUOTE
    decreases members, 0
  {
    if members == [] then []
    else
      Quote(members[0].key) + [COLON] + Stringify(members[0].val)
      + (if |members| == 1 then [] else [COMMA] + Members(members[1..]))
  }

  /** The longest prefix of number units. */
  function NumberPrefix(t: Text): (n: nat)
    ensures n <= |t|
    ensures forall i :: 0 <= i < n ==> IsNumberUnit(t[i])
    ensures n < |t| ==> !IsNumberUnit(t[n])
  {
    if t == [] || !IsNumberUnit(t[0]) then 0 else 1 + NumberPrefix(t[1..])
  }

  function ParseValue(t: Text): (r: Scan<Json>)
    ensures r.Read? ==> |r.rest| < |t|
    decreases |t|, 0
  {
    if t == [] then Fail
    else if t[0] == LBRACKET then
      match ParseItems(t[1..])
      case Fail => Fail
      case Read(items, rest) => Read(Arr(items), rest)
    else if t[0] == LBRACE then
      match ParseMembers(t[1..])
      case Fail => Fail
      case Read(members, rest) => Read(Obj(members), rest)
    else ParseScalar(t)
  }

  function ParseScalar(t: Text): (r: Scan<Json>)
    requires t != []
    ensures r.Read? ==> |r.rest| < |t|
  {
    if t[0] == QUOTE then
      match ReadString(t[1..])
      case Fail => Fail
      case Read(s, rest) => Read(Str(s), rest)
    else if StartsNumber(t) then Read(Num(t[..NumberPrefix(t)]), t[NumberPrefix(t)..])
    else if NULL_TEXT <= t then Read(Null, t[4..])
    else if TRUE_TEXT <= t then Read(Bool(true), t[4..])
    else if FALSE_TEXT <= t then Read(Bool(false), t[5..])
    else Fail
  }

  /** The items of an array and the closing bracket. */
  function ParseItems(t: Text): (r: Scan<seq<Json>>)
    ensures r.Read? ==> |r.rest| < |t|
    decreases |t|, 2
  {
    if t == [] then Fail
    else if t[0] == RBRACKET then Read([], t[1..])
    else ParseItem(t)
  }

  /** One item, then either the closing bracket or a comma and more items. */
  function ParseItem(t: Text): (r: Scan<seq<Json>>)
    ensures r.Read? ==> |r.rest| < |t|
    decreases |t|, 1
  {
    match ParseValue(t)
    case Fail => Fail
    case Read(v, after) =>
      if after == [] then Fail
      else if after[0] == RBRACKET then Read([v], after[1..])
      else if after[0] != COMMA then Fail
      else
        match ParseItem(after[1..])
        case Fail => Fail
        case Read(vs, rest) => Read([v] + vs, rest)
  }

  /** The members of an object and the closing brace. */
  function ParseMembers(t: Text): (r: Scan<seq<Entry<Json>>>)
    ensures r.Read? ==> |r.rest| < |t|
    decreases |t|, 3
  {
    if t == [] then Fail
    else if t[0] == RBRACE then Read([], t[1..])
    else ParseMember(t)
  }

  /** The key of a member and its colon. */
  function ReadKey(t: Text): (r: Scan<Text>)
    ensures r.Read? ==> |r.rest| < |t|
  {
    if t == [] || t[0] != QUOTE then Fail
    else
      match ReadString(t[1..])
      case Fail => Fail
      case Read(key, rest) => if rest == [] || rest[0] != COLON then Fail else Read(key, rest[1..])
  }

  /** One member, then either the closing brace or a comma and more members. */
  function ParseMember(t: Text): (r: Scan<seq<Entry<Json>>>)
    ensures r.Read? ==> |r.rest| < |t|
    decreases |t|, 2
  {
    match ReadKey(t)
    case Fail => Fail
    case Read(key, tail) =>
      match ParseValue(tail)
      case Fail => Fail
      case Read(v, after) =>
        if after == [] then Fail
        else if after[0] == RBRACE then Read([Entry(key, v)], after[1..])
        else if after[0] != COMMA then Fail
        else
          match ParseMember(after[1..])
          case Fail => Fail
          case Read(ms, rest) => Read([Entry(key, v)] + ms, rest)
  }

  lemma {:induction false} NumberPrefixOf(n: Text, rest: Text)
    requires forall u | u in n :: IsNumberUnit(u)
    requires Delimited(rest)
    ensures NumberPrefix(n + rest) == |n|
  {
    if n == [] {
      assert n + rest == rest;
    } else {
      assert (n + rest)[1..] == n[1..] + rest;
      NumberPrefixOf(n[1..], rest);
    }
  }

  /** The reader inverts the printer on every value, and stops exactly where the value ends. */
  lemma {:induction false} ParseStringify(v: Json, rest: Text)
    requires Delimited(rest)
    ensures ParseValue(Stringify(v) + rest) == Read(v, rest)
    decreases v, 0
  {
    match v
    case Arr(items) =>
      ParseItemsOf(items, [RBRACKET] + rest);
      ParseBracketed(Elements(items), items, rest);
    case Obj(members) =>
      ParseMembersOf(members, [RBRACE] + rest);
      ParseBraced(Members(members), members, rest);
    case _ => ParseScalarOf(v, rest);
  }

  lemma ParseScalarOf(v: Json, rest: Text)
    requires !v.Arr? && !v.Obj? && Delimited(rest)
    ensures ParseValue(Stringify(v) + rest) == Read(v, rest)
  {
    var w := Stringify(v);
    var t := w + rest;
    assert t[..|w|] == w && t[|w|..] == rest;
    assert t[0] == w[0];
    if v.Str? {
      ReadQuoted(v.s, rest);
    } else if v.Num? {
      NumberPrefixOf(v.num, rest);
    } else {
      assert t[1] == w[1] && !StartsNumber(t);
    }
  }

  lemma ParseBracketed(inner: Text, items: seq<Json>, rest: Text)
    requires ParseItems(inner + ([RBRACKET] + rest)) == Read(items, rest)
    ensures ParseValue([LBRACKET] + inner + [RBRACKET] + rest) == Read(Arr(items), rest)
  {
    var t := [LBRACKET] + inner + [RBRACKET] + rest;
    assert t[1..] == inner + ([RBRACKET] + rest);
  }

  lemma ParseBraced(inner: Text, members: seq<Entry<Json>>, rest: Text)
    requires ParseMembers(inner + ([RBRACE] + rest)) == Read(members, rest)
    ensures ParseValue([LBRACE] + inner + [RBRACE] + rest) == Read(Obj(members), rest)
  {
    var t := [LBRACE] + inner + [RBRACE] + rest;
    assert t[1..] == inner + ([RBRACE] + rest);
  }

  lemma {:induction false} ParseItemsOf(items: seq<Json>, end: Text)
    requires end != [] && end[0] == RBRACKET
    ensures ParseItems(Elements(items) + end) == Read(items, end[1..])
    decreases items, 2
  {
    if items == [] {
      assert Elements(items) + end == end;
    } else {
      ParseItemOf(items, end);
    }
  }

  lemma ParseItemCons(t: Text, v: Json, after: Text, vs: seq<Json>, rest: Text)
    requires after != [] && after[0] == COMMA
    requires ParseValue(t) == Read(v, after)
    requires ParseItem(after[1..]) == Read(vs, rest)
    ensures ParseItem(t) == Read([v] + vs, rest)
  {
  }

  lemma {:induction false} ParseItemOf(items: seq<Json>, end: Text)
    requires items != [] && end != [] && end[0] == RBRACKET
    ensures ParseItem(Elements(items) + end) == Read(items, end[1..])
    decreases items, 1
  {
    if |items| == 1 {
      ParseStringify(items[0], end);
      assert Elements(items) == Stringify(items[0]);
      assert items == [items[0]];
    } else {
      var first, others := Stringify(items[0]), Elements(items[1..]);
      var after := [COMMA] + (others + end);
      ParseStringify(items[0], after);
      assert after[1..] == others + end;
      ParseItemOf(items[1..], end);
      ParseItemCons(first + after, items[0], after, items[1..], end[1..]);
      Seqs.HeadTail(items);
      Seqs.Assoc([COMMA], others, end);
      Seqs.Assoc(first, [COMMA] + others, end);
    }
  }

  lemma {:induction false} ParseMembersOf(members: seq<Entry<Json>>, end: Text)
    requires end != [] && end[0] == RBRACE
    ensures ParseMembers(Members(members) + end) == Read(members, end[1..])
    decreases members, 2
  {
    if members == [] {
      assert Members(members) + end == end;
    } else {
      ParseMemberOf(members, end);
    }
  }

  /** What follows the first member's value: the end of the object, or a comma and more members. */
  function AfterFirst(members: seq<Entry<Json>>, end: Text): Text
    requires members != []
  {
    if |members| == 1 then end else [COMMA] + (Members(members[1..]) + end)
  }

  lemma ReadFirstKey(members: seq<Entry<Json>>, end: Text)
    requires members != []
    ensures ReadKey(Members(members) + end)
         == Read(members[0].key, Stringify(members[0].val) + AfterFirst(members, end))
  {
    var m, after := members[0], AfterFirst(members, end);
    var value := Stringify(m.val);
    var others := if |members| == 1 then [] else [COMMA] + Members(members[1..]);
    assert others + end == after;
    assert Members(members) == Quote(m.key) + [COLON] + value + others;
    ReadKeyOf(m.key, value, others, end);
  }

  lemma ReadKeyOf(key: Text, value: Text, others: Text, end: Text)
    ensures ReadKey(Quote(key) + [COLON] + value + others + end) == Read(key, value + (others + end))
  {
    var tail := value + (others + end);
    Seqs.Assoc(Quote(key) + [COLON] + value, others, end);
    Seqs.Assoc(Quote(key) + [COLON], value, others + end);
    Seqs.Assoc(Quote(key), [COLON], tail);
    ReadQuoted(key, [COLON] + tail);
    Seqs.DropAppend([COLON], tail);
  }

  lemma {:induction false} ParseMemberOf(members: seq<Entry<Json>>, end: Text)
    requires members != [] && end != [] && end[0] == RBRACE
    ensures ParseMember(Members(members) + end) == Read(members, end[1..])
    decreases members, 1
  {
    var m, after := members[0], AfterFirst(members, end);
    ReadFirstKey(members, end);
    ParseStringify(m.val, after);
    if |members| == 1 {
      assert members == [Entry(m.key, m.val)];
    } else {
      Seqs.HeadTail(members);
      ParseMemberOf(members[1..], end);
      Seqs.DropAppend([COMMA], Members(members[1..]) + end);
    }
  }

  /** As concatenated text, printed values are unambiguous: no value's text is a proper prefix
      of another's before a delimiter, and equal texts come from equal values. */
  lemma StringifyUnambiguous(v: Json, w: Json, rest: Text, rest': Text)
    requires Delimited(rest) && Delimited(rest')
    requires Stringify(v) + rest == Stringify(w) + rest'
    ensures v == w && rest == rest'
  {
    ParseStringify(v, rest);
    ParseStringify(w, rest');
  }

  /** Printed text holds no control characters; in particular it is free of NUL. */
  lemma {:induction false} StringifyPrintable(v: Json)
    ensures Printable(Stringify(v))
    decreases v, 0
  {
    match v
    case Null =>
    case Bool(b) =>
    case Num(n) =>
      forall i | 0 <= i < |n| ensures n[i] >= 0x20 { assert n[i] in n; }
    case Str(s) => EscapePrintable(s);
    case Arr(items) => ElementsPrintable(items);
    case Obj(members) => MembersPrintable(members);
  }

  lemma {:induction false} ElementsPrintable(items: seq<Json>)
    ensures Printable(Elements(items))
    decreases items, 1
  {
    if items != [] {
      StringifyPrintable(items[0]);
      ElementsPrintable(items[1..]);
    }
  }

  lemma {:induction false} MembersPrintable(members: seq<Entry<Json>>)
    ensures Printable(Members(members))
    decreases members, 1
  {
    if members != [] {
      EscapePrintable(members[0].key);
      StringifyPrintable(members[0].val);
      MembersPrintable(members[1..]);
    }
  }
}
