/**
 What the plan gate hashes: the names and bytes of a run's specification, plan and plan index, each
 closed by a NUL, with the index normalized so that load-plan's own stamps do not count. The hash is
 taken as its preimage.
 */
module GateHash {
  import opened JsonText
  import opened Json
  import opened Keys
  import Seqs

  const PLAN_HASH: Text := [0x70, 0x6C, 0x61, 0x6E, 0x5F, 0x68, 0x61, 0x73, 0x68]
  const GENERATED_AT: Text := [0x67, 0x65, 0x6E, 0x65, 0x72, 0x61, 0x74, 0x65, 0x64, 0x5F, 0x61, 0x74]
  const NUL: CodeUnit := 0

  type Members = seq<Entry<Json>>

  /** The members under other names than k. */
  function Delete(members: Members, k: Text): (r: Members)
    ensures |r| <= |members|
  {
    if members == [] then []
    else if members[0].key == k then Delete(members[1..], k)
    else [members[0]] + Delete(members[1..], k)
  }

  /** The members under the given names. */
  function Pick(members: Members, ks: seq<Text>): (r: Members)
    requires forall i :: 0 <= i < |ks| ==> ks[i] in Names(members)
    ensures |r| == |ks| && forall i :: 0 <= i < |ks| ==> r[i] == Entry(ks[i], Lookup(members, ks[i]))
  {
    seq(|ks|, i requires 0 <= i < |ks| => Entry(ks[i], Lookup(members, ks[i])))
  }

  /** The members that count. */
  function Counted(members: Members): Members { Delete(Delete(members, PLAN_HASH), GENERATED_AT) }

  function SortedMembers(members: Members): Members {
    Pick(Counted(members), Sort(Names(Counted(members))))
  }

  /** The index without its two stamps and with its top-level names in order; anything but an object as it is. */
  function Normal(index: Json): Json { if index.Obj? then Obj(SortedMembers(index.members)) else index }

  /** The value under a name, if there is one. */
  function Value(members: Members, k: Text): seq<Json> {
    if members == [] then []
    else if members[0].key == k then [members[0].val]
    else Value(members[1..], k)
  }

  /** Each name occurs once. */
  predicate Once(members: Members) {
    members == [] || (Value(members[1..], members[0].key) == [] && Once(members[1..]))
  }

  /** A parsed index: an object holds each name once. */
  predicate Proper(index: Json) { index.Obj? ==> Once(index.members) }

  /** The names are deleted from a copy, and the rest is put into a new object in sorted order. */
  method NormalizeIndex(index: Json) returns (t: Text)
    ensures t == Stringify(Normal(index))
  {
    if !index.Obj? { return Stringify(index); }
    var copy := Delete(Delete(index.members, PLAN_HASH), GENERATED_AT);
    var sorted := [];
    var keys := Sort(Names(copy));
    for i := 0 to |keys|
      invariant sorted == Pick(copy, keys)[..i]
    {
      sorted := sorted + [Entry(keys[i], Lookup(copy, keys[i]))];
    }
    assert Pick(copy, keys)[..|keys|] == Pick(copy, keys);
    t := Stringify(Obj(sorted));
  }

  // ---- what the index contributes ----

  lemma Cons(e: Entry<Json>, rest: Members, k: Text)
    ensures Value([e] + rest, k) == if e.key == k then [e.val] else Value(rest, k)
    ensures Once([e] + rest) <==> Value(rest, e.key) == [] && Once(rest)
    ensures Names([e] + rest) == [e.key] + Names(rest)
  {
    assert ([e] + rest)[1..] == rest;
  }

  lemma {:induction false} ValueIsLookup(members: Members, k: Text)
    ensures k in Names(members) <==> Value(members, k) != []
    ensures k in Names(members) ==> Value(members, k) == [Lookup(members, k)]
  {
    if members != [] {
      ValueIsLookup(members[1..], k);
      NamesTail(members);
    }
  }

  lemma NamesTail(members: Members)
    requires members != []
    ensures Names(members) == [members[0].key] + Names(members[1..])
  {
  }

  lemma {:induction false} OnceIsDistinct(members: Members)
    requires Once(members)
    ensures Seqs.Distinct(Names(members))
  {
    if members != [] {
      OnceIsDistinct(members[1..]);
      ValueIsLookup(members[1..], members[0].key);
      NamesTail(members);
      DistinctCons(members[0].key, Names(members[1..]));
    }
  }

  lemma DistinctCons(k: Text, ks: seq<Text>)
    requires k !in ks && Seqs.Distinct(ks)
    ensures Seqs.Distinct([k] + ks)
  {
  }

  lemma {:induction false} DeleteValue(members: Members, k: Text, x: Text)
    ensures Value(Delete(members, k), x) == if x == k then [] else Value(members, x)
  {
    if members != [] {
      DeleteValue(members[1..], k, x);
      Cons(members[0], Delete(members[1..], k), x);
    }
  }

  lemma {:induction false} DeleteOnce(members: Members, k: Text)
    requires Once(members)
    ensures Once(Delete(members, k))
  {
    if members != [] {
      DeleteOnce(members[1..], k);
      DeleteValue(members[1..], k, members[0].key);
      Cons(members[0], Delete(members[1..], k), k);
    }
  }

  predicate Stamp(k: Text) { k == PLAN_HASH || k == GENERATED_AT }

  lemma CountedSpec(members: Members, x: Text)
    ensures Value(Counted(members), x) == if Stamp(x) then [] else Value(members, x)
    ensures Once(members) ==> Once(Counted(members))
  {
    DeleteValue(members, PLAN_HASH, x);
    DeleteValue(Delete(members, PLAN_HASH), GENERATED_AT, x);
    if Once(members) {
      DeleteOnce(members, PLAN_HASH);
      DeleteOnce(Delete(members, PLAN_HASH), GENERATED_AT);
    }
  }

  /** The same index up to its two stamps and the order of its top-level names. */
  ghost predicate SameIndex(a: Json, b: Json) {
    if a.Obj? && b.Obj? then forall k :: !Stamp(k) ==> Value(a.members, k) == Value(b.members, k)
    else a == b
  }

  lemma {:induction false} PickValue(members: Members, ks: seq<Text>, k: Text)
    requires forall i :: 0 <= i < |ks| ==> ks[i] in Names(members)
    ensures Value(Pick(members, ks), k) == if k in ks then [Lookup(members, k)] else []
  {
    if ks != [] {
      PickValue(members, ks[1..], k);
      assert Pick(members, ks) == [Entry(ks[0], Lookup(members, ks[0]))] + Pick(members, ks[1..]);
      Cons(Entry(ks[0], Lookup(members, ks[0])), Pick(members, ks[1..]), k);
    }
  }

  lemma SortedValue(members: Members, k: Text)
    ensures Value(SortedMembers(members), k) == if Stamp(k) then [] else Value(members, k)
  {
    var counted := Counted(members);
    CountedSpec(members, k);
    ValueIsLookup(counted, k);
    PickValue(counted, Sort(Names(counted)), k);
  }

  lemma SameNames(x: Members, y: Members)
    requires forall k :: Value(x, k) == Value(y, k)
    ensures forall k :: k in Names(x) <==> k in Names(y)
  {
    forall k ensures k in Names(x) <==> k in Names(y) {
      ValueIsLookup(x, k);
      ValueIsLookup(y, k);
      assert Value(x, k) == Value(y, k);
    }
  }

  lemma SamePicks(x: Members, y: Members, ks: seq<Text>)
    requires forall k :: Value(x, k) == Value(y, k)
    requires forall i :: 0 <= i < |ks| ==> ks[i] in Names(x) && ks[i] in Names(y)
    ensures Pick(x, ks) == Pick(y, ks)
  {
    forall i | 0 <= i < |ks| ensures Pick(x, ks)[i] == Pick(y, ks)[i] {
      ValueIsLookup(x, ks[i]);
      ValueIsLookup(y, ks[i]);
      assert Value(x, ks[i]) == Value(y, ks[i]);
    }
  }

  lemma SameSorted(x: Members, y: Members)
    requires Once(x) && Once(y) && forall k :: Value(x, k) == Value(y, k)
    ensures Pick(x, Sort(Names(x))) == Pick(y, Sort(Names(y)))
  {
    SameNames(x, y);
    OnceIsDistinct(x);
    OnceIsDistinct(y);
    SortCanonical(Names(x), Names(y));
    forall i | 0 <= i < |Sort(Names(x))| ensures Sort(Names(x))[i] in Names(x) {
      assert Sort(Names(x))[i] in Sort(Names(x));
    }
    SamePicks(x, y, Sort(Names(x)));
  }

  lemma SameMembers(a: Members, b: Members)
    requires Once(a) && Once(b)
    requires forall k :: !Stamp(k) ==> Value(a, k) == Value(b, k)
    ensures SortedMembers(a) == SortedMembers(b)
  {
    forall k ensures Value(Counted(a), k) == Value(Counted(b), k) {
      CountedSpec(a, k);
      CountedSpec(b, k);
    }
    CountedSpec(a, []);
    CountedSpec(b, []);
    SameSorted(Counted(a), Counted(b));
  }

  /** Normalizing identifies exactly the indexes that agree but for the stamps and the order. */
  lemma NormalIffSame(a: Json, b: Json)
    requires Proper(a) && Proper(b)
    ensures Normal(a) == Normal(b) <==> SameIndex(a, b)
  {
    if a.Obj? && b.Obj? {
      if Normal(a) == Normal(b) {
        forall k | !Stamp(k) ensures Value(a.members, k) == Value(b.members, k) {
          SortedValue(a.members, k);
          SortedValue(b.members, k);
        }
      } else if SameIndex(a, b) {
        SameMembers(a.members, b.members);
      }
    }
  }

  // ---- load-plan's stamping ----

  /** Assigning a property: in place if it is there, at the end if not. */
  function SetProperty(members: Members, k: Text, v: Json): Members {
    if members == [] then [Entry(k, v)]
    else if members[0].key == k then [Entry(k, v)] + members[1..]
    else [members[0]] + SetProperty(members[1..], k, v)
  }

  /** What JavaScript counts as true. */
  predicate Truthy(v: Json) {
    match v
    case Null => false
    case Bool(b) => b
    case Num(n) => n != [0x30]
    case Str(s) => s != []
    case _ => true
  }

  predicate Has(members: Members, k: Text) { Value(members, k) != [] && Truthy(Value(members, k)[0]) }

  /** The stamping of an index object that has no plan hash yet. */
  function Stamped(members: Members, hash: Json, now: Json): Members {
    if Has(members, PLAN_HASH) then members
    else
      var one := SetProperty(members, PLAN_HASH, hash);
      if Has(one, GENERATED_AT) then one else SetProperty(one, GENERATED_AT, now)
  }

  lemma {:induction false} SetValue(members: Members, k: Text, v: Json, x: Text)
    ensures Value(SetProperty(members, k, v), x) == if x == k then [v] else Value(members, x)
  {
    if members == [] {
      Cons(Entry(k, v), [], x);
      assert [Entry(k, v)] + [] == [Entry(k, v)];
    } else if members[0].key == k {
      Cons(Entry(k, v), members[1..], x);
    } else {
      SetValue(members[1..], k, v, x);
      Cons(members[0], SetProperty(members[1..], k, v), x);
    }
  }

  lemma {:induction false} SetOnce(members: Members, k: Text, v: Json)
    requires Once(members)
    ensures Once(SetProperty(members, k, v))
  {
    if members == [] {
      Cons(Entry(k, v), [], k);
      assert [Entry(k, v)] + [] == [Entry(k, v)];
    } else if members[0].key == k {
      Cons(Entry(k, v), members[1..], k);
    } else {
      SetOnce(members[1..], k, v);
      SetValue(members[1..], k, v, members[0].key);
      Cons(members[0], SetProperty(members[1..], k, v), k);
    }
  }

  lemma StampedValue(members: Members, hash: Json, now: Json, k: Text)
    requires !Stamp(k)
    ensures Value(Stamped(members, hash, now), k) == Value(members, k)
  {
    SetValue(members, PLAN_HASH, hash, k);
    SetValue(SetProperty(members, PLAN_HASH, hash), GENERATED_AT, now, k);
  }

  /** Stamping an index does not change what the gate hashes of it. */
  lemma StampingInvisible(members: Members, hash: Json, now: Json)
    requires Once(members)
    ensures Proper(Obj(Stamped(members, hash, now)))
    ensures Normal(Obj(Stamped(members, hash, now))) == Normal(Obj(members))
  {
    SetOnce(members, PLAN_HASH, hash);
    SetOnce(SetProperty(members, PLAN_HASH, hash), GENERATED_AT, now);
    forall k | !Stamp(k) ensures Value(Stamped(members, hash, now), k) == Value(members, k) {
      StampedValue(members, hash, now, k);
    }
    SameMembers(Stamped(members, hash, now), members);
  }

  /** A stamped index is not stamped again. */
  lemma StampingStops(members: Members, hash: Json, now: Json, hash': Json, now': Json)
    requires Truthy(hash)
    ensures Stamped(Stamped(members, hash, now), hash', now') == Stamped(members, hash, now)
  {
    SetValue(members, PLAN_HASH, hash, PLAN_HASH);
    SetValue(SetProperty(members, PLAN_HASH, hash), GENERATED_AT, now, PLAN_HASH);
    assert PLAN_HASH[0] != GENERATED_AT[0];
  }

  /** The names of an object after an assignment. */
  lemma {:induction false} SetNames(members: Members, k: Text, v: Json)
    ensures Names(SetProperty(members, k, v)) == if k in Names(members) then Names(members) else Names(members) + [k]
  {
    if members == [] {
      assert Names([Entry(k, v)]) == [k];
      assert Names(members) + [k] == [k];
    } else {
      NamesTail(members);
      if members[0].key == k {
        Cons(Entry(k, v), members[1..], k);
      } else {
        SetNames(members[1..], k, v);
        Cons(members[0], SetProperty(members[1..], k, v), k);
      }
    }
  }

  /** Which stamp a name gets, if any: the plan hash goes in if there was no true one, and then the time goes in
      if there was no true one. Names that were there keep their place, new ones come last. */
  lemma StampsExactly(members: Members, hash: Json, now: Json, k: Text)
    ensures var stamps := !Has(members, PLAN_HASH);
            Value(Stamped(members, hash, now), k) ==
              if stamps && k == Ascii("plan_hash") then [hash]
              else if stamps && k == Ascii("generated_at") && !Has(members, GENERATED_AT) then [now]
              else Value(members, k)
    ensures Names(members) <= Names(Stamped(members, hash, now))
    ensures forall n :: n in Names(Stamped(members, hash, now)) && n !in Names(members) ==> Stamp(n)
  {
    var one := SetProperty(members, PLAN_HASH, hash);
    StampNames();
    SetValue(members, PLAN_HASH, hash, k);
    SetValue(members, PLAN_HASH, hash, GENERATED_AT);
    SetValue(one, GENERATED_AT, now, k);
    SetNames(members, PLAN_HASH, hash);
    SetNames(one, GENERATED_AT, now);
  }

  lemma StampNames()
    ensures PLAN_HASH == Ascii("plan_hash") && GENERATED_AT == Ascii("generated_at") && PLAN_HASH != GENERATED_AT
  {
    assert PLAN_HASH[0] != GENERATED_AT[0];
  }

  /** What counts as a true value: everything but null, false, zero and the empty string. */
  lemma TruthyIff(v: Json)
    ensures Truthy(v) <==> v != Null && v != Bool(false) && v != Num(Ascii("0")) && v != Str([])
  {
    assert Ascii("0") == [0x30];
  }

  /** A name has a true value if and only if its first member does. */
  lemma {:induction false} HasIff(members: Members, k: Text)
    ensures Has(members, k) <==>
              exists i :: 0 <= i < |members| && members[i].key == k && Truthy(members[i].val)
                       && forall j :: 0 <= j < i ==> members[j].key != k
  {
    if members != [] && members[0].key != k {
      var rest := members[1..];
      HasIff(rest, k);
      if Has(members, k) {
        var i :| 0 <= i < |rest| && rest[i].key == k && Truthy(rest[i].val)
                 && forall j :: 0 <= j < i ==> rest[j].key != k;
        assert forall j :: 0 < j < i + 1 ==> members[j].key == rest[j - 1].key;
        assert members[i + 1] == rest[i];
      }
      if i :| 0 <= i < |members| && members[i].key == k && Truthy(members[i].val)
              && forall j :: 0 <= j < i ==> members[j].key != k {
        assert rest[i - 1] == members[i];
        assert forall j :: 0 <= j < i - 1 ==> rest[j].key == members[j + 1].key;
      }
    }
  }

  /** The normal form of an object: its names ascending, each with its value, and no stamps. */
  lemma NormalExactly(members: Members, k: Text)
    requires Once(members)
    ensures var r := Normal(Obj(members));
            && r.Obj? && Ascending(Names(r.members))
            && Value(r.members, k) ==
                 if k == Ascii("plan_hash") || k == Ascii("generated_at") then [] else Value(members, k)
  {
    StampNames();
    SortedValue(members, k);
    DeleteOnce(members, PLAN_HASH);
    DeleteOnce(Delete(members, PLAN_HASH), GENERATED_AT);
    OnceIsDistinct(Counted(members));
    SortAscending(Names(Counted(members)));
    assert Names(SortedMembers(members)) == Sort(Names(Counted(members)));
  }

  // ---- the preimage ----

  datatype Artifact = Raw(name: Text, bytes: Text) | Index(name: Text, value: Json)

  function Bytes(a: Artifact): Text { if a.Raw? then a.bytes else Stringify(Normal(a.value)) }

  function Chunk(a: Artifact): Text { a.name + ([NUL] + (Bytes(a) + [NUL])) }

  function Preimage(artifacts: seq<Artifact>): Text {
    if artifacts == [] then [] else Chunk(artifacts[0]) + Preimage(artifacts[1..])
  }

  /** The hash is fed name, NUL, bytes, NUL for each artifact in turn. */
  method FeedHash(artifacts: seq<Artifact>) returns (fed: Text)
    ensures fed == Preimage(artifacts)
  {
    fed := [];
    var i := 0;
    while i < |artifacts|
      invariant 0 <= i <= |artifacts|
      invariant fed + Preimage(artifacts[i..]) == Preimage(artifacts)
    {
      var bytes: Text;
      if artifacts[i].Raw? { bytes := artifacts[i].bytes; } else { bytes := NormalizeIndex(artifacts[i].value); }
      Seqs.Assoc(fed, Chunk(artifacts[i]), Preimage(artifacts[i + 1..]));
      assert artifacts[i..][0] == artifacts[i] && artifacts[i..][1..] == artifacts[i + 1..];
      fed := fed + (artifacts[i].name + ([NUL] + (bytes + [NUL])));
      i := i + 1;
    }
    assert fed + [] == fed;
  }

  /** The three artifacts of the plan gate, in their fixed order. */
  function PlanGate(names: (Text, Text, Text), spec: Text, plan: Text, index: Json): seq<Artifact> {
    [Raw(names.0, spec), Raw(names.1, plan), Index(names.2, index)]
  }

  predicate NulFree(t: Text) { forall i :: 0 <= i < |t| ==> t[i] != NUL }

  /** Where the first NUL is decides what precedes it. */
  lemma FirstChunk(x: Text, a: Text, y: Text, b: Text)
    requires NulFree(x) && NulFree(y) && x + ([NUL] + a) == y + ([NUL] + b)
    ensures x == y && a == b
  {
    NotShorter(x, a, y, b);
    NotShorter(y, b, x, a);
    Seqs.Join3(x, NUL, a);
    Seqs.Join3(y, NUL, b);
  }

  lemma NotShorter(x: Text, a: Text, y: Text, b: Text)
    requires NulFree(y) && x + ([NUL] + a) == y + ([NUL] + b)
    ensures |x| >= |y|
  {
    Seqs.Join3(x, NUL, a);
    NulFreeStart(y, [NUL] + b);
  }

  lemma NulFreeStart(y: Text, rest: Text)
    requires NulFree(y)
    ensures forall i :: 0 <= i < |y| ==> (y + rest)[i] != NUL
  {
  }

  /** Where the last NUL is decides what follows it. */
  lemma LastChunk(a: Text, x: Text, b: Text, y: Text)
    requires NulFree(x) && NulFree(y) && a + ([NUL] + x) == b + ([NUL] + y)
    ensures a == b && x == y
  {
    NotLater(a, x, b, y);
    NotLater(b, y, a, x);
    Seqs.Join3(a, NUL, x);
    Seqs.Join3(b, NUL, y);
  }

  lemma NotLater(a: Text, x: Text, b: Text, y: Text)
    requires NulFree(x) && a + ([NUL] + x) == b + ([NUL] + y)
    ensures |b| <= |a|
  {
    Seqs.Join3(b, NUL, y);
    NulFreeEnd(a, x);
  }

  lemma NulFreeEnd(a: Text, x: Text)
    requires NulFree(x)
    ensures var s := a + ([NUL] + x); forall i :: |a| < i < |s| ==> s[i] != NUL
  {
  }

  /** The spec and the plan as the gate's preimage holds them: joined by the plan's name between NULs. */
  function Joined(spec: Text, name: Text, plan: Text): Text { spec + ([NUL] + (name + ([NUL] + plan))) }

  lemma PreimageCons(a: Artifact, rest: seq<Artifact>)
    ensures Preimage([a] + rest) == Chunk(a) + Preimage(rest)
  {
    assert ([a] + rest)[1..] == rest;
  }

  lemma PlanGateUnfolds(names: (Text, Text, Text), spec: Text, plan: Text, index: Json)
    ensures Preimage(PlanGate(names, spec, plan, index))
         == names.0 + ([NUL] +
              ((Joined(spec, names.1, plan) + ([NUL] + (names.2 + ([NUL] + Stringify(Normal(index)))))) + [NUL]))
  {
    var a, b, c := Raw(names.0, spec), Raw(names.1, plan), Index(names.2, index);
    assert PlanGate(names, spec, plan, index) == [a] + ([b] + ([c] + []));
    PreimageCons(c, []);
    PreimageCons(b, [c] + []);
    PreimageCons(a, [b] + ([c] + []));
    Flatten(names.0, spec, names.1, plan, names.2, Stringify(Normal(index)));
  }

  lemma Flatten(n: Text, spec: Text, m: Text, plan: Text, k: Text, index: Text)
    ensures (n + ([NUL] + (spec + [NUL]))) + ((m + ([NUL] + (plan + [NUL]))) + ((k + ([NUL] + (index + [NUL]))) + []))
         == n + ([NUL] + ((Joined(spec, m, plan) + ([NUL] + (k + ([NUL] + index)))) + [NUL]))
  {
    var z := [NUL];
    Seqs.Assoc(n, z + (spec + z), (m + (z + (plan + z))) + ((k + (z + (index + z))) + []));
    Seqs.Assoc(z, spec + z, (m + (z + (plan + z))) + ((k + (z + (index + z))) + []));
    assert (spec + z) + ((m + (z + (plan + z))) + ((k + (z + (index + z))) + []))
        == (Joined(spec, m, plan) + (z + (k + (z + index)))) + z;
  }

  lemma CancelEnds(n: Text, a: Text, b: Text)
    requires n + ([NUL] + (a + [NUL])) == n + ([NUL] + (b + [NUL]))
    ensures a == b
  {
    Seqs.Join3(n, NUL, a + [NUL]);
    Seqs.Join3(n, NUL, b + [NUL]);
    assert a == (a + [NUL])[..|a| + 1 - 1] && b == (b + [NUL])[..|b| + 1 - 1];
  }

  lemma CancelStart(n: Text, a: Text, b: Text)
    requires n + a == n + b
    ensures a == b
  {
    Seqs.DropAppend(n, a);
    Seqs.DropAppend(n, b);
  }

  lemma IndexNulFree(index: Json)
    ensures NulFree(Stringify(Normal(index)))
  {
    StringifyPrintable(Normal(index));
  }

  lemma StringifyInjective(v: Json, w: Json)
    requires Stringify(v) == Stringify(w)
    ensures v == w
  {
    assert Stringify(v) + [] == Stringify(v) && Stringify(w) + [] == Stringify(w);
    StringifyUnambiguous(v, w, [], []);
  }

  /** Two plan gates over the same names share a preimage exactly when their indexes are the same up to
      stamps and order, and their specs and plans are the same once joined. */
  lemma GateCollision(
    names: (Text, Text, Text), spec: Text, plan: Text, index: Json, spec': Text, plan': Text, index': Json)
    requires Proper(index) && Proper(index') && NulFree(names.2)
    ensures Preimage(PlanGate(names, spec, plan, index)) == Preimage(PlanGate(names, spec', plan', index'))
       <==> SameIndex(index, index') && Joined(spec, names.1, plan) == Joined(spec', names.1, plan')
  {
    PlanGateUnfolds(names, spec, plan, index);
    PlanGateUnfolds(names, spec', plan', index');
    NormalIffSame(index, index');
    if Preimage(PlanGate(names, spec, plan, index)) == Preimage(PlanGate(names, spec', plan', index')) {
      var x, y := Stringify(Normal(index)), Stringify(Normal(index'));
      var a, b := Joined(spec, names.1, plan), Joined(spec', names.1, plan');
      CancelEnds(names.0, a + ([NUL] + (names.2 + ([NUL] + x))), b + ([NUL] + (names.2 + ([NUL] + y))));
      IndexNulFree(index);
      IndexNulFree(index');
      TailsEqual(a, names.2, x, b, y);
      StringifyInjective(Normal(index), Normal(index'));
    }
  }

  lemma TailsEqual(a: Text, n: Text, x: Text, b: Text, y: Text)
    requires NulFree(n) && NulFree(x) && NulFree(y)
    requires a + ([NUL] + (n + ([NUL] + x))) == b + ([NUL] + (n + ([NUL] + y)))
    ensures a == b && x == y
  {
    Seqs.Assoc(a, [NUL] + n, [NUL] + x);
    Seqs.Assoc([NUL], n, [NUL] + x);
    Seqs.Assoc(b, [NUL] + n, [NUL] + y);
    Seqs.Assoc([NUL], n, [NUL] + y);
    LastChunk(a + ([NUL] + n), x, b + ([NUL] + n), y);
    LastChunk(a, n, b, n);
  }

  /** With NUL-free specs the preimage determines all three artifacts, the index up to its stamps and order. */
  lemma GateInjective(
    names: (Text, Text, Text), spec: Text, plan: Text, index: Json, spec': Text, plan': Text, index': Json)
    requires Proper(index) && Proper(index') && NulFree(names.2)
    requires NulFree(spec) && NulFree(spec')
    requires Preimage(PlanGate(names, spec, plan, index)) == Preimage(PlanGate(names, spec', plan', index'))
    ensures spec == spec' && plan == plan' && SameIndex(index, index')
  {
    GateCollision(names, spec, plan, index, spec', plan', index');
    FirstChunk(spec, names.1 + ([NUL] + plan), spec', names.1 + ([NUL] + plan'));
    CancelStart(names.1, [NUL] + plan, [NUL] + plan');
    CancelStart([NUL], plan, plan');
  }

  /** load-plan's own stamps, and any reordering of the top-level names, leave the preimage as it is. */
  lemma GateIgnoresStamps(names: (Text, Text, Text), spec: Text, plan: Text, members: Members, hash: Json, now: Json)
    requires Once(members)
    ensures Preimage(PlanGate(names, spec, plan, Obj(Stamped(members, hash, now))))
         == Preimage(PlanGate(names, spec, plan, Obj(members)))
  {
    StampingInvisible(members, hash, now);
    PlanGateUnfolds(names, spec, plan, Obj(Stamped(members, hash, now)));
    PlanGateUnfolds(names, spec, plan, Obj(members));
  }

  // ---- where a NUL makes two gates meet ----

  /** The plan's name between NULs occurs in the plan with a NUL put before it. */
  ghost predicate CutAt(name: Text, plan: Text, p: Text, q: Text) { [NUL] + plan == p + ([NUL] + (name + ([NUL] + q))) }

  /** A gate with a NUL-free spec shares its preimage with a gate over another spec and plan exactly when
      its plan holds the plan's name between NULs, the first of which may be the one before the plan. */
  lemma CollidesIff(name: Text, spec: Text, plan: Text)
    requires NulFree(name) && NulFree(spec)
    ensures (exists spec', plan' :: spec' != spec && Joined(spec', name, plan') == Joined(spec, name, plan))
       <==> (exists p, q :: CutAt(name, plan, p, q))
  {
    if spec', plan' :| spec' != spec && Joined(spec', name, plan') == Joined(spec, name, plan) {
      var p := MeetingCut(name, spec, plan, spec', plan');
    }
    if p, q :| CutAt(name, plan, p, q) {
      CutMeets(name, spec, plan, p, q);
    }
  }

  /** The other gate: everything before the cut belongs to its spec. */
  lemma CutMeets(name: Text, spec: Text, plan: Text, p: Text, q: Text)
    requires CutAt(name, plan, p, q)
    ensures var spec' := spec + ([NUL] + (name + p));
            spec' != spec && Joined(spec', name, q) == Joined(spec, name, plan)
  {
    var z := [NUL];
    var tail := z + (name + (z + q));
    Seqs.Assoc(spec, z + (name + p), tail);
    Seqs.Assoc(z, name + p, tail);
    Seqs.Assoc(name, p, tail);
  }

  lemma MeetingCut(name: Text, spec: Text, plan: Text, spec': Text, plan': Text) returns (p: Text)
    requires NulFree(name) && NulFree(spec)
    requires spec' != spec && Joined(spec', name, plan') == Joined(spec, name, plan)
    ensures CutAt(name, plan, p, plan')
  {
    var z := [NUL];
    NotShorter(spec', name + (z + plan'), spec, name + (z + plan));
    var all := Joined(spec, name, plan);
    Seqs.DropAppend(spec, z + (name + (z + plan)));
    Seqs.DropAppend(spec', z + (name + (z + plan')));
    Longer(spec, name, plan, spec', plan');
    p := spec'[|spec| + 1 + |name|..];
    assert spec' == spec'[..|spec| + 1 + |name|] + p;
    assert all[|spec| + 1 + |name|..] == z + plan;
    assert (spec' + (z + (name + (z + plan'))))[|spec| + 1 + |name|..] == p + (z + (name + (z + plan')));
  }

  /** The other spec cannot end inside the name, which has no NUL. */
  lemma Longer(spec: Text, name: Text, plan: Text, spec': Text, plan': Text)
    requires NulFree(name) && |spec'| >= |spec| && spec' != spec
    requires Joined(spec', name, plan') == Joined(spec, name, plan)
    ensures |spec'| >= |spec| + 1 + |name|
  {
    var z := [NUL];
    var all := Joined(spec, name, plan);
    Seqs.Join3(spec', NUL, name + (z + plan'));
    NulFreeStart(name, z + plan);
    Seqs.Join3(spec, NUL, name + (z + plan));
    forall i | |spec| < i < |spec| + 1 + |name| ensures all[i] != NUL {
      assert all[i] == all[|spec| + 1..][i - |spec| - 1];
    }
  }
}
