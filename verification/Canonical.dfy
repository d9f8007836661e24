/**
 stableStringify on trees: members are visited in sorted name order. Two values have the same
 canonical text exactly when they are the same value up to member order.
 */
module Canonical {
  import opened JsonText
  import opened Json
  import opened Keys
  import Seqs

  /** Every object in the value has distinct names, as JavaScript objects do. */
  ghost predicate WellFormed(v: Json)
    decreases v
  {
    match v
    case Arr(items) => forall i :: 0 <= i < |items| ==> WellFormed(items[i])
    case Obj(members) =>
      && Seqs.Distinct(Names(members))
      && forall i :: 0 <= i < |members| ==> WellFormed(members[i].val)
    case _ => true
  }

  function Stable(v: Json): Text
    decreases v, 0
  {
    match v
    case Arr(items) => [LBRACKET] + StableItems(items) + [RBRACKET]
    case Obj(members) => [LBRACE] + StableMembers(members, Sort(Names(members))) + [RBRACE]
    case _ => Stringify(v)
  }

  function StableItems(items: seq<Json>): Text
    decreases items, 0
  {
    if items == [] then []
    else Stable(items[0]) + (if |items| == 1 then [] else [COMMA] + StableItems(items[1..]))
  }

  /** The members named by ks, joined by commas. */
  function StableMembers(members: seq<Entry<Json>>, ks: seq<Text>): Text
    requires forall k :: k in ks ==> k in Names(members)
    decreases members, |ks|
  {
    if ks == [] then []
    else
      Quote(ks[0]) + [COLON] + Stable(Lookup(members, ks[0]))
      + (if |ks| == 1 then [] else [COMMA] + StableMembers(members, ks[1..]))
  }

  /** The value with the members of every object in name order. */
  function Canon(v: Json): Json
    decreases v, 0
  {
    match v
    case Arr(items) => Arr(CanonItems(items))
    case Obj(members) => Obj(CanonMembers(members, Sort(Names(members))))
    case _ => v
  }

  function CanonItems(items: seq<Json>): (r: seq<Json>)
    ensures |r| == |items|
    ensures forall i :: 0 <= i < |items| ==> r[i] == Canon(items[i])
    decreases items, 0
  {
    if items == [] then [] else [Canon(items[0])] + CanonItems(items[1..])
  }

  function CanonMembers(members: seq<Entry<Json>>, ks: seq<Text>): (r: seq<Entry<Json>>)
    requires forall k :: k in ks ==> k in Names(members)
    ensures |r| == |ks|
    ensures forall i :: 0 <= i < |ks| ==> r[i] == Entry(ks[i], Canon(Lookup(members, ks[i])))
    decreases members, |ks|
  {
    if ks == [] then []
    else [Entry(ks[0], Canon(Lookup(members, ks[0])))] + CanonMembers(members, ks[1..])
  }

  /** Equal up to the order of object members. */
  ghost predicate Same(v: Json, w: Json)
    decreases v
  {
    if v.Arr? && w.Arr? then
      |v.items| == |w.items| && forall i :: 0 <= i < |v.items| ==> Same(v.items[i], w.items[i])
    else if v.Obj? && w.Obj? then
      && (forall k :: k in Names(v.members) <==> k in Names(w.members))
      && forall k :: k in Names(v.members) ==> Same(Lookup(v.members, k), Lookup(w.members, k))
    else v == w
  }

  /** The canonical text is what JSON.stringify gives once every object's names are sorted. */
  lemma {:induction false} StableIsStringify(v: Json)
    ensures Stable(v) == Stringify(Canon(v))
    decreases v, 0
  {
    match v
    case Arr(items) => StableItemsIsElements(items);
    case Obj(members) => StableMembersIsMembers(members, Sort(Names(members)));
    case _ =>
  }

  lemma {:induction false} StableItemsIsElements(items: seq<Json>)
    ensures StableItems(items) == Elements(CanonItems(items))
    decreases items, 0
  {
    if items != [] {
      StableIsStringify(items[0]);
      StableItemsIsElements(items[1..]);
      Seqs.DropAppend([Canon(items[0])], CanonItems(items[1..]));
    }
  }

  lemma {:induction false} StableMembersIsMembers(members: seq<Entry<Json>>, ks: seq<Text>)
    requires forall k :: k in ks ==> k in Names(members)
    ensures StableMembers(members, ks) == Members(CanonMembers(members, ks))
    decreases members, |ks|
  {
    if ks != [] {
      StableIsStringify(Lookup(members, ks[0]));
      StableMembersIsMembers(members, ks[1..]);
      Seqs.DropAppend([Entry(ks[0], Canon(Lookup(members, ks[0])))], CanonMembers(members, ks[1..]));
    }
  }

  /** Reading the canonical text back, whatever delimiter follows, gives the sorted value and the
      exact remainder. */
  lemma ParseStable(v: Json, rest: Text)
    requires Delimited(rest)
    ensures ParseValue(Stable(v) + rest) == Read(Canon(v), rest)
  {
    StableIsStringify(v);
    ParseStringify(Canon(v), rest);
  }

  lemma {:induction false} SameCanon(v: Json, w: Json)
    requires WellFormed(v) && WellFormed(w) && Same(v, w)
    ensures Canon(v) == Canon(w)
    decreases v
  {
    if v.Arr? && w.Arr? {
      forall i | 0 <= i < |v.items| ensures Canon(v.items[i]) == Canon(w.items[i]) {
        SameCanon(v.items[i], w.items[i]);
      }
    } else if v.Obj? && w.Obj? {
      SortCanonical(Names(v.members), Names(w.members));
      forall k | k in Names(v.members)
        ensures Canon(Lookup(v.members, k)) == Canon(Lookup(w.members, k))
      {
        SameCanon(Lookup(v.members, k), Lookup(w.members, k));
      }
    }
  }

  lemma {:induction false} CanonSame(v: Json, w: Json)
    requires Canon(v) == Canon(w)
    ensures Same(v, w)
    decreases v
  {
    if v.Arr? {
      forall i | 0 <= i < |v.items| ensures Same(v.items[i], w.items[i]) {
        assert CanonItems(v.items)[i] == CanonItems(w.items)[i];
        CanonSame(v.items[i], w.items[i]);
      }
    } else if v.Obj? {
      var a, b := Sort(Names(v.members)), Sort(Names(w.members));
      SortedNamesAgree(v.members, w.members);
      forall k | k in Names(v.members)
        ensures Same(Lookup(v.members, k), Lookup(w.members, k))
      {
        assert k in a;
        var i :| 0 <= i < |a| && a[i] == k;
        assert CanonMembers(v.members, a)[i] == CanonMembers(w.members, b)[i];
        CanonSame(Lookup(v.members, k), Lookup(w.members, k));
      }
    }
  }

  lemma SortedNamesAgree(m: seq<Entry<Json>>, n: seq<Entry<Json>>)
    requires CanonMembers(m, Sort(Names(m))) == CanonMembers(n, Sort(Names(n)))
    ensures Sort(Names(m)) == Sort(Names(n))
    ensures forall k :: k in Names(m) <==> k in Names(n)
  {
    var a, b := Sort(Names(m)), Sort(Names(n));
    assert |a| == |b|;
    forall i | 0 <= i < |a| ensures a[i] == b[i] {
      assert CanonMembers(m, a)[i] == CanonMembers(n, b)[i];
    }
  }

  /** Same text exactly when same object, even as prefixes of longer texts. */
  lemma StableIdentity(v: Json, w: Json)
    requires WellFormed(v) && WellFormed(w)
    ensures Stable(v) == Stable(w) <==> Same(v, w)
  {
    StableIsStringify(v);
    StableIsStringify(w);
    if Stable(v) == Stable(w) {
      StringifyUnambiguous(Canon(v), Canon(w), [], []);
      CanonSame(v, w);
    }
    if Same(v, w) {
      SameCanon(v, w);
    }
  }

  /** No canonical text is a proper prefix of another one that a delimiter ends. */
  lemma StableUnambiguous(v: Json, w: Json, rest: Text, rest': Text)
    requires Delimited(rest) && Delimited(rest')
    requires Stable(v) + rest == Stable(w) + rest'
    ensures Same(v, w) && rest == rest'
  {
    StableIsStringify(v);
    StableIsStringify(w);
    StringifyUnambiguous(Canon(v), Canon(w), rest, rest');
    CanonSame(v, w);
  }

  lemma {:induction false} CanonWellFormed(v: Json)
    requires WellFormed(v)
    ensures WellFormed(Canon(v)) && Same(v, Canon(v))
    decreases v
  {
    match v
    case Arr(items) =>
      forall i | 0 <= i < |items|
        ensures WellFormed(Canon(items[i])) && Same(items[i], Canon(items[i]))
      {
        CanonWellFormed(items[i]);
      }
    case Obj(members) =>
      CanonObject(members);
      forall i | 0 <= i < |members|
        ensures WellFormed(Canon(members[i].val)) && Same(members[i].val, Canon(members[i].val))
      {
        CanonWellFormed(members[i].val);
      }
    case _ =>
  }

  lemma CanonObject(members: seq<Entry<Json>>)
    requires Seqs.Distinct(Names(members))
    ensures var ks := Sort(Names(members));
            var r := CanonMembers(members, ks);
            && Names(r) == ks
            && Seqs.Distinct(Names(r))
            && forall k :: k in ks ==> k in Names(r) && Lookup(r, k) == Canon(Lookup(members, k))
  {
    var ks := Sort(Names(members));
    var r := CanonMembers(members, ks);
    SortAscending(Names(members));
    assert Names(r) == ks;
    forall i, j | 0 <= i < j < |ks| ensures ks[i] != ks[j] {
      LessTotal(ks[i], ks[j]);
    }
    forall k | k in ks ensures k in Names(r) && Lookup(r, k) == Canon(Lookup(members, k)) {
      var i :| 0 <= i < |ks| && ks[i] == k;
      LookupAt(r, i);
    }
  }

  /** Canonicalising changes nothing but member order, so it does not change the text. */
  lemma StableIdempotent(v: Json)
    requires WellFormed(v)
    ensures Stable(Canon(v)) == Stable(v)
    ensures Canon(Canon(v)) == Canon(v)
  {
    CanonWellFormed(v);
    StableIdentity(v, Canon(v));
    SameCanon(v, Canon(v));
  }
}
