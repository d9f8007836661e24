/** Property names: their order (by UTF-16 code unit), sorting them, and looking values up by name. */
module Keys {
  import opened JsonText
  import opened Json
  import Seqs

  predicate Less(a: Text, b: Text) {
    if b == [] then false
    else if a == [] then true
    else a[0] < b[0] || (a[0] == b[0] && Less(a[1..], b[1..]))
  }

  lemma {:induction false} LessTotal(a: Text, b: Text)
    ensures a != b ==> Less(a, b) || Less(b, a)
    ensures !(Less(a, b) && Less(b, a)) && !Less(a, a)
  {
    if a != [] && b != [] {
      LessTotal(a[1..], b[1..]);
      LessTotal(a[1..], a[1..]);
      if a[0] == b[0] && a[1..] == b[1..] {
        assert a == [a[0]] + a[1..] == [b[0]] + b[1..] == b;
      }
    } else if a != [] {
      LessTotal(a[1..], a[1..]);
    }
  }

  lemma {:induction false} LessTransitive(a: Text, b: Text, c: Text)
    requires Less(a, b) && Less(b, c)
    ensures Less(a, c)
  {
    if a != [] && a[0] == b[0] && b[0] == c[0] {
      LessTransitive(a[1..], b[1..], c[1..]);
    }
  }

  /** Strictly increasing, hence free of duplicates. */
  ghost predicate Ascending(ks: seq<Text>) {
    forall i, j :: 0 <= i < j < |ks| ==> Less(ks[i], ks[j])
  }

  /** Inserts into a sorted sequence, after the names that sort before it. */
  function Insert(k: Text, ks: seq<Text>): (r: seq<Text>)
    ensures forall x :: x in r <==> x == k || x in ks
    ensures |r| == |ks| + 1
  {
    if ks == [] || !Less(ks[0], k) then [k] + ks else [ks[0]] + Insert(k, ks[1..])
  }

  function Sort(ks: seq<Text>): (r: seq<Text>)
    ensures forall x :: x in r <==> x in ks
    ensures |r| == |ks|
  {
    if ks == [] then [] else Insert(ks[0], Sort(ks[1..]))
  }

  lemma {:induction false} InsertAscending(k: Text, ks: seq<Text>)
    requires Ascending(ks) && k !in ks
    ensures Ascending(Insert(k, ks))
  {
    if ks != [] {
      LessTotal(ks[0], k);
      if Less(ks[0], k) {
        InsertAscending(k, ks[1..]);
        var r := Insert(k, ks[1..]);
        forall j | 0 <= j < |r| ensures Less(ks[0], r[j]) {
          assert r[j] in r;
        }
      } else {
        forall j | 0 < j < |ks| ensures Less(k, ks[j]) {
          LessTransitive(k, ks[0], ks[j]);
        }
      }
    }
  }

  lemma {:induction false} SortAscending(ks: seq<Text>)
    requires Seqs.Distinct(ks)
    ensures Ascending(Sort(ks))
  {
    if ks != [] {
      SortAscending(ks[1..]);
      InsertAscending(ks[0], Sort(ks[1..]));
    }
  }

  lemma SomeElement(s: seq<Text>)
    ensures s != [] ==> exists k :: k in s
  {
    if s != [] {
      assert s[0] in s;
    }
  }

  /** A set of names has one ascending listing. */
  lemma {:induction false} AscendingUnique(a: seq<Text>, b: seq<Text>)
    requires Ascending(a) && Ascending(b)
    requires forall k :: k in a <==> k in b
    ensures a == b
  {
    if a == [] {
      SomeElement(b);
    } else {
      assert a[0] in b;
      assert b[0] in a;
      LessTotal(a[0], b[0]);
      assert a[0] == b[0];
      forall k ensures k in a[1..] <==> k in b[1..] {
        LessTotal(a[0], a[0]);
        if k in a[1..] { assert k in a && k != a[0]; }
        if k in b[1..] { assert k in b && k != b[0]; }
      }
      AscendingUnique(a[1..], b[1..]);
    }
  }

  /** Sorting depends on the set of names alone. */
  lemma SortCanonical(a: seq<Text>, b: seq<Text>)
    requires Seqs.Distinct(a) && Seqs.Distinct(b)
    requires forall k :: k in a <==> k in b
    ensures Sort(a) == Sort(b)
  {
    SortAscending(a);
    SortAscending(b);
    AscendingUnique(Sort(a), Sort(b));
  }

  /** The names of an object's members, in property order. */
  function Names<V>(members: seq<Entry<V>>): (ks: seq<Text>)
    ensures |ks| == |members|
    ensures forall i :: 0 <= i < |members| ==> ks[i] == members[i].key
  {
    seq(|members|, i requires 0 <= i < |members| => members[i].key)
  }

  /** The value under a name. */
  function Lookup<V>(members: seq<Entry<V>>, k: Text): (v: V)
    requires k in Names(members)
    ensures exists i :: 0 <= i < |members| && members[i] == Entry(k, v)
  {
    if members[0].key == k then members[0].val
    else
      assert Names(members[1..]) == Names(members)[1..];
      Lookup(members[1..], k)
  }

  lemma LookupAt<V>(members: seq<Entry<V>>, i: nat)
    requires i < |members| && Seqs.Distinct(Names(members))
    ensures members[i].key in Names(members)
    ensures Lookup(members, members[i].key) == members[i].val
  {
    assert Names(members)[i] == members[i].key;
    var v := Lookup(members, members[i].key);
    var j :| 0 <= j < |members| && members[j] == Entry(members[i].key, v);
    assert Names(members)[j] == Names(members)[i];
    assert i == j;
  }
}
