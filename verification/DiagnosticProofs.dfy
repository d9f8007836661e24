/**
 What the diagnostic serializer shows: the canonical text of the unfolded value in which a string stands
 for whatever JSON cannot express.
 */
module DiagnosticProofs {
  import opened JsonText
  import opened Json
  import opened Keys
  import opened ObjectGraph
  import opened Diagnostic
  import opened GraphProofs
  import Canonical
  import Seqs

  // ---- the placeholders ----

  /** The string that stands for a value that is neither JSON nor a reference. */
  predicate StandsFor(s: Text, v: JsValue) {
    match v
    case Undefined => s == Ascii("<undefined>")
    case Function => s == Ascii("<function>")
    case Symbol => s == Ascii("<symbol>")
    case BigInt(digits) => s == Ascii("<BigInt ") + digits + Ascii("n>")
    case Number(NaN) => s == Ascii("<NaN>")
    case Number(Infinity) => s == Ascii("<Infinity>")
    case Number(MinusInfinity) => s == Ascii("<-Infinity>")
    case _ => false
  }

  predicate PlainText(t: Text) { forall i :: 0 <= i < |t| ==> PlainUnit(t[i]) }

  /** A value whose placeholder needs no escaping: placeholders are written unescaped. */
  predicate PlainValue(v: JsValue) { v.BigInt? ==> PlainText(v.digits) }

  predicate PlainSlot(s: Slot) { if s.Throws? then PlainText(s.message) else PlainValue(s.value) }

  ghost predicate PlainGraph(h: Graph) {
    forall id :: id in h ==> forall i :: 0 <= i < |Children(h[id])| ==> PlainSlot(Children(h[id])[i])
  }

  /** The tree t is v with every reference followed, but an object on the path shown as circular, a throwing
      property as its message, and any other value that is not JSON as its placeholder. */
  ghost predicate Exhibits(h: Graph, v: JsValue, seen: set<nat>, t: Json)
    requires Allocated(h, v)
    decreases t, 0
  {
    if IsLeaf(v) then t == LeafJson(v)
    else if !v.Ref? then t.Str? && StandsFor(t.s, v)
    else if v.id in seen then t == Str(Ascii("<circular>"))
    else if h[v.id].ArrayCell? then
      && t.Arr? && |t.items| == |h[v.id].items|
      && forall i :: 0 <= i < |t.items| ==> ExhibitsSlot(h, v.id, i, seen + {v.id}, t.items[i])
    else
      && t.Obj? && |t.members| == |h[v.id].props|
      && forall i :: 0 <= i < |t.members| ==>
           && t.members[i].key == h[v.id].props[i].key
           && ExhibitsSlot(h, v.id, i, seen + {v.id}, t.members[i].val)
  }

  ghost predicate ExhibitsSlot(h: Graph, id: nat, i: nat, seen: set<nat>, t: Json)
    requires id in h && i < |Children(h[id])|
    decreases t, 1
  {
    var slot := Children(h[id])[i];
    if slot.Throws? then t == Str(Ascii("<getter threw: ") + slot.message + Ascii(">"))
    else Exhibits(h, slot.value, seen, t)
  }

  // ---- texts ----

  lemma PlainAscii(s: string)
    requires forall i :: 0 <= i < |s| ==> ' ' <= s[i] <= '~' && s[i] != '"' && s[i] != '\\'
    ensures PlainText(Ascii(s))
  {
  }

  lemma PlainConcat(a: Text, b: Text)
    requires PlainText(a) && PlainText(b)
    ensures PlainText(a + b)
  {
  }

  /** Between quotes, plain text is a quoted string. */
  lemma MarkedIsQuoted(t: Text)
    requires PlainText(t)
    ensures Marked(t) == Canonical.Stable(Str(t))
  {
    EscapePlain(t);
  }

  lemma PlaceholderStands(v: JsValue) returns (s: Text)
    requires !IsLeaf(v) && !v.Ref? && PlainValue(v)
    ensures StandsFor(s, v) && Placeholder(v) == Canonical.Stable(Str(s))
  {
    match v {
      case Undefined => s := Ascii("<undefined>"); PlainAscii("<undefined>");
      case Function => s := Ascii("<function>"); PlainAscii("<function>");
      case Symbol => s := Ascii("<symbol>"); PlainAscii("<symbol>");
      case BigInt(digits) =>
        s := Ascii("<BigInt ") + digits + Ascii("n>");
        PlainAscii("<BigInt ");
        PlainAscii("n>");
        PlainConcat(Ascii("<BigInt "), digits);
        PlainConcat(Ascii("<BigInt ") + digits, Ascii("n>"));
      case Number(n) =>
        var name := if n.NaN? then "<NaN>" else if n.Infinity? then "<Infinity>" else "<-Infinity>";
        s := Ascii(name);
        PlainAscii(name);
    }
    MarkedIsQuoted(s);
  }

  lemma CircularText()
    ensures CIRCULAR == Canonical.Stable(Str(Ascii("<circular>")))
  {
    PlainAscii("<circular>");
    MarkedIsQuoted(Ascii("<circular>"));
  }

  lemma ThrewText(message: Text)
    requires PlainText(message)
    ensures GetterThrewText(message) == Canonical.Stable(Str(Ascii("<getter threw: ") + message + Ascii(">")))
  {
    PlainAscii("<getter threw: ");
    PlainAscii(">");
    PlainConcat(Ascii("<getter threw: "), message);
    PlainConcat(Ascii("<getter threw: ") + message, Ascii(">"));
    MarkedIsQuoted(Ascii("<getter threw: ") + message + Ascii(">"));
  }

  // ---- what is shown ----

  /** The trees ts are shown for the children of id, in order, with these texts. */
  ghost predicate ChildrenShown(h: Graph, id: nat, seen: set<nat>, ts: seq<Json>)
    requires id in h && id !in seen
  {
    && |ts| == |Children(h[id])|
    && forall i :: 0 <= i < |ts| ==>
         && ExhibitsSlot(h, id, i, seen + {id}, ts[i])
         && (Children(h[id])[i].Got? ==> Allocated(h, Children(h[id])[i].value))
         && DiagSlot(h, Children(h[id])[i], seen + {id}) == Canonical.Stable(ts[i])
  }

  lemma {:induction false} ShowsTree(h: Graph, v: JsValue, seen: set<nat>) returns (t: Json)
    requires Allocated(h, v) && PlainGraph(h) && PlainValue(v)
    ensures Exhibits(h, v, seen, t) && Diag(h, v, seen) == Canonical.Stable(t)
    decreases h.Keys - seen, 1
  {
    if IsLeaf(v) {
      t := LeafJson(v);
    } else if !v.Ref? {
      var s := PlaceholderStands(v);
      t := Str(s);
    } else if v.id in seen {
      CircularText();
      t := Str(Ascii("<circular>"));
    } else {
      assert v.id in h.Keys - seen;
      var ts := ShowsChildren(h, v.id, seen);
      t := CellShown(h, v.id, seen, ts);
    }
  }

  lemma {:induction false} ShowsChildren(h: Graph, id: nat, seen: set<nat>) returns (ts: seq<Json>)
    requires id in h && id !in seen && PlainGraph(h)
    ensures ChildrenShown(h, id, seen, ts)
    decreases h.Keys - (seen + {id}), 2
  {
    var slots := Children(h[id]);
    ChildrenAllocated(h, id);
    ts := [];
    for i := 0 to |slots|
      invariant |ts| == i
      invariant forall j :: 0 <= j < i ==>
        && ExhibitsSlot(h, id, j, seen + {id}, ts[j])
        && (slots[j].Got? ==> Allocated(h, slots[j].value))
        && DiagSlot(h, slots[j], seen + {id}) == Canonical.Stable(ts[j])
    {
      assert PlainSlot(slots[i]);
      var u;
      if slots[i].Throws? {
        ThrewText(slots[i].message);
        u := Str(Ascii("<getter threw: ") + slots[i].message + Ascii(">"));
      } else {
        u := ShowsTree(h, slots[i].value, seen + {id});
      }
      ts := ts + [u];
    }
  }

  lemma CellShown(h: Graph, id: nat, seen: set<nat>, ts: seq<Json>) returns (t: Json)
    requires id in h && id !in seen && ChildrenShown(h, id, seen, ts)
    ensures Exhibits(h, Ref(id), seen, t) && DiagCell(h, id, seen) == Canonical.Stable(t)
  {
    ChildrenAllocated(h, id);
    if h[id].ArrayCell? {
      t := Arr(ts);
      ItemsShown(h, h[id].items, seen + {id}, ts);
    } else {
      var props := h[id].props;
      var ms := Zip(Names(props), ts);
      t := Obj(ms);
      assert Names(ms) == Names(props);
      PropsShown(h, props, ms, Sort(Names(props)), seen + {id});
    }
  }

  lemma {:induction false} ItemsShown(h: Graph, items: seq<JsValue>, seen: set<nat>, ts: seq<Json>)
    requires ItemsAllocated(h, items) && |ts| == |items|
    requires forall i :: 0 <= i < |ts| ==> Diag(h, items[i], seen) == Canonical.Stable(ts[i])
    ensures Join(DiagItems(h, items, seen)) == Canonical.StableItems(ts)
  {
    if items != [] {
      ItemsShown(h, items[1..], seen, ts[1..]);
      JoinCons(Diag(h, items[0], seen), DiagItems(h, items[1..], seen));
      DiagItemsSize(h, items[1..], seen);
    }
  }

  lemma {:induction false} DiagItemsSize(h: Graph, items: seq<JsValue>, seen: set<nat>)
    requires ItemsAllocated(h, items)
    ensures |DiagItems(h, items, seen)| == |items|
  {
    if items != [] { DiagItemsSize(h, items[1..], seen); }
  }

  lemma {:induction false} DiagPropsSize(h: Graph, props: seq<Entry<Slot>>, ks: seq<Text>, seen: set<nat>)
    requires PropsAllocated(h, props) && forall k :: k in ks ==> k in Names(props)
    ensures |DiagProps(h, props, ks, seen)| == |ks|
    decreases |ks|
  {
    if ks != [] { DiagPropsSize(h, props, ks[1..], seen); }
  }

  lemma PropShown(h: Graph, props: seq<Entry<Slot>>, ms: seq<Entry<Json>>, k: Text, seen: set<nat>)
    requires PropsAllocated(h, props) && k in Names(props)
    requires Names(ms) == Names(props) && Seqs.Distinct(Names(props))
    requires forall i :: 0 <= i < |ms| ==> DiagSlot(h, props[i].val, seen) == Canonical.Stable(ms[i].val)
    ensures DiagSlot(h, Lookup(props, k), seen) == Canonical.Stable(Lookup(ms, k))
  {
    var ns := Names(props);
    var i :| 0 <= i < |ns| && ns[i] == k;
    LookupAt(props, i);
    LookupAt(ms, i);
  }

  lemma {:induction false} PropsShown(
    h: Graph, props: seq<Entry<Slot>>, ms: seq<Entry<Json>>, ks: seq<Text>, seen: set<nat>)
    requires PropsAllocated(h, props) && forall k :: k in ks ==> k in Names(props)
    requires Names(ms) == Names(props) && Seqs.Distinct(Names(props))
    requires forall i :: 0 <= i < |ms| ==> DiagSlot(h, props[i].val, seen) == Canonical.Stable(ms[i].val)
    ensures Join(DiagProps(h, props, ks, seen)) == Canonical.StableMembers(ms, ks)
    decreases |ks|
  {
    if ks != [] {
      PropShown(h, props, ms, ks[0], seen);
      PropsShown(h, props, ms, ks[1..], seen);
      DiagPropsSize(h, props, ks[1..], seen);
      JoinCons(Quote(ks[0]) + [COLON] + DiagSlot(h, Lookup(props, ks[0]), seen), DiagProps(h, props, ks[1..], seen));
    }
  }

  // ---- only one tree is shown ----

  lemma {:induction false} ExhibitsUnique(h: Graph, v: JsValue, seen: set<nat>, t: Json, u: Json)
    requires Allocated(h, v) && Exhibits(h, v, seen, t) && Exhibits(h, v, seen, u)
    ensures t == u
    decreases t, 0
  {
    if v.Ref? && v.id !in seen {
      ChildrenAllocated(h, v.id);
      var slots := Children(h[v.id]);
      forall i | 0 <= i < |slots|
        ensures t.Arr? ==> t.items[i] == u.items[i]
        ensures t.Obj? ==> t.members[i] == u.members[i]
      {
        if t.Arr? {
          SlotUnique(h, v.id, i, seen + {v.id}, t.items[i], u.items[i]);
        } else {
          SlotUnique(h, v.id, i, seen + {v.id}, t.members[i].val, u.members[i].val);
        }
      }
    }
  }

  lemma {:induction false} SlotUnique(h: Graph, id: nat, i: nat, seen: set<nat>, t: Json, u: Json)
    requires id in h && i < |Children(h[id])|
    requires ExhibitsSlot(h, id, i, seen, t) && ExhibitsSlot(h, id, i, seen, u)
    ensures t == u
    decreases t, 1
  {
    ChildrenAllocated(h, id);
    if Children(h[id])[i].Got? { ExhibitsUnique(h, Children(h[id])[i].value, seen, t, u); }
  }

  /** Wherever placeholders need no escaping, the diagnostic text is the canonical text of the one tree
      that shows the value: a throwing property, a cycle or a value that is not JSON costs only itself. */
  lemma DiagIsExhibit(h: Graph, v: JsValue, text: Text)
    requires Allocated(h, v) && PlainGraph(h) && PlainValue(v)
    ensures Diag(h, v, {}) == text <==> exists t :: Exhibits(h, v, {}, t) && Canonical.Stable(t) == text
  {
    var t := ShowsTree(h, v, {});
    forall u | Exhibits(h, v, {}, u) ensures u == t {
      ExhibitsUnique(h, v, {}, u, t);
    }
  }

  /** Placeholders themselves are never escaped, whatever they hold. */
  lemma PlaceholderTexts(h: Graph, digits: Text, message: Text, seen: set<nat>)
    ensures Diag(h, BigInt(digits), seen) == Ascii("\"<BigInt ") + digits + Ascii("n>\"")
    ensures DiagSlot(h, Throws(message), seen) == Ascii("\"<getter threw: ") + message + Ascii(">\"")
  {
    Between("<BigInt ", digits, "n>");
    Between("<getter threw: ", message, ">");
  }

  lemma Between(a: string, inner: Text, b: string)
    ensures Marked(Ascii(a) + inner + Ascii(b)) == Ascii("\"" + a) + inner + Ascii(b + "\"")
  {
    assert Ascii("\"" + a) == [QUOTE] + Ascii(a) && Ascii(b + "\"") == Ascii(b) + [QUOTE];
  }
}
