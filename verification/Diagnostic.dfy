/**
 diagnosticStringify: the total twin of stableStringify for error messages. It renders whatever
 JSON cannot express as a placeholder, and agrees with stableStringify whenever that succeeds.
 */
module Diagnostic {
  import opened JsonText
  import opened Json
  import opened Keys
  import opened ObjectGraph

  /** A placeholder, between quotes and not escaped. */
  function Marked(inner: Text): Text { [QUOTE] + inner + [QUOTE] }

  function Placeholder(v: JsValue): Text
    requires !IsLeaf(v) && !v.Ref?
  {
    match v
    case Undefined => Marked(Ascii("<undefined>"))
    case Function => Marked(Ascii("<function>"))
    case Symbol => Marked(Ascii("<symbol>"))
    case BigInt(digits) => Marked(Ascii("<BigInt ") + digits + Ascii("n>"))
    case Number(n) =>
      if n.NaN? then Marked(Ascii("<NaN>"))
      else if n.Infinity? then Marked(Ascii("<Infinity>"))
      else Marked(Ascii("<-Infinity>"))
  }

  const CIRCULAR: Text := Marked(Ascii("<circular>"))

  function GetterThrewText(message: Text): Text {
    Marked(Ascii("<getter threw: ") + message + Ascii(">"))
  }

  function Diag(h: Graph, v: JsValue, seen: set<nat>): Text
    requires Allocated(h, v)
    decreases h.Keys - seen, 0
  {
    if IsLeaf(v) then Stringify(LeafJson(v))
    else if !v.Ref? then Placeholder(v)
    else if v.id in seen then CIRCULAR
    else
      assert v.id in h.Keys - seen;
      DiagCell(h, v.id, seen)
  }

  function DiagCell(h: Graph, id: nat, seen: set<nat>): Text
    requires id in h && id !in seen
    decreases h.Keys - (seen + {id}), 3
  {
    ChildrenAllocated(h, id);
    match h[id]
    case ArrayCell(items) => [LBRACKET] + Join(DiagItems(h, items, seen + {id})) + [RBRACKET]
    case ObjectCell(props) =>
      [LBRACE] + Join(DiagProps(h, props, Sort(Names(props)), seen + {id})) + [RBRACE]
  }

  function DiagItems(h: Graph, items: seq<JsValue>, seen: set<nat>): seq<Text>
    requires ItemsAllocated(h, items)
    decreases h.Keys - seen, 2, |items|
  {
    if items == [] then [] else [Diag(h, items[0], seen)] + DiagItems(h, items[1..], seen)
  }

  function DiagProps(h: Graph, props: seq<Entry<Slot>>, ks: seq<Text>, seen: set<nat>): seq<Text>
    requires PropsAllocated(h, props)
    requires forall k :: k in ks ==> k in Names(props)
    decreases h.Keys - seen, 2, |ks|
  {
    if ks == [] then []
    else
      [Quote(ks[0]) + [COLON] + DiagSlot(h, Lookup(props, ks[0]), seen)] + DiagProps(h, props, ks[1..], seen)
  }

  function DiagSlot(h: Graph, slot: Slot, seen: set<nat>): Text
    requires slot.Got? ==> Allocated(h, slot.value)
    decreases h.Keys - seen, 1
  {
    if slot.Throws? then GetterThrewText(slot.message) else Diag(h, slot.value, seen)
  }

  /** Wherever the strict serializer succeeds, the diagnostic one gives the same text. */
  lemma {:induction false} DiagAgrees(h: Graph, v: JsValue, seen: set<nat>)
    requires Allocated(h, v) && Render(h, v, seen).Ok?
    ensures Diag(h, v, seen) == Render(h, v, seen).text
    decreases h.Keys - seen, 0
  {
    if v.Ref? {
      assert v.id in h.Keys - seen;
      ChildrenAllocated(h, v.id);
      if h[v.id].ArrayCell? {
        DiagItemsAgree(h, h[v.id].items, seen + {v.id});
      } else {
        DiagPropsAgree(h, h[v.id].props, Sort(Names(h[v.id].props)), seen + {v.id});
      }
    }
  }

  lemma {:induction false} DiagItemsAgree(h: Graph, items: seq<JsValue>, seen: set<nat>)
    requires ItemsAllocated(h, items) && RenderItems(h, items, seen).Done?
    ensures DiagItems(h, items, seen) == RenderItems(h, items, seen).parts
    decreases h.Keys - seen, 1, |items|
  {
    if items != [] {
      DiagAgrees(h, items[0], seen);
      DiagItemsAgree(h, items[1..], seen);
    }
  }

  lemma {:induction false} DiagPropsAgree(h: Graph, props: seq<Entry<Slot>>, ks: seq<Text>, seen: set<nat>)
    requires PropsAllocated(h, props) && forall k :: k in ks ==> k in Names(props)
    requires RenderProps(h, props, ks, seen).Done?
    ensures DiagProps(h, props, ks, seen) == RenderProps(h, props, ks, seen).parts
    decreases h.Keys - seen, 1, |ks|
  {
    if ks != [] {
      DiagAgrees(h, Lookup(props, ks[0]).value, seen);
      DiagPropsAgree(h, props, ks[1..], seen);
    }
  }

  predicate PlainUnit(u: CodeUnit) { EscapeUnit(u) == [u] && !IsHigh(u) && !IsLow(u) }

  lemma {:induction false} EscapePlain(s: Text)
    requires forall i :: 0 <= i < |s| ==> PlainUnit(s[i])
    ensures Escape(s) == s
  {
    if s != [] {
      EscapePlain(s[1..]);
      assert [s[0]] + s[1..] == s;
    }
  }

  /** The diagnostic text is no identity: a BigInt, which the strict serializer rejects, renders
      exactly as an ordinary string does. */
  lemma DiagnosticCollision(h: Graph, digits: Text, name: Text)
    requires forall i :: 0 <= i < |digits| ==> PlainUnit(digits[i])
    requires name == Ascii("<BigInt ") + digits + Ascii("n>")
    ensures Diag(h, BigInt(digits), {}) == Diag(h, String(name), {}) == Render(h, String(name), {}).text
    ensures Render(h, BigInt(digits), {}).Err?
  {
    EscapePlain(name);
  }
}
