/**
 The values stableStringify receives: JavaScript values over a finite graph of arrays and objects,
 in which objects may be shared and may be cyclic, and in which a property read may throw.
 What the serializer does is specified here; what that means for the caller is proved here.
 */
module ObjectGraph {
  import opened JsonText
  import opened Json
  import opened Keys
  import Seqs

  datatype JsNumber = Finite(num: NumberText) | MinusZero | NaN | Infinity | MinusInfinity

  datatype JsValue =
    | Undefined
    | Function
    | Symbol
    | BigInt(digits: Text)
    | NullValue
    | Boolean(b: bool)
    | Number(n: JsNumber)
    | String(s: Text)
    | Ref(id: nat)

  /** What reading a property gives: a value, or an exception thrown by its getter. */
  datatype Slot = Got(value: JsValue) | Throws(message: Text)

  datatype Cell = ArrayCell(items: seq<JsValue>) | ObjectCell(props: seq<Entry<Slot>>)

  function Children(c: Cell): (slots: seq<Slot>)
    ensures c.ArrayCell? ==> |slots| == |c.items| && forall i :: 0 <= i < |slots| ==> slots[i] == Got(c.items[i])
    ensures c.ObjectCell? ==> |slots| == |c.props| && forall i :: 0 <= i < |slots| ==> slots[i] == c.props[i].val
  {
    match c
    case ArrayCell(items) => seq(|items|, i requires 0 <= i < |items| => Got(items[i]))
    case ObjectCell(props) => seq(|props|, i requires 0 <= i < |props| => props[i].val)
  }

  predicate Allocated(h: map<nat, Cell>, v: JsValue) { v.Ref? ==> v.id in h }

  /** No dangling references, and no object has a name twice. */
  ghost predicate IsGraph(h: map<nat, Cell>) {
    forall id :: id in h ==>
      && (forall i :: 0 <= i < |Children(h[id])| && Children(h[id])[i].Got? ==> Allocated(h, Children(h[id])[i].value))
      && (h[id].ObjectCell? ==> Seqs.Distinct(Names(h[id].props)))
  }

  type Graph = h: map<nat, Cell> | IsGraph(h) witness map[]

  datatype Rejection = NonFinite | BigIntValue | NotJson | Circular | GetterThrew(message: Text)

  datatype Outcome = Ok(text: Text) | Err(why: Rejection)

  /** The rendered parts of an array or object, or the first rejection among them. */
  datatype Pieces = Done(parts: seq<Text>) | Failed(why: Rejection)

  function Join(parts: seq<Text>): Text {
    if parts == [] then []
    else parts[0] + (if |parts| == 1 then [] else [COMMA] + Join(parts[1..]))
  }

  lemma JoinCons(first: Text, others: seq<Text>)
    ensures Join([first] + others) == first + (if others == [] then [] else [COMMA] + Join(others))
  {
    assert ([first] + others)[1..] == others;
  }

  function Cons(first: Outcome, others: Pieces): Pieces {
    if first.Err? then Failed(first.why)
    else if others.Failed? then others
    else Done([first.text] + others.parts)
  }

  function Bracket(open: CodeUnit, pieces: Pieces, close: CodeUnit): Outcome {
    match pieces
    case Failed(why) => Err(why)
    case Done(parts) => Ok([open] + Join(parts) + [close])
  }

  predicate IsLeaf(v: JsValue) {
    v.NullValue? || v.Boolean? || v.String? || (v.Number? && (v.n.Finite? || v.n.MinusZero?))
  }

  /** The JSON value a leaf denotes; minus zero denotes zero. */
  function LeafJson(v: JsValue): Json
    requires IsLeaf(v)
  {
    match v
    case NullValue => Null
    case Boolean(b) => Bool(b)
    case String(s) => Str(s)
    case Number(n) => if n.MinusZero? then Num([0x30]) else Num(n.num)
  }

  function LeafRejection(v: JsValue): Rejection
    requires !IsLeaf(v) && !v.Ref?
  {
    if v.Number? then NonFinite else if v.BigInt? then BigIntValue else NotJson
  }

  /** stableStringify, with the objects on the path from the root in seen. */
  function Render(h: Graph, v: JsValue, seen: set<nat>): Outcome
    requires Allocated(h, v)
    decreases h.Keys - seen, 0
  {
    if IsLeaf(v) then Ok(Stringify(LeafJson(v)))
    else if !v.Ref? then Err(LeafRejection(v))
    else if v.id in seen then Err(Circular)
    else
      assert v.id in h.Keys - seen;
      RenderCell(h, v.id, seen)
  }

  function RenderCell(h: Graph, id: nat, seen: set<nat>): Outcome
    requires id in h && id !in seen
    decreases h.Keys - (seen + {id}), 3
  {
    ChildrenAllocated(h, id);
    match h[id]
    case ArrayCell(items) =>
      Bracket(LBRACKET, RenderItems(h, items, seen + {id}), RBRACKET)
    case ObjectCell(props) =>
      Bracket(LBRACE, RenderProps(h, props, Sort(Names(props)), seen + {id}), RBRACE)
  }

  ghost predicate ItemsAllocated(h: Graph, items: seq<JsValue>) {
    forall i :: 0 <= i < |items| ==> Allocated(h, items[i])
  }

  ghost predicate PropsAllocated(h: Graph, props: seq<Entry<Slot>>) {
    forall i :: 0 <= i < |props| && props[i].val.Got? ==> Allocated(h, props[i].val.value)
  }

  lemma ChildrenAllocated(h: Graph, id: nat)
    requires id in h
    ensures h[id].ArrayCell? ==> ItemsAllocated(h, h[id].items)
    ensures h[id].ObjectCell? ==> PropsAllocated(h, h[id].props)
  {
    var slots := Children(h[id]);
    assert forall i :: 0 <= i < |slots| && slots[i].Got? ==> Allocated(h, slots[i].value);
    if h[id].ArrayCell? {
      assert forall i :: 0 <= i < |slots| ==> slots[i] == Got(h[id].items[i]);
    } else {
      assert forall i :: 0 <= i < |slots| ==> slots[i] == h[id].props[i].val;
    }
  }

  function RenderItems(h: Graph, items: seq<JsValue>, seen: set<nat>): Pieces
    requires ItemsAllocated(h, items)
    decreases h.Keys - seen, 2, |items|
  {
    if items == [] then Done([])
    else Cons(Render(h, items[0], seen), RenderItems(h, items[1..], seen))
  }

  function RenderProps(h: Graph, props: seq<Entry<Slot>>, ks: seq<Text>, seen: set<nat>): Pieces
    requires PropsAllocated(h, props)
    requires forall k :: k in ks ==> k in Names(props)
    decreases h.Keys - seen, 2, |ks|
  {
    if ks == [] then Done([])
    else
      Cons(RenderProp(ks[0], RenderSlot(h, Lookup(props, ks[0]), seen)), RenderProps(h, props, ks[1..], seen))
  }

  function RenderProp(k: Text, value: Outcome): Outcome {
    if value.Err? then value else Ok(Quote(k) + [COLON] + value.text)
  }

  function RenderSlot(h: Graph, slot: Slot, seen: set<nat>): Outcome
    requires slot.Got? ==> Allocated(h, slot.value)
    decreases h.Keys - seen, 1
  {
    if slot.Throws? then Err(GetterThrew(slot.message)) else Render(h, slot.value, seen)
  }
}
