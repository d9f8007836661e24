/**
 The two serializers as the program runs them: recursion over the object graph with one mutable
 set of the objects on the current path, entered before the children and left after them.
 */
module Serializer {
  import opened JsonText
  import opened Json
  import opened Keys
  import opened ObjectGraph
  import opened GraphProofs
  import opened Diagnostic
  import Canonical
  import Seqs

  /** JavaScript's Set, holding object identities. */
  class PathSet {
    var ids: set<nat>

    constructor ()
      ensures ids == {}
    {
      ids := {};
    }

    method Add(id: nat)
      modifies this
      ensures ids == old(ids) + {id}
    {
      ids := ids + {id};
    }

    method Delete(id: nat)
      modifies this
      ensures ids == old(ids) - {id}
    {
      ids := ids - {id};
    }
  }

  /** The parts rendered so far, before those still to come. */
  function Prepend(parts: seq<Text>, others: Pieces): Pieces {
    match others
    case Failed(_) => others
    case Done(rest) => Done(parts + rest)
  }

  lemma ItemsStep(h: Graph, items: seq<JsValue>, i: nat, path: set<nat>, parts: seq<Text>)
    requires ItemsAllocated(h, items) && i < |items|
    requires RenderItems(h, items, path) == Prepend(parts, RenderItems(h, items[i..], path))
    ensures var x := Render(h, items[i], path);
            RenderItems(h, items, path)
            == if x.Err? then Failed(x.why) else Prepend(parts + [x.text], RenderItems(h, items[i + 1..], path))
  {
    var x, others := Render(h, items[i], path), RenderItems(h, items[i + 1..], path);
    assert items[i..][1..] == items[i + 1..];
    if x.Ok? && others.Done? {
      Seqs.Assoc(parts, [x.text], others.parts);
    }
  }

  lemma PropsStep(h: Graph, props: seq<Entry<Slot>>, ks: seq<Text>, i: nat, path: set<nat>, parts: seq<Text>)
    requires PropsAllocated(h, props) && i < |ks| && forall k :: k in ks ==> k in Names(props)
    requires RenderProps(h, props, ks, path) == Prepend(parts, RenderProps(h, props, ks[i..], path))
    ensures var x := RenderProp(ks[i], RenderSlot(h, Lookup(props, ks[i]), path));
            RenderProps(h, props, ks, path)
            == if x.Err? then Failed(x.why) else Prepend(parts + [x.text], RenderProps(h, props, ks[i + 1..], path))
  {
    var x := RenderProp(ks[i], RenderSlot(h, Lookup(props, ks[i]), path));
    var others := RenderProps(h, props, ks[i + 1..], path);
    assert ks[i..][1..] == ks[i + 1..];
    if x.Ok? && others.Done? {
      Seqs.Assoc(parts, [x.text], others.parts);
    }
  }

  /** One recursive call. On success the path set is as it was; a rejection leaves it with the path
      on which the rejection happened. */
  method StringifyAt(h: Graph, v: JsValue, seen: PathSet) returns (r: Outcome)
    requires Allocated(h, v)
    modifies seen
    ensures r == Render(h, v, old(seen.ids))
    ensures r.Ok? ==> seen.ids == old(seen.ids)
    ensures old(seen.ids) <= seen.ids
    decreases h.Keys - seen.ids, 1
  {
    if IsLeaf(v) {
      return Ok(Stringify(LeafJson(v)));
    }
    if !v.Ref? {
      return Err(LeafRejection(v));
    }
    if v.id in seen.ids {
      return Err(Circular);
    }
    ghost var path := seen.ids;
    assert v.id in h.Keys - path;
    seen.Add(v.id);
    ChildrenAllocated(h, v.id);
    var pieces;
    if h[v.id].ArrayCell? {
      pieces := StringifyItems(h, h[v.id].items, seen);
      r := Bracket(LBRACKET, pieces, RBRACKET);
    } else {
      pieces := StringifyProps(h, h[v.id].props, seen);
      r := Bracket(LBRACE, pieces, RBRACE);
    }
    if r.Err? {
      return;
    }
    seen.Delete(v.id);
    assert seen.ids == path;
  }

  method StringifyItems(h: Graph, items: seq<JsValue>, seen: PathSet) returns (r: Pieces)
    requires ItemsAllocated(h, items)
    modifies seen
    ensures r == RenderItems(h, items, old(seen.ids))
    ensures r.Done? ==> seen.ids == old(seen.ids)
    ensures old(seen.ids) <= seen.ids
    decreases h.Keys - seen.ids, 2
  {
    ghost var path := seen.ids;
    var parts: seq<Text> := [];
    for i := 0 to |items|
      invariant seen.ids == path
      invariant RenderItems(h, items, path) == Prepend(parts, RenderItems(h, items[i..], path))
    {
      var x := StringifyAt(h, items[i], seen);
      ItemsStep(h, items, i, path, parts);
      if x.Err? {
        return Failed(x.why);
      }
      parts := parts + [x.text];
    }
    r := Done(parts);
  }

  method StringifyProps(h: Graph, props: seq<Entry<Slot>>, seen: PathSet) returns (r: Pieces)
    requires PropsAllocated(h, props)
    modifies seen
    ensures r == RenderProps(h, props, Sort(Names(props)), old(seen.ids))
    ensures r.Done? ==> seen.ids == old(seen.ids)
    ensures old(seen.ids) <= seen.ids
    decreases h.Keys - seen.ids, 3
  {
    ghost var path := seen.ids;
    var keys := Sort(Names(props));
    var parts: seq<Text> := [];
    for i := 0 to |keys|
      invariant seen.ids == path
      invariant RenderProps(h, props, keys, path) == Prepend(parts, RenderProps(h, props, keys[i..], path))
    {
      PropsStep(h, props, keys, i, path, parts);
      var x := StringifySlot(h, Lookup(props, keys[i]), seen);
      if x.Err? {
        return Failed(x.why);
      }
      parts := parts + [Quote(keys[i]) + [COLON] + x.text];
    }
    r := Done(parts);
  }

  /** Reading a property may throw before anything is rendered. */
  method StringifySlot(h: Graph, slot: Slot, seen: PathSet) returns (r: Outcome)
    requires slot.Got? ==> Allocated(h, slot.value)
    modifies seen
    ensures r == RenderSlot(h, slot, old(seen.ids))
    ensures r.Ok? ==> seen.ids == old(seen.ids)
    ensures old(seen.ids) <= seen.ids
    decreases h.Keys - seen.ids, 2
  {
    if slot.Throws? {
      return Err(GetterThrew(slot.message));
    }
    r := StringifyAt(h, slot.value, seen);
  }

  /** stableStringify on a value: canonical text, or a rejection exactly when the graph reaches
      something JSON cannot express. */
  method StableStringify(h: Graph, v: JsValue) returns (r: Outcome)
    requires Allocated(h, v)
    ensures r.Err? <==> Unserializable(h, v)
    ensures r.Ok? ==> exists t :: Unfolds(h, v, t) && r.text == Canonical.Stable(t)
  {
    var seen := new PathSet();
    r := StringifyAt(h, v, seen);
    FailsIffUnserializable(h, v);
    if r.Ok? {
      RenderIsUnfolding(h, v, r.text);
    }
  }

  lemma DiagPropsStep(h: Graph, props: seq<Entry<Slot>>, ks: seq<Text>, i: nat, path: set<nat>, parts: seq<Text>)
    requires PropsAllocated(h, props) && i < |ks| && forall k :: k in ks ==> k in Names(props)
    requires DiagProps(h, props, ks, path) == parts + DiagProps(h, props, ks[i..], path)
    ensures var x := Quote(ks[i]) + [COLON] + DiagSlot(h, Lookup(props, ks[i]), path);
            DiagProps(h, props, ks, path) == (parts + [x]) + DiagProps(h, props, ks[i + 1..], path)
  {
    var x := Quote(ks[i]) + [COLON] + DiagSlot(h, Lookup(props, ks[i]), path);
    assert ks[i..][1..] == ks[i + 1..];
    Seqs.Assoc(parts, [x], DiagProps(h, props, ks[i + 1..], path));
  }

  method DiagnoseAt(h: Graph, v: JsValue, seen: PathSet) returns (text: Text)
    requires Allocated(h, v)
    modifies seen
    ensures text == Diag(h, v, old(seen.ids))
    ensures seen.ids == old(seen.ids)
    decreases h.Keys - seen.ids, 1
  {
    if IsLeaf(v) {
      return Stringify(LeafJson(v));
    }
    if !v.Ref? {
      return Placeholder(v);
    }
    if v.id in seen.ids {
      return CIRCULAR;
    }
    ghost var path := seen.ids;
    assert v.id in h.Keys - path;
    seen.Add(v.id);
    ChildrenAllocated(h, v.id);
    var parts;
    if h[v.id].ArrayCell? {
      parts := DiagnoseItems(h, h[v.id].items, seen);
      text := [LBRACKET] + Join(parts) + [RBRACKET];
    } else {
      parts := DiagnoseProps(h, h[v.id].props, seen);
      text := [LBRACE] + Join(parts) + [RBRACE];
    }
    seen.Delete(v.id);
    assert seen.ids == path;
  }

  method DiagnoseItems(h: Graph, items: seq<JsValue>, seen: PathSet) returns (parts: seq<Text>)
    requires ItemsAllocated(h, items)
    modifies seen
    ensures parts == DiagItems(h, items, old(seen.ids))
    ensures seen.ids == old(seen.ids)
    decreases h.Keys - seen.ids, 2
  {
    ghost var path := seen.ids;
    parts := [];
    for i := 0 to |items|
      invariant seen.ids == path
      invariant DiagItems(h, items, path) == parts + DiagItems(h, items[i..], path)
    {
      var x := DiagnoseAt(h, items[i], seen);
      assert items[i..][1..] == items[i + 1..];
      parts := parts + [x];
    }
  }

  /** A getter that throws is contained in its own property. */
  method DiagnoseProps(h: Graph, props: seq<Entry<Slot>>, seen: PathSet) returns (parts: seq<Text>)
    requires PropsAllocated(h, props)
    modifies seen
    ensures parts == DiagProps(h, props, Sort(Names(props)), old(seen.ids))
    ensures seen.ids == old(seen.ids)
    decreases h.Keys - seen.ids, 2
  {
    ghost var path := seen.ids;
    var keys := Sort(Names(props));
    parts := [];
    for i := 0 to |keys|
      invariant seen.ids == path
      invariant DiagProps(h, props, keys, path) == parts + DiagProps(h, props, keys[i..], path)
    {
      DiagPropsStep(h, props, keys, i, path, parts);
      var slot := Lookup(props, keys[i]);
      var rendered;
      if slot.Throws? {
        rendered := GetterThrewText(slot.message);
      } else {
        rendered := DiagnoseAt(h, slot.value, seen);
      }
      parts := parts + [Quote(keys[i]) + [COLON] + rendered];
    }
  }

  /** diagnosticStringify returns on every graph, and returns what stableStringify would whenever
      that accepts the value. */
  method DiagnosticStringify(h: Graph, v: JsValue) returns (text: Text)
    requires Allocated(h, v)
    ensures text == Diag(h, v, {})
    ensures !Unserializable(h, v) ==> Render(h, v, {}) == Ok(text)
  {
    var seen := new PathSet();
    text := DiagnoseAt(h, v, seen);
    FailsIffUnserializable(h, v);
    if Render(h, v, {}).Ok? {
      DiagAgrees(h, v, {});
    }
  }
}
