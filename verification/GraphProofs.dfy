/**
 What Render means: it accepts exactly the values from which no cycle, no non-JSON leaf and no
 throwing property is reachable, and then gives the canonical text of the unfolded tree.
 */
module GraphProofs {
  import opened JsonText
  import opened Json
  import opened Keys
  import opened ObjectGraph
  import Canonical
  import Seqs

  /** The tree t is v with every reference followed, shared objects being copied. */
  ghost predicate Unfolds(h: Graph, v: JsValue, t: Json)
    requires Allocated(h, v)
    decreases t, 0
  {
    if IsLeaf(v) then t == LeafJson(v)
    else if !v.Ref? then false
    else if h[v.id].ArrayCell? then
      && t.Arr? && |t.items| == |h[v.id].items|
      && forall i :: 0 <= i < |t.items| ==> UnfoldsSlot(h, v.id, i, t.items[i])
    else
      && t.Obj? && |t.members| == |h[v.id].props|
      && forall i :: 0 <= i < |t.members| ==>
           && t.members[i].key == h[v.id].props[i].key
           && UnfoldsSlot(h, v.id, i, t.members[i].val)
  }

  ghost predicate UnfoldsSlot(h: Graph, id: nat, i: nat, t: Json)
    requires id in h && i < |Children(h[id])|
    decreases t, 1
  {
    Children(h[id])[i].Got? && Unfolds(h, Children(h[id])[i].value, t)
  }

  // ---- Rendering succeeds: the text is the canonical text of the unfolding ----

  lemma {:induction false} JoinStable(parts: seq<Text>, ts: seq<Json>)
    requires |parts| == |ts|
    requires forall i :: 0 <= i < |ts| ==> parts[i] == Canonical.Stable(ts[i])
    ensures Join(parts) == Canonical.StableItems(ts)
  {
    if ts != [] {
      JoinStable(parts[1..], ts[1..]);
    }
  }

  lemma {:induction false} ItemsDone(h: Graph, items: seq<JsValue>, seen: set<nat>)
    requires ItemsAllocated(h, items)
    requires RenderItems(h, items, seen).Done?
    ensures |RenderItems(h, items, seen).parts| == |items|
    ensures forall i :: 0 <= i < |items| ==> Render(h, items[i], seen) == Ok(RenderItems(h, items, seen).parts[i])
  {
    if items != [] {
      ItemsDone(h, items[1..], seen);
    }
  }

  lemma {:induction false} PropsDone(h: Graph, props: seq<Entry<Slot>>, ks: seq<Text>, seen: set<nat>)
    requires PropsAllocated(h, props) && forall k :: k in ks ==> k in Names(props)
    requires RenderProps(h, props, ks, seen).Done?
    ensures forall k :: k in ks ==> RenderSlot(h, Lookup(props, k), seen).Ok?
  {
    if ks != [] {
      PropsDone(h, props, ks[1..], seen);
      forall k | k in ks ensures RenderSlot(h, Lookup(props, k), seen).Ok? {
        assert k == ks[0] || k in ks[1..];
      }
    }
  }

  lemma {:induction false} OkUnfolds(h: Graph, v: JsValue, seen: set<nat>) returns (t: Json)
    requires Allocated(h, v)
    requires Render(h, v, seen).Ok?
    ensures Unfolds(h, v, t) && Canonical.WellFormed(t)
    ensures Render(h, v, seen).text == Canonical.Stable(t)
    decreases h.Keys - seen, 1
  {
    if IsLeaf(v) {
      t := LeafJson(v);
    } else {
      assert v.id in h.Keys - seen;
      if h[v.id].ArrayCell? {
        t := ArrayUnfolds(h, v.id, seen);
      } else {
        t := ObjectUnfolds(h, v.id, seen);
      }
    }
  }

  /** The trees ts are those of the children of id, in order. */
  ghost predicate ChildrenUnfold(h: Graph, id: nat, ts: seq<Json>)
    requires id in h
  {
    && |ts| == |Children(h[id])|
    && forall i :: 0 <= i < |ts| ==> UnfoldsSlot(h, id, i, ts[i]) && Canonical.WellFormed(ts[i])
  }

  /** When every child renders, each has a tree whose canonical text is what was rendered. */
  lemma {:induction false} ChildTrees(h: Graph, id: nat, seen: set<nat>) returns (ts: seq<Json>)
    requires id in h && id !in seen
    requires forall i :: 0 <= i < |Children(h[id])| ==> RenderSlot(h, Children(h[id])[i], seen + {id}).Ok?
    ensures ChildrenUnfold(h, id, ts)
    ensures forall i :: 0 <= i < |ts| ==> RenderSlot(h, Children(h[id])[i], seen + {id}) == Ok(Canonical.Stable(ts[i]))
    decreases h.Keys - (seen + {id}), 2
  {
    var slots := Children(h[id]);
    ts := [];
    for i := 0 to |slots|
      invariant |ts| == i
      invariant forall j :: 0 <= j < i ==> UnfoldsSlot(h, id, j, ts[j]) && Canonical.WellFormed(ts[j])
      invariant forall j :: 0 <= j < i ==> RenderSlot(h, slots[j], seen + {id}) == Ok(Canonical.Stable(ts[j]))
    {
      var u := OkUnfolds(h, slots[i].value, seen + {id});
      ts := ts + [u];
    }
  }

  lemma {:induction false} ArrayUnfolds(h: Graph, id: nat, seen: set<nat>) returns (t: Json)
    requires id in h && id !in seen && h[id].ArrayCell?
    requires RenderCell(h, id, seen).Ok?
    ensures Unfolds(h, Ref(id), t) && Canonical.WellFormed(t)
    ensures RenderCell(h, id, seen).text == Canonical.Stable(t)
    decreases h.Keys - (seen + {id}), 3
  {
    ChildrenAllocated(h, id);
    ItemsDone(h, h[id].items, seen + {id});
    var ts := ChildTrees(h, id, seen);
    JoinStable(RenderItems(h, h[id].items, seen + {id}).parts, ts);
    t := Arr(ts);
  }

  lemma {:induction false} ObjectUnfolds(h: Graph, id: nat, seen: set<nat>) returns (t: Json)
    requires id in h && id !in seen && h[id].ObjectCell?
    requires RenderCell(h, id, seen).Ok?
    ensures Unfolds(h, Ref(id), t) && Canonical.WellFormed(t)
    ensures RenderCell(h, id, seen).text == Canonical.Stable(t)
    decreases h.Keys - (seen + {id}), 3
  {
    PropsRendered(h, id, seen);
    var ts := ChildTrees(h, id, seen);
    var ms := Zip(Names(h[id].props), ts);
    assert Names(ms) == Names(h[id].props);
    ChildrenAllocated(h, id);
    PropsStable(h, h[id].props, ms, Sort(Names(h[id].props)), seen + {id});
    t := Obj(ms);
  }

  lemma PropsRendered(h: Graph, id: nat, seen: set<nat>)
    requires id in h && id !in seen && h[id].ObjectCell?
    requires RenderCell(h, id, seen).Ok?
    ensures forall i :: 0 <= i < |Children(h[id])| ==> RenderSlot(h, Children(h[id])[i], seen + {id}).Ok?
  {
    var props, ks := h[id].props, Sort(Names(h[id].props));
    ChildrenAllocated(h, id);
    PropsDone(h, props, ks, seen + {id});
    forall i | 0 <= i < |props| ensures RenderSlot(h, Children(h[id])[i], seen + {id}).Ok? {
      LookupAt(props, i);
      assert props[i].key in ks;
    }
  }

  function Zip(ks: seq<Text>, ts: seq<Json>): (ms: seq<Entry<Json>>)
    requires |ks| == |ts|
    ensures |ms| == |ks| && forall i :: 0 <= i < |ks| ==> ms[i] == Entry(ks[i], ts[i])
  {
    seq(|ks|, i requires 0 <= i < |ks| => Entry(ks[i], ts[i]))
  }

  lemma PropStable(h: Graph, props: seq<Entry<Slot>>, ms: seq<Entry<Json>>, k: Text, seen: set<nat>)
    requires PropsAllocated(h, props) && k in Names(props)
    requires Names(ms) == Names(props) && Seqs.Distinct(Names(props))
    requires forall i :: 0 <= i < |ms| ==> RenderSlot(h, props[i].val, seen) == Ok(Canonical.Stable(ms[i].val))
    ensures RenderSlot(h, Lookup(props, k), seen) == Ok(Canonical.Stable(Lookup(ms, k)))
  {
    var ns := Names(props);
    var i :| 0 <= i < |ns| && ns[i] == k;
    LookupAt(props, i);
    LookupAt(ms, i);
  }

  lemma {:induction false} PropsStable(
    h: Graph, props: seq<Entry<Slot>>, ms: seq<Entry<Json>>, ks: seq<Text>, seen: set<nat>)
    requires PropsAllocated(h, props) && forall k :: k in ks ==> k in Names(props)
    requires Names(ms) == Names(props) && Seqs.Distinct(Names(props))
    requires forall i :: 0 <= i < |ms| ==> RenderSlot(h, props[i].val, seen) == Ok(Canonical.Stable(ms[i].val))
    ensures var r := RenderProps(h, props, ks, seen);
            r.Done? && |r.parts| == |ks| && Join(r.parts) == Canonical.StableMembers(ms, ks)
    decreases |ks|
  {
    if ks != [] {
      PropStable(h, props, ms, ks[0], seen);
      PropsStable(h, props, ms, ks[1..], seen);
      var value := RenderSlot(h, Lookup(props, ks[0]), seen).text;
      JoinCons(Quote(ks[0]) + [COLON] + value, RenderProps(h, props, ks[1..], seen).parts);
    }
  }

  // ---- Rendering fails: a path shows why ----

  /** b is read from the array or object that a refers to. */
  ghost predicate Edge(h: Graph, a: Slot, b: Slot) {
    a.Got? && a.value.Ref? && a.value.id in h && b in Children(h[a.value.id])
  }

  ghost predicate IsPath(h: Graph, p: seq<Slot>) {
    p != [] && forall i :: 0 <= i < |p| - 1 ==> Edge(h, p[i], p[i + 1])
  }

  /** A slot that JSON cannot express: an exception, or a leaf that is not a JSON value. */
  predicate Inexpressible(s: Slot) { s.Throws? || (!IsLeaf(s.value) && !s.value.Ref?) }

  /** The path ends in an inexpressible slot, in an object of seen, or back on itself. */
  ghost predicate EndsBadly(p: seq<Slot>, seen: set<nat>)
    requires p != []
  {
    var z := p[|p| - 1];
    || Inexpressible(z)
    || (z.Got? && z.value.Ref? && (z.value.id in seen || exists i :: 0 <= i < |p| - 1 && p[i] == z))
  }

  /** Some path from v reaches a cycle, a leaf that is not JSON, or a throwing property. */
  ghost predicate Unserializable(h: Graph, v: JsValue) {
    exists p :: IsPath(h, p) && p[0] == Got(v) && EndsBadly(p, {})
  }

  /** What a path that ends in this slot is rejected for. */
  predicate Reason(z: Slot, why: Rejection) {
    if z.Throws? then why == GetterThrew(z.message)
    else
      match z.value
      case BigInt(_) => why == BigIntValue
      case Number(_) => why == NonFinite
      case Ref(_) => why == Circular
      case _ => why == NotJson
  }

  lemma {:induction false} ItemsFailed(h: Graph, items: seq<JsValue>, seen: set<nat>) returns (i: nat)
    requires ItemsAllocated(h, items)
    requires RenderItems(h, items, seen).Failed?
    ensures i < |items| && Render(h, items[i], seen) == Err(RenderItems(h, items, seen).why)
    ensures forall j :: 0 <= j < i ==> Render(h, items[j], seen).Ok?
  {
    if Render(h, items[0], seen).Err? {
      i := 0;
    } else {
      i := ItemsFailed(h, items[1..], seen);
      i := i + 1;
    }
  }

  lemma {:induction false} PropsFailed(h: Graph, props: seq<Entry<Slot>>, ks: seq<Text>, seen: set<nat>)
    returns (i: nat)
    requires PropsAllocated(h, props) && forall k :: k in ks ==> k in Names(props)
    requires RenderProps(h, props, ks, seen).Failed?
    ensures i < |props| && RenderSlot(h, props[i].val, seen) == Err(RenderProps(h, props, ks, seen).why)
    decreases |ks|
  {
    if RenderSlot(h, Lookup(props, ks[0]), seen).Err? {
      i :| 0 <= i < |props| && props[i] == Entry(ks[0], Lookup(props, ks[0]));
    } else {
      i := PropsFailed(h, props, ks[1..], seen);
    }
  }

  lemma ChildFailed(h: Graph, id: nat, seen: set<nat>) returns (s: Slot)
    requires id in h && id !in seen
    requires RenderCell(h, id, seen).Err?
    ensures s in Children(h[id]) && (s.Got? ==> Allocated(h, s.value))
    ensures RenderSlot(h, s, seen + {id}) == Err(RenderCell(h, id, seen).why)
  {
    ChildrenAllocated(h, id);
    if h[id].ArrayCell? {
      var i := ItemsFailed(h, h[id].items, seen + {id});
      s := Children(h[id])[i];
    } else {
      var i := PropsFailed(h, h[id].props, Sort(Names(h[id].props)), seen + {id});
      s := Children(h[id])[i];
    }
  }

  lemma ExtendPath(h: Graph, id: nat, p: seq<Slot>, seen: set<nat>)
    requires id in h && IsPath(h, p) && p[0] in Children(h[id])
    requires EndsBadly(p, seen + {id})
    ensures IsPath(h, [Got(Ref(id))] + p) && EndsBadly([Got(Ref(id))] + p, seen)
  {
    var q, z := [Got(Ref(id))] + p, p[|p| - 1];
    forall i | 0 <= i < |q| - 1 ensures Edge(h, q[i], q[i + 1]) {
      if i > 0 { assert Edge(h, p[i - 1], p[i]); }
    }
    assert q[|q| - 1] == z && q[0] == Got(Ref(id));
    if !Inexpressible(z) && z.value.id !in seen && z.value.id != id {
      var i :| 0 <= i < |p| - 1 && p[i] == z;
      assert q[i + 1] == z;
    }
  }

  lemma {:induction false} ErrPath(h: Graph, v: JsValue, seen: set<nat>) returns (p: seq<Slot>)
    requires Allocated(h, v)
    requires Render(h, v, seen).Err?
    ensures IsPath(h, p) && p[0] == Got(v) && EndsBadly(p, seen)
    ensures Reason(p[|p| - 1], Render(h, v, seen).why)
    decreases h.Keys - seen
  {
    p := [Got(v)];
    if v.Ref? && v.id !in seen {
      assert v.id in h.Keys - seen;
      var s := ChildFailed(h, v.id, seen);
      var q := [s];
      if s.Got? {
        q := ErrPath(h, s.value, seen + {v.id});
      }
      ExtendPath(h, v.id, q, seen);
      p := [Got(v)] + q;
    }
  }

  /** A rejection names what the serializer ran into: it is that of the end of a bad path from the value. */
  lemma RejectedFor(h: Graph, v: JsValue, why: Rejection)
    requires Allocated(h, v) && Render(h, v, {}) == Err(why)
    ensures exists p :: IsPath(h, p) && p[0] == Got(v) && EndsBadly(p, {}) && Reason(p[|p| - 1], why)
  {
    var p := ErrPath(h, v, {});
  }

  /** In an array the first item that cannot be rendered decides. */
  lemma {:induction false} FirstItemDecides(h: Graph, items: seq<JsValue>, seen: set<nat>, i: nat)
    requires ItemsAllocated(h, items) && i < |items| && Render(h, items[i], seen).Err?
    requires forall j :: 0 <= j < i ==> Render(h, items[j], seen).Ok?
    ensures RenderItems(h, items, seen) == Failed(Render(h, items[i], seen).why)
  {
    if i > 0 { FirstItemDecides(h, items[1..], seen, i - 1); }
  }

  /** In an object the first property in name order does. */
  lemma {:induction false} FirstNameDecides(h: Graph, props: seq<Entry<Slot>>, ks: seq<Text>, seen: set<nat>, i: nat)
    requires PropsAllocated(h, props) && forall k :: k in ks ==> k in Names(props)
    requires i < |ks| && RenderSlot(h, Lookup(props, ks[i]), seen).Err?
    requires forall j :: 0 <= j < i ==> RenderSlot(h, Lookup(props, ks[j]), seen).Ok?
    ensures RenderProps(h, props, ks, seen) == Failed(RenderSlot(h, Lookup(props, ks[i]), seen).why)
    decreases |ks|
  {
    if i > 0 {
      assert forall j :: 0 <= j < i - 1 ==> ks[1..][j] == ks[j + 1];
      FirstNameDecides(h, props, ks[1..], seen, i - 1);
    }
  }

  // ---- A value with a finite unfolding has no bad path ----

  lemma {:induction false} UnfoldsUnique(h: Graph, v: JsValue, t: Json, u: Json)
    requires Allocated(h, v) && Unfolds(h, v, t) && Unfolds(h, v, u)
    ensures t == u
    decreases t
  {
    if v.Ref? {
      var slots := Children(h[v.id]);
      forall i | 0 <= i < |slots|
        ensures t.Arr? ==> t.items[i] == u.items[i]
        ensures t.Obj? ==> t.members[i] == u.members[i]
      {
        if t.Arr? {
          assert UnfoldsSlot(h, v.id, i, t.items[i]) && UnfoldsSlot(h, v.id, i, u.items[i]);
          UnfoldsUnique(h, slots[i].value, t.items[i], u.items[i]);
        } else {
          assert UnfoldsSlot(h, v.id, i, t.members[i].val) && UnfoldsSlot(h, v.id, i, u.members[i].val);
          UnfoldsUnique(h, slots[i].value, t.members[i].val, u.members[i].val);
        }
      }
    }
  }

  lemma SubPath(h: Graph, p: seq<Slot>, i: nat, j: nat)
    requires IsPath(h, p) && i < j <= |p|
    ensures IsPath(h, p[i..j])
  {
    var q := p[i..j];
    forall k | 0 <= k < |q| - 1 ensures Edge(h, q[k], q[k + 1]) {
      assert q[k] == p[i + k] && q[k + 1] == p[(i + k) + 1];
    }
  }

  /** A path through an unfolded value ends at a value whose tree is a subtree, proper unless the path is trivial. */
  lemma {:induction false} PathSubtree(h: Graph, v: JsValue, t: Json, p: seq<Slot>) returns (u: Json)
    requires Allocated(h, v) && Unfolds(h, v, t)
    requires IsPath(h, p) && p[0] == Got(v)
    ensures var z := p[|p| - 1]; z.Got? && Allocated(h, z.value) && Unfolds(h, z.value, u)
    ensures if |p| == 1 then u == t else u < t
    decreases |p|
  {
    if |p| == 1 {
      u := t;
    } else {
      assert Edge(h, p[0], p[1]);
      var slots := Children(h[v.id]);
      var i :| 0 <= i < |slots| && slots[i] == p[1];
      var child := if t.Arr? then t.items[i] else t.members[i].val;
      assert UnfoldsSlot(h, v.id, i, child);
      assert child < t;
      SubPath(h, p, 1, |p|);
      assert p[1..|p|] == p[1..];
      u := PathSubtree(h, slots[i].value, child, p[1..]);
    }
  }

  lemma NoBadPath(h: Graph, v: JsValue, t: Json, p: seq<Slot>)
    requires Allocated(h, v) && Unfolds(h, v, t)
    requires IsPath(h, p) && p[0] == Got(v)
    ensures !EndsBadly(p, {})
  {
    var n := |p| - 1;
    var last := PathSubtree(h, v, t, p);
    if EndsBadly(p, {}) {
      var i :| 0 <= i < n && p[i] == p[n];
      SubPath(h, p, 0, i + 1);
      SubPath(h, p, i, n + 1);
      var x := PathSubtree(h, v, t, p[0..i + 1]);
      var y := PathSubtree(h, p[i].value, x, p[i..n + 1]);
      UnfoldsUnique(h, p[i].value, x, y);
    }
  }

  // ---- The two characterisations of success ----

  /** stableStringify fails exactly when a cycle, a leaf that is not JSON or a throwing property is
      reachable; objects that are merely shared are accepted. */
  lemma FailsIffUnserializable(h: Graph, v: JsValue)
    requires Allocated(h, v)
    ensures Render(h, v, {}).Err? <==> Unserializable(h, v)
  {
    if Render(h, v, {}).Err? {
      var p := ErrPath(h, v, {});
    } else {
      var t := OkUnfolds(h, v, {});
      forall p | IsPath(h, p) && p[0] == Got(v) ensures !EndsBadly(p, {}) {
        NoBadPath(h, v, t, p);
      }
    }
  }

  /** It succeeds exactly when the value unfolds to a finite tree, with that tree's canonical text. */
  lemma RenderIsUnfolding(h: Graph, v: JsValue, text: Text)
    requires Allocated(h, v)
    ensures Render(h, v, {}) == Ok(text)
       <==> exists t :: Unfolds(h, v, t) && Canonical.Stable(t) == text
  {
    if Render(h, v, {}) == Ok(text) {
      var t := OkUnfolds(h, v, {});
    }
    forall t | Unfolds(h, v, t) && Canonical.Stable(t) == text
      ensures Render(h, v, {}) == Ok(text)
    {
      if Render(h, v, {}).Err? {
        var p := ErrPath(h, v, {});
        NoBadPath(h, v, t, p);
      } else {
        var u := OkUnfolds(h, v, {});
        UnfoldsUnique(h, v, t, u);
      }
    }
  }

  /** Two accepted values, in any two graphs, get the same text exactly when they unfold to the same
      tree up to member order: identity is blind to sharing and to property order, and to nothing else. */
  lemma IdentityIsUnfoldedSameness(g: Graph, v: JsValue, h: Graph, w: JsValue)
    requires Allocated(g, v) && Allocated(h, w)
    requires Render(g, v, {}).Ok? && Render(h, w, {}).Ok?
    ensures Render(g, v, {}) == Render(h, w, {})
       <==> exists t, u :: Unfolds(g, v, t) && Unfolds(h, w, u) && Canonical.Same(t, u)
  {
    var t0 := OkUnfolds(g, v, {});
    var u0 := OkUnfolds(h, w, {});
    Canonical.StableIdentity(t0, u0);
    forall t, u | Unfolds(g, v, t) && Unfolds(h, w, u) ensures t == t0 && u == u0 {
      UnfoldsUnique(g, v, t, t0);
      UnfoldsUnique(h, w, u, u0);
    }
  }
}
