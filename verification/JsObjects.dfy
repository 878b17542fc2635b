/** `setAt` as it runs: objects in memory that are changed in place. */
module JsObjects {
  import opened JsArray
  import opened JsPaths
  import opened Scrubbing

  /** What a property holds: a value that is no object, or a reference. */
  datatype Slot = Leaf(v: Value) | Child(o: JsObject)

  class JsObject {
    var length: Option<nat>
    var props: map<Key, Slot>

    constructor ()
      ensures length == None && props == map[]
    {
      length, props := None, map[];
    }

    /** `this[key] = slot`: what the other keys hold stays, and an array grows to hold the index. */
    method Store(key: Key, slot: Slot)
      modifies this
      ensures props.Keys == old(props).Keys + {key} && forall k :: k in props ==> props[k] == if k == key then slot else old(props)[k]
      ensures length == if old(length).Some? && key.Index? && key !in old(props) then Some(Max(old(length).value, key.n + 1)) else old(length)
    {
      if length.Some? && key.Index? && key !in props { length := Some(Max(length.value, key.n + 1)); }
      props := props[key := slot];
    }
  }

  // ---------------------------------------------------------------- trees in memory

  /** Where each object of a tree is in memory. */
  type Layout = map<Path, JsObject>

  ghost function SlotOf(x: Value, layout: Layout, p: Path): Slot {
    if x.Obj? && p in layout then Child(layout[p]) else Leaf(x)
  }

  ghost predicate ObjAt(v: Value, p: Path) {
    NodeAt(v, p).Some? && NodeAt(v, p).value.Obj?
  }

  ghost function Slots(node: Value, layout: Layout, p: Path): map<Key, Slot>
    requires node.Obj?
  {
    map k | k in node.props :: SlotOf(node.props[k], layout, p + [k])
  }

  ghost predicate Same(o: JsObject, node: Value, layout: Layout, p: Path)
    reads o
  {
    node.Obj? && o.length == node.length && o.props == Slots(node, layout, p)
  }

  ghost predicate Covers(v: Value, layout: Layout) {
    forall p :: p in layout <==> ObjAt(v, p)
  }

  ghost predicate Placed(v: Value, layout: Layout) {
    && Covers(v, layout)
    && (forall p, q :: p in layout && q in layout && layout[p] == layout[q] ==> p == q)
  }

  /** The objects show the tree; one object may stand at several places of it. */
  ghost predicate Shows(v: Value, layout: Layout)
    reads layout.Values
  {
    Covers(v, layout) && forall p :: p in layout ==> Same(layout[p], NodeAt(v, p).value, layout, p)
  }

  /** The objects hold the tree, and no object is shared. */
  ghost predicate Holds(v: Value, layout: Layout)
    reads layout.Values
  {
    Placed(v, layout) && forall p :: p in layout ==> Same(layout[p], NodeAt(v, p).value, layout, p)
  }

  // ---------------------------------------------------------------- one object of a tree changes

  lemma {:induction false} ReplacedNode(v: Value, p: Path, r: Value)
    requires NodeAt(v, p).Some?
    ensures NodeAt(Replace(v, p, r), p) == Some(r)
    decreases |p|
  {
    if p != [] { ReplacedNode(v.props[p[0]], p[1..], r); }
  }

  lemma NodeFirst(v: Value, p: Path)
    requires p != [] && NodeAt(v, p).Some?
    ensures v.Obj? && p[0] in v.props && NodeAt(v.props[p[0]], p[1..]) == NodeAt(v, p)
  {
  }

  lemma {:induction false} ReplacedTwice(v: Value, p: Path, r: Value, s: Value)
    requires NodeAt(v, p).Some?
    ensures NodeAt(Replace(v, p, r), p).Some? && Replace(Replace(v, p, r), p, s) == Replace(v, p, s)
    decreases |p|
  {
    ReplacedNode(v, p, r);
    if p != [] {
      hide NodeAt;
      NodeFirst(v, p);
      ReplacedTwice(v.props[p[0]], p[1..], r, s);
      ReplaceFirst(v, p, r);
      ReplaceFirst(v, p, s);
      NodeFirst(Replace(v, p, r), p);
      ReplaceFirst(Replace(v, p, r), p, s);
    }
  }

  /** A changed object: what is at each path afterwards. */
  lemma {:induction false} ReplacedElsewhere(v: Value, p: Path, r: Value, q: Path)
    requires NodeAt(v, p).Some? && !(p <= q)
    ensures ObjAt(Replace(v, p, r), q) <==> ObjAt(v, q)
    ensures ObjAt(v, q) ==>
              var x, y := NodeAt(v, q).value, NodeAt(Replace(v, p, r), q).value;
              && x.length == y.length && x.props.Keys == y.props.Keys
              && forall k :: k in x.props ==> x.props[k] == y.props[k] || (q + [k] <= p)
    decreases |p|
  {
    if q == [] {
      assert p != [];
      assert q + [p[0]] == [p[0]] <= p;
    } else if p[0] == q[0] {
      hide NodeAt;
      ReplaceFirst(v, p, r);
      NodeFirst(v, p);
      StepInto(v, q);
      StepInto(Replace(v, p, r), q);
      assert !(p[1..] <= q[1..]) by { assert p == [p[0]] + p[1..] && q == [q[0]] + q[1..]; }
      ReplacedElsewhere(v.props[p[0]], p[1..], r, q[1..]);
      forall k ensures q[1..] + [k] <= p[1..] ==> q + [k] <= p { StepBack(p, q, k); }
    }
  }

  lemma StepInto(v: Value, q: Path)
    requires q != []
    ensures NodeAt(v, q) == if v.Obj? && q[0] in v.props then NodeAt(v.props[q[0]], q[1..]) else None
  {
  }

  lemma StepBack(p: Path, q: Path, k: Key)
    requires p != [] && q != [] && p[0] == q[0]
    ensures q[1..] + [k] <= p[1..] ==> q + [k] <= p
  {
    assert p == [p[0]] + p[1..] && q + [k] == [q[0]] + (q[1..] + [k]);
  }

  lemma {:induction false} BelowReplaced(v: Value, p: Path, r: Value, q: Path)
    requires NodeAt(v, p).Some?
    ensures NodeAt(v, p + q) == NodeAt(NodeAt(v, p).value, q)
    ensures NodeAt(Replace(v, p, r), p + q) == NodeAt(r, q)
    decreases |p|
  {
    if p == [] {
      assert p + q == q;
    } else {
      assert (p + q)[1..] == p[1..] + q;
      BelowReplaced(v.props[p[0]], p[1..], r, q);
    }
  }

  /** What is at a path gives way to other objects. */
  ghost function Grafted(layout: Layout, at: Path, sub: Layout): (r: Layout)
    ensures forall q :: q in r <==> if at <= q then q[|at|..] in sub else q in layout
    ensures forall q :: q in r ==> r[q] == if at <= q then sub[q[|at|..]] else layout[q]
  {
    var here := set r | r in sub :: at + r;
    assert forall q :: q in here <==> at <= q && q[|at|..] in sub by {
      forall q | at <= q && q[|at|..] in sub ensures q in here { assert q == at + q[|at|..]; }
    }
    map q | q in (set q | q in layout && !(at <= q)) + here :: if at <= q then sub[q[|at|..]] else layout[q]
  }

  /** A value, the slot for it, and where its objects are: none of them in the tree. */
  ghost predicate Foreign(layout: Layout, x: Value, slot: Slot, sub: Layout) {
    Placed(x, sub) && sub.Values !! layout.Values && Slotted(x, slot, sub)
  }

  ghost predicate Slotted(x: Value, slot: Slot, sub: Layout) {
    if x.Obj? then [] in sub && slot == Child(sub[[]]) else slot == Leaf(x) && sub == map[]
  }

  /** What is at a path below the assigned property, and below the object beside it. */
  lemma AtGraft(v: Value, p: Path, k: Key, x: Value, q: Path)
    requires ObjAt(v, p) && p <= q && q != p
    ensures var w := Replace(v, p, JsPaths.Put(NodeAt(v, p).value, k, x));
            NodeAt(w, q) == if p + [k] <= q then NodeAt(x, q[|p + [k]|..]) else NodeAt(v, q)
  {
    hide Replace;
    var node, b := NodeAt(v, p).value, q[|p|..];
    assert q == p + b;
    PrefixStep(p, k, q);
    assert b[0] == q[|p|] && b[1..] == q[|p + [k]|..];
    BelowReplaced(v, p, JsPaths.Put(node, k, x), b);
    BelowPut(node, k, x, b);
  }

  /** Which objects there are after an assignment to a property of the object at p. */
  lemma PutPlaces(v: Value, layout: Layout, p: Path, k: Key, x: Value, sub: Layout, q: Path)
    requires ObjAt(v, p) && (forall q :: q in layout <==> ObjAt(v, q)) && forall r :: r in sub <==> ObjAt(x, r)
    ensures q in Grafted(layout, p + [k], sub) <==> ObjAt(Replace(v, p, JsPaths.Put(NodeAt(v, p).value, k, x)), q)
  {
    hide Replace, NodeAt, Grafted, JsPaths.Put;
    var r := JsPaths.Put(NodeAt(v, p).value, k, x);
    if q == p {
      ReplacedNode(v, p, r);
      assert !(p + [k] <= p);
    } else if p <= q {
      AtGraft(v, p, k, x, q);
    } else {
      ReplacedElsewhere(v, p, r, q);
      PrefixDown(p, k, q);
    }
  }

  lemma BelowPut(node: Value, k: Key, x: Value, b: Path)
    requires node.Obj?
    ensures NodeAt(JsPaths.Put(node, k, x), b) ==
            if b == [] then Some(JsPaths.Put(node, k, x)) else if b[0] == k then NodeAt(x, b[1..]) else NodeAt(node, b)
  {
  }

  /** What the other objects hold afterwards is what they held; and the changed one its new property. */
  lemma PutSlots(v: Value, layout: Layout, p: Path, k: Key, x: Value, slot: Slot, sub: Layout, q: Path)
    requires ObjAt(v, p) && Slotted(x, slot, sub) && (forall q :: q in layout <==> ObjAt(v, q)) && ObjAt(v, q) && !(p + [k] <= q)
    ensures var after, w := Grafted(layout, p + [k], sub), Replace(v, p, JsPaths.Put(NodeAt(v, p).value, k, x));
            && ObjAt(w, q)
            && NodeAt(w, q).value.length == (if q == p then JsPaths.Put(NodeAt(v, p).value, k, x).length else NodeAt(v, q).value.length)
            && Slots(NodeAt(w, q).value, after, q) == if q == p then Slots(NodeAt(v, q).value, layout, q)[k := slot] else Slots(NodeAt(v, q).value, layout, q)
  {
    var node := NodeAt(v, p).value;
    var r := JsPaths.Put(node, k, x);
    var w := Replace(v, p, r);
    if q == p {
      ReplacedNode(v, p, r);
      SlotsPut(v, layout, p, k, x, slot, sub);
    } else if p <= q {
      AtGraft(v, p, k, x, q);
      hide Replace, NodeAt, JsPaths.Put;
      SlotsKept(layout, p + [k], sub, NodeAt(v, q).value, NodeAt(v, q).value, q);
    } else {
      ReplacedElsewhere(v, p, r, q);
      SlotsAbove(v, layout, p, k, sub, r, q);
    }
  }

  lemma PrefixStep(p: Path, k: Key, q: Path)
    requires p <= q && p != q
    ensures p + [k] <= q <==> q[|p|] == k
  {
    assert p + [q[|p|]] == q[..|p| + 1];
  }

  lemma PrefixDown(p: Path, k: Key, q: Path)
    ensures p + [k] <= q ==> p <= q && p != q
  {
    assert p + [k] <= q ==> q[..|p|] == (p + [k])[..|p|] == p;
  }

  lemma PrefixPush(gone: Path, q: Path, j: Key)
    ensures gone <= q + [j] <==> gone <= q || gone == q + [j]
  {
    assert gone <= q + [j] ==> gone == (q + [j])[..|gone|];
  }

  lemma LastKey(p: Path, j: Key, q: Path, k: Key)
    ensures p + [j] == q + [k] <==> p == q && j == k
  {
    assert (p + [j])[..|p|] == p && (q + [k])[..|q|] == q;
  }

  /** Entries that stay the same, or stay objects at a place that stays. */
  lemma SlotsKept(layout: Layout, gone: Path, sub: Layout, a: Value, b: Value, q: Path)
    requires a.Obj? && b.Obj? && a.props.Keys == b.props.Keys && !(gone <= q)
    requires forall j :: j in a.props ==> q + [j] != gone && (a.props[j] == b.props[j] || (a.props[j].Obj? && b.props[j].Obj? && q + [j] in layout))
    ensures Slots(b, Grafted(layout, gone, sub), q) == Slots(a, layout, q)
  {
    forall j | j in a.props ensures SlotOf(b.props[j], Grafted(layout, gone, sub), q + [j]) == SlotOf(a.props[j], layout, q + [j]) {
      PrefixPush(gone, q, j);
    }
  }

  lemma SlotsPut(v: Value, layout: Layout, p: Path, k: Key, x: Value, slot: Slot, sub: Layout)
    requires ObjAt(v, p) && Slotted(x, slot, sub)
    ensures Slots(JsPaths.Put(NodeAt(v, p).value, k, x), Grafted(layout, p + [k], sub), p) == Slots(NodeAt(v, p).value, layout, p)[k := slot]
  {
    hide NodeAt, Grafted;
    var node, after := NodeAt(v, p).value, Grafted(layout, p + [k], sub);
    forall j | j in node.props && j != k ensures SlotOf(node.props[j], after, p + [j]) == SlotOf(node.props[j], layout, p + [j]) {
      assert (p + [j])[|p|] != (p + [k])[|p|];
    }
    assert (p + [k])[|p + [k]|..] == [];
  }

  lemma {:induction false} NodePush(v: Value, q: Path, j: Key)
    ensures NodeAt(v, q + [j]) == if ObjAt(v, q) && j in NodeAt(v, q).value.props then Some(NodeAt(v, q).value.props[j]) else None
    decreases |q|
  {
    if q == [] {
      assert [j][1..] == [];
    } else {
      assert (q + [j])[1..] == q[1..] + [j];
      if v.Obj? && q[0] in v.props { NodePush(v.props[q[0]], q[1..], j); }
    }
  }

  lemma {:induction false} ObjOnTheWay(v: Value, p: Path, q: Path)
    requires ObjAt(v, p) && q <= p
    ensures ObjAt(v, q)
    decreases |q|
  {
    if q != [] { ObjOnTheWay(v.props[q[0]], p[1..], q[1..]); }
  }

  lemma SlotsAbove(v: Value, layout: Layout, p: Path, k: Key, sub: Layout, r: Value, q: Path)
    requires ObjAt(v, p) && r.Obj? && (forall q :: q in layout <==> ObjAt(v, q)) && ObjAt(v, q) && !(p <= q) && !(p + [k] <= q)
    ensures ObjAt(Replace(v, p, r), q)
    ensures Slots(NodeAt(Replace(v, p, r), q).value, Grafted(layout, p + [k], sub), q) == Slots(NodeAt(v, q).value, layout, q)
  {
    var w := Replace(v, p, r);
    ReplacedElsewhere(v, p, r, q);
    ReplacedNode(v, p, r);
    hide Replace, NodeAt;
    var a, b := NodeAt(v, q).value, NodeAt(w, q).value;
    forall j | j in a.props
      ensures q + [j] != p + [k] && (a.props[j] == b.props[j] || (a.props[j].Obj? && b.props[j].Obj? && q + [j] in layout))
    {
      LastKey(q, j, p, k);
      if q + [j] <= p {
        ObjOnTheWay(v, p, q + [j]);
        ObjOnTheWay(w, p, q + [j]);
        NodePush(v, q, j);
        NodePush(w, q, j);
      }
    }
    SlotsKept(layout, p + [k], sub, a, b, q);
  }

  // ---------------------------------------------------------------- in place

  /** `ref[key] = x` for the object at a path of a tree: the tree in memory is then the changed tree. The objects of `x`, if
      it has any, become part of it. */
  method PutInPlace(ref: JsObject, key: Key, slot: Slot, ghost x: Value, ghost sub: Layout, ghost v: Value, ghost layout: Layout, ghost p: Path)
    requires Holds(v, layout) && p in layout && layout[p] == ref && Foreign(layout, x, slot, sub) && Holds(x, sub)
    modifies ref
    ensures ObjAt(v, p) && Holds(Replace(v, p, JsPaths.Put(NodeAt(v, p).value, key, x)), Grafted(layout, p + [key], sub))
  {
    hide Replace, NodeAt, Slots, JsPaths.Put, Grafted, Foreign, Placed;
    PlacedMeans(v, layout);
    PutAll(v, layout, p, key, x, slot, sub);
    SlotKeys(NodeAt(v, p).value, layout, p);
    StoredAs(v, p, key, x, ref.length, ref.props.Keys);
    OtherObjects(v, layout, p, x, slot, sub);
    ghost var w, after := Replace(v, p, JsPaths.Put(NodeAt(v, p).value, key, x)), Grafted(layout, p + [key], sub);
    PlacedMeans(w, after);
    ref.Store(key, slot);
    forall q | q in after ensures Same(after[q], NodeAt(w, q).value, after, q) {
      if p + [key] <= q {
        assert Same(sub[q[|p + [key]|..]], NodeAt(x, q[|p + [key]|..]).value, sub, q[|p + [key]|..]);
      } else if q != p {
        assert Same(layout[q], NodeAt(v, q).value, layout, q);
      } else {
        assert ref.props == Slots(NodeAt(v, p).value, layout, p)[key := slot];
      }
    }
  }

  lemma OtherObjects(v: Value, layout: Layout, p: Path, x: Value, slot: Slot, sub: Layout)
    requires Placed(v, layout) && p in layout && Foreign(layout, x, slot, sub)
    ensures forall q :: q in layout && q != p ==> layout[q] != layout[p]
    ensures forall q :: q in sub ==> sub[q] != layout[p]
  {
    assert layout[p] in layout.Values;
    assert forall q :: q in sub ==> sub[q] in sub.Values;
  }

  lemma SlotKeys(node: Value, layout: Layout, p: Path)
    requires node.Obj?
    ensures Slots(node, layout, p).Keys == node.props.Keys
  {
  }

  lemma StoredAs(v: Value, p: Path, k: Key, x: Value, length: Option<nat>, keys: set<Key>)
    requires ObjAt(v, p) && length == NodeAt(v, p).value.length && keys == NodeAt(v, p).value.props.Keys
    ensures JsPaths.Put(NodeAt(v, p).value, k, x).length ==
            if length.Some? && k.Index? && k !in keys then Some(Max(length.value, k.n + 1)) else length
  {
  }

  /** What has to be in memory after an assignment to a property of the object at p. */
  lemma PutAll(v: Value, layout: Layout, p: Path, k: Key, x: Value, slot: Slot, sub: Layout)
    requires ObjAt(v, p) && Foreign(layout, x, slot, sub) && Placed(v, layout)
    ensures var after, w := Grafted(layout, p + [k], sub), Replace(v, p, JsPaths.Put(NodeAt(v, p).value, k, x));
            && Placed(w, after) && p in after && after[p] == layout[p]
            && (forall q :: q in after && !(p + [k] <= q) ==> q in layout && after[q] == layout[q])
            && (forall q :: q in after && q != p && !(p + [k] <= q) ==>
                  NodeAt(w, q).value.length == NodeAt(v, q).value.length && Slots(NodeAt(w, q).value, after, q) == Slots(NodeAt(v, q).value, layout, q))
            && NodeAt(w, p).value.length == JsPaths.Put(NodeAt(v, p).value, k, x).length
            && Slots(NodeAt(w, p).value, after, p) == Slots(NodeAt(v, p).value, layout, p)[k := slot]
            && (forall q :: q in after && p + [k] <= q ==>
                  var r := q[|p + [k]|..];
                  r in sub && after[q] == sub[r] && NodeAt(w, q) == NodeAt(x, r) && Slots(NodeAt(x, r).value, after, q) == Slots(NodeAt(x, r).value, sub, r))
  {
    hide Replace, NodeAt, JsPaths.Put, Slots, Foreign, Placed;
    var after, w := Grafted(layout, p + [k], sub), Replace(v, p, JsPaths.Put(NodeAt(v, p).value, k, x));
    PlacedMeans(v, layout);
    ForeignMeans(layout, x, slot, sub);
    forall q ensures q in after <==> ObjAt(w, q) { PutPlaces(v, layout, p, k, x, sub, q); }
    GraftedOnce(layout, p + [k], sub);
    PlacedIs(w, after);
    assert !(p + [k] <= p);
    PutSlots(v, layout, p, k, x, slot, sub, p);
    forall q | q in after && q != p && !(p + [k] <= q)
      ensures NodeAt(w, q).value.length == NodeAt(v, q).value.length && Slots(NodeAt(w, q).value, after, q) == Slots(NodeAt(v, q).value, layout, q)
    {
      PutSlots(v, layout, p, k, x, slot, sub, q);
    }
    forall q | q in after && p + [k] <= q
      ensures var r := q[|p + [k]|..];
              r in sub && after[q] == sub[r] && NodeAt(w, q) == NodeAt(x, r) && Slots(NodeAt(x, r).value, after, q) == Slots(NodeAt(x, r).value, sub, r)
    {
      NewObject(v, layout, p, k, x, sub, q);
    }
  }

  lemma PlacedMeans(v: Value, layout: Layout)
    requires Placed(v, layout)
    ensures forall q :: q in layout <==> ObjAt(v, q)
    ensures forall p, q :: p in layout && q in layout && layout[p] == layout[q] ==> p == q
  {
  }

  lemma PlacedIs(v: Value, layout: Layout)
    requires forall q :: q in layout <==> ObjAt(v, q)
    requires forall p, q :: p in layout && q in layout && layout[p] == layout[q] ==> p == q
    ensures Placed(v, layout)
  {
  }

  lemma ForeignMeans(layout: Layout, x: Value, slot: Slot, sub: Layout)
    requires Foreign(layout, x, slot, sub)
    ensures Slotted(x, slot, sub) && forall q :: q in sub <==> ObjAt(x, q)
    ensures forall p, q :: p in sub && q in sub && sub[p] == sub[q] ==> p == q
    ensures forall p, q :: p in sub && q in layout ==> sub[p] != layout[q]
  {
    hide ObjAt;
    forall p, q | p in sub && q in layout ensures sub[p] != layout[q] {
      assert sub[p] in sub.Values && layout[q] in layout.Values;
    }
  }

  lemma GraftedOnce(layout: Layout, at: Path, sub: Layout)
    requires forall p, q :: p in layout && q in layout && layout[p] == layout[q] ==> p == q
    requires forall p, q :: p in sub && q in sub && sub[p] == sub[q] ==> p == q
    requires forall p, q :: p in sub && q in layout ==> sub[p] != layout[q]
    ensures var after := Grafted(layout, at, sub); forall p, q :: p in after && q in after && after[p] == after[q] ==> p == q
  {
    var after := Grafted(layout, at, sub);
    hide Grafted;
    forall p, q | p in after && q in after && after[p] == after[q] ensures p == q {
      if at <= p && at <= q { assert p == at + p[|at|..] && q == at + q[|at|..]; }
    }
  }

  lemma NewObject(v: Value, layout: Layout, p: Path, k: Key, x: Value, sub: Layout, q: Path)
    requires ObjAt(v, p) && p + [k] <= q && q in Grafted(layout, p + [k], sub) && forall r :: r in sub <==> ObjAt(x, r)
    ensures var after, r := Grafted(layout, p + [k], sub), q[|p + [k]|..];
            && r in sub && ObjAt(x, r) && after[q] == sub[r]
            && NodeAt(Replace(v, p, JsPaths.Put(NodeAt(v, p).value, k, x)), q) == NodeAt(x, r)
            && Slots(NodeAt(x, r).value, after, q) == Slots(NodeAt(x, r).value, sub, r)
  {
    hide Replace, NodeAt, Grafted, JsPaths.Put;
    var at := p + [k];
    assert p == at[..|p|] == q[..|p|];
    AtGraft(v, p, k, x, q);
    var after, r := Grafted(layout, at, sub), q[|at|..];
    var y := NodeAt(x, r).value;
    forall j | j in y.props ensures SlotOf(y.props[j], after, q + [j]) == SlotOf(y.props[j], sub, r + [j]) {
      assert at <= q + [j] && (q + [j])[|at|..] == r + [j];
    }
  }

  // ---------------------------------------------------------------- the loop of setAt

  /** Following a path for some keys, and taking the step from there. */
  lemma {:induction false} StepFrom(v: Value, path: Path, e: Effect, k: nat)
    requires v.Obj? && k < |path| && EMPTY_KEY !in path[..k] && ObjAt(v, path[..k])
    ensures Step(v, path, e) == match Step(NodeAt(v, path[..k]).value, path[k..], e)
                                case None => None
                                case Some(r) => Some(Replace(v, path[..k], r))
    decreases k
  {
    if k == 0 {
      assert path[..0] == [] && path[0..] == path;
    } else {
      assert path[..k][0] == path[0] && path[..k][1..] == path[1..][..k - 1] && path[1..][k - 1..] == path[k..];
      NodeFirst(v, path[..k]);
      assert v.props[path[0]].Obj?;
      StepFrom(v.props[path[0]], path[1..], e, k - 1);
    }
  }

  /** Making an empty object where one is missing changes nothing about where the step leads. */
  lemma StepMade(v: Value, path: Path, x: Value, k: nat)
    requires v.Obj? && k + 1 < |path| && EMPTY_KEY !in path[..k + 1] && ObjAt(v, path[..k]) && Nullish(Prop(NodeAt(v, path[..k]).value, path[k]))
    ensures var node := NodeAt(v, path[..k]).value;
            var w := Replace(v, path[..k], JsPaths.Put(node, path[k], EMPTY));
            && w.Obj? && Step(w, path, Assign(x)) == Step(v, path, Assign(x))
            && NodeAt(w, path[..k + 1]) == Some(EMPTY)
  {
    var p := path[..k];
    var node := NodeAt(v, p).value;
    var r := JsPaths.Put(node, path[k], EMPTY);
    var w := Replace(v, p, r);
    ReplacedNode(v, p, r);
    assert p + [path[k]] == path[..k + 1];
    NodePush(w, p, path[k]);
    EmptyBefore(path, k);
    StepFrom(v, path, Assign(x), k);
    StepFrom(w, path, Assign(x), k);
    StepPastMade(node, path[k..], x);
    var s := Step(node, path[k..], Assign(x));
    if s.Some? { ReplacedTwice(v, p, r, s.value); }
  }

  lemma EmptyBefore(path: Path, k: nat)
    requires k < |path| && EMPTY_KEY !in path[..k + 1]
    ensures EMPTY_KEY !in path[..k] && path[k] != EMPTY_KEY
  {
    assert path[..k + 1] == path[..k] + [path[k]];
  }

  lemma StepPastMade(node: Value, path: Path, x: Value)
    requires node.Obj? && |path| > 1 && path[0] != EMPTY_KEY && Nullish(Prop(node, path[0]))
    ensures Step(JsPaths.Put(node, path[0], EMPTY), path, Assign(x)) == Step(node, path, Assign(x))
  {
    hide JsPaths.Put;
    var s := Step(EMPTY, path[1..], Assign(x));
    PutTwice(node, path[0], EMPTY, s);
  }

  lemma BlockedHere(w: Value, path: Path, x: Value, k: nat)
    requires w.Obj? && k + 1 < |path| && EMPTY_KEY !in path[..k] && path[k] != EMPTY_KEY && ObjAt(w, path[..k])
    requires !Nullish(Prop(NodeAt(w, path[..k]).value, path[k])) && !Prop(NodeAt(w, path[..k]).value, path[k]).Obj?
    ensures Step(w, path, Assign(x)).None?
  {
    StepFrom(w, path, Assign(x), k);
  }

  lemma StepEnds(w: Value, path: Path, x: Value, k: nat)
    requires w.Obj? && k < |path| && EMPTY_KEY !in path[..k] && (k == |path| - 1 || path[k] == EMPTY_KEY) && ObjAt(w, path[..k])
    ensures Step(w, path, Assign(x)) == Some(Replace(w, path[..k], JsPaths.Put(NodeAt(w, path[..k]).value, path[|path| - 1], x)))
  {
    hide Replace, NodeAt, JsPaths.Put;
    StepFrom(w, path, Assign(x), k);
    LastStep(NodeAt(w, path[..k]).value, path[k..], x);
  }

  lemma LastStep(node: Value, rest: Path, x: Value)
    requires node.Obj? && rest != [] && (|rest| == 1 || rest[0] == EMPTY_KEY)
    ensures Step(node, rest, Assign(x)) == Some(JsPaths.Put(node, rest[|rest| - 1], x))
  {
  }

  lemma Rooted(v: Value, layout: Layout)
    requires Placed(v, layout) && [] in layout
    ensures v.Obj?
  {
    assert ObjAt(v, []);
  }

  /** A new object without properties. */
  lemma EmptyObject(layout: Layout, o: JsObject)
    requires o !in layout.Values && o.length == None && o.props == map[]
    ensures Foreign(layout, EMPTY, Child(o), map[[] := o]) && Holds(EMPTY, map[[] := o])
  {
    forall p ensures ObjAt(EMPTY, p) <==> p == [] {}
    assert Slots(EMPTY, map[[] := o], []) == map[];
  }

  lemma PlainValue(layout: Layout, x: Value)
    requires !x.Obj?
    ensures Foreign(layout, x, Leaf(x), map[]) && Holds(x, map[])
  {
    forall p ensures !ObjAt(x, p) {}
  }

  lemma GraftedMeans(layout: Layout, q: Path, sub: Layout)
    requires [] in layout && q != []
    ensures [] in Grafted(layout, q, sub) && Grafted(layout, q, sub)[[]] == layout[[]]
    ensures [] in sub ==> q in Grafted(layout, q, sub) && Grafted(layout, q, sub)[q] == sub[[]]
    ensures forall o :: o in Grafted(layout, q, sub).Values ==> o in layout.Values || o in sub.Values
  {
    assert q[|q|..] == [];
  }

  lemma NotForeign(layout: Layout, p: Path, x: Value, slot: Slot, sub: Layout)
    requires Foreign(layout, x, slot, sub) && p in layout
    ensures layout[p] !in sub.Values
  {
    assert layout[p] in layout.Values;
  }

  lemma StillForeign(layout: Layout, after: Layout, x: Value, slot: Slot, sub: Layout)
    requires Foreign(layout, x, slot, sub) && forall o :: o in after.Values && o in sub.Values ==> o in layout.Values
    ensures Foreign(after, x, slot, sub)
  {
  }

  /** What is found under a key of an object in memory. */
  lemma NodeSlot(w: Value, layout: Layout, p: Path, key: Key)
    requires Holds(w, layout) && p in layout
    ensures ObjAt(w, p)
    ensures var node, o := NodeAt(w, p).value, layout[p];
            && (key !in o.props ==> Prop(node, key) == Undefined)
            && (key in o.props ==> key in node.props)
            && (key in o.props && o.props[key].Leaf? ==> Prop(node, key) == o.props[key].v && !Prop(node, key).Obj?)
            && (key in o.props && o.props[key].Child? ==> p + [key] in layout && layout[p + [key]] == o.props[key].o)
  {
    hide NodeAt;
    NodePush(w, p, key);
    assert Same(layout[p], NodeAt(w, p).value, layout, p);
  }

  /** `ref[key] = {}` */
  method MakeUnder(ref: JsObject, key: Key, ghost v: Value, ghost layout: Layout, ghost p: Path) returns (made: JsObject, ghost after: Layout)
    requires Holds(v, layout) && [] in layout && p in layout && layout[p] == ref
    modifies ref
    ensures fresh(made) && ObjAt(v, p) && Holds(Replace(v, p, JsPaths.Put(NodeAt(v, p).value, key, EMPTY)), after)
    ensures [] in after && after[[]] == layout[[]] && p + [key] in after && after[p + [key]] == made
    ensures forall o :: o in after.Values ==> o in layout.Values || o == made
  {
    hide Replace, NodeAt, JsPaths.Put, Foreign, Grafted, Holds;
    made := new JsObject();
    EmptyObject(layout, made);
    ghost var empty: Layout := map[[] := made];
    GraftedMeans(layout, p + [key], empty);
    PutInPlace(ref, key, Child(made), EMPTY, empty, v, layout, p);
    after := Grafted(layout, p + [key], empty);
  }

  /** `setAt`: walks along the path through the objects in memory, making those that are missing, and
      assigns at its end. The tree in memory becomes the one that `setAt` is specified to give; the objects of
      the value that is set become part of it. */
  method SetAtInPlace(root: JsObject, path: Path, slot: Slot, ghost x: Value, ghost sub: Layout, ghost v: Value, ghost layout: Layout)
    returns (ok: bool, ghost w: Value, ghost after: Layout)
    requires Holds(v, layout) && [] in layout && layout[[]] == root && path != []
    requires Foreign(layout, x, slot, sub) && Holds(x, sub)
    modifies layout.Values
    ensures Holds(w, after) && [] in after && after[[]] == root
    ensures ok <==> SetAt(v, path, x).Some?
    ensures w == if ok then SetAt(v, path, x).value else v
    ensures forall o :: o in after.Values ==> o in layout.Values || o in sub.Values || fresh(o)
  {
    hide Replace, NodeAt, Slots, JsPaths.Put, Step, Foreign, Grafted, Placed, Same;
    w, after := v, layout;
    Rooted(v, layout);
    var ref, k := root, 0;
    assert path[..0] == [];
    while k < |path| - 1 && path[k] != EMPTY_KEY
      invariant k < |path| && EMPTY_KEY !in path[..k] && Holds(w, after) && w.Obj?
      invariant path[..k] in after && after[path[..k]] == ref && [] in after && after[[]] == root
      invariant Step(w, path, Assign(x)) == Step(v, path, Assign(x))
      invariant w == v || NodeAt(w, path[..k]) == Some(EMPTY)
      invariant forall o :: o in after.Values ==> o in layout.Values || fresh(o)
      invariant Foreign(after, x, slot, sub) && Holds(x, sub)
    {
      var key := path[k];
      assert path[..k + 1] == path[..k] + [key];
      NodeSlot(w, after, path[..k], key);
      if key in ref.props && ref.props[key].Leaf? && !Nullish(ref.props[key].v) {
        BlockedHere(w, path, x, k);
        return false, w, after;
      }
      if key in ref.props && ref.props[key].Child? {
        ref := ref.props[key].o;
      } else {
        ghost var before := after;
        StepMade(w, path, x, k);
        NotForeign(after, path[..k], x, slot, sub);
        ref, after := MakeUnder(ref, key, w, after, path[..k]);
        StillForeign(before, after, x, slot, sub);
        w := Replace(w, path[..k], JsPaths.Put(NodeAt(w, path[..k]).value, key, EMPTY));
      }
      k := k + 1;
    }
    GraftedMeans(after, path[..k] + [path[|path| - 1]], sub);
    PutInPlace(ref, path[|path| - 1], slot, x, sub, w, after, path[..k]);
    StepEnds(w, path, x, k);
    w, after := Replace(w, path[..k], JsPaths.Put(NodeAt(w, path[..k]).value, path[|path| - 1], x)), Grafted(after, path[..k] + [path[|path| - 1]], sub);
    ok := true;
  }
}
