/** The walk that scrubbing takes through objects in memory: it works on copies, and what is changed afterwards is
    changed in the copies. */
module ScrubWalks {
  import opened JsArray
  import opened JsPaths
  import opened Scrubbing
  import opened JsObjects

  /** What the callback of a walk is given: the path, the copy of the node, and where that is held. */
  datatype Place = Root | Inside(parent: JsObject, key: Key)
  datatype NodeCursor = NodeCursor(path: Path, node: Slot, place: Place)

  // ---------------------------------------------------------------- layouts of subtrees

  /** The part of a layout under a key. */
  ghost function Under(layout: Layout, k: Key): Layout {
    map p | p in (set q | q in layout && q != [] && q[0] == k :: q[1..]) && [k] + p in layout :: layout[[k] + p]
  }

  /** A layout put under a key. */
  ghost function Prefixed(k: Key, layout: Layout): Layout {
    map p | p in (set q | q in layout :: [k] + q) && p[1..] in layout :: layout[p[1..]]
  }

  lemma UnderMeans(layout: Layout, k: Key)
    ensures forall p :: p in Under(layout, k) <==> [k] + p in layout
    ensures forall p :: p in Under(layout, k) ==> Under(layout, k)[p] == layout[[k] + p]
    ensures Under(layout, k).Values <= layout.Values
  {
    forall p ensures p in Under(layout, k) <==> [k] + p in layout {
      assert ([k] + p)[1..] == p;
    }
  }

  lemma PrefixedMeans(k: Key, layout: Layout)
    ensures forall p :: p in Prefixed(k, layout) <==> p != [] && p[0] == k && p[1..] in layout
    ensures forall p :: p in layout ==> [k] + p in Prefixed(k, layout) && Prefixed(k, layout)[[k] + p] == layout[p]
    ensures Prefixed(k, layout).Values == layout.Values
  {
    forall p ensures p in Prefixed(k, layout) <==> p != [] && p[0] == k && p[1..] in layout {
      if p != [] && p[0] == k { assert [k] + p[1..] == p; }
    }
    forall p | p in layout ensures [k] + p in Prefixed(k, layout) && Prefixed(k, layout)[[k] + p] == layout[p] {
      assert ([k] + p)[1..] == p;
    }
  }

  /** A value as it stands in memory. */
  ghost predicate Stands(slot: Slot, t: Value, layout: Layout)
    reads layout.Values
  {
    if t.Obj? then [] in layout && slot == Child(layout[[]]) && Shows(t, layout) else slot == Leaf(t) && layout == map[]
  }

  /** So do the values under its keys. */
  lemma ChildStands(t: Value, layout: Layout, k: Key)
    requires t.Obj? && [] in layout && Shows(t, layout) && k in t.props
    ensures k in layout[[]].props && Stands(layout[[]].props[k], t.props[k], Under(layout, k))
  {
    UnderMeans(layout, k);
    var o, x, sub := layout[[]], t.props[k], Under(layout, k);
    assert NodeAt(t, []) == Some(t) && Same(o, t, layout, []);
    assert [] + [k] == [k];
    assert o.props[k] == SlotOf(x, layout, [k]);
    forall p ensures NodeAt(t, [k] + p) == NodeAt(x, p) { assert ([k] + p)[1..] == p; }
    hide NodeAt, Slots;
    assert [k] + [] == [k];
    assert Covers(x, sub);
    if x.Obj? {
      assert ObjAt(x, []) by { NodeHere(x); }
      forall p | p in sub ensures Same(sub[p], NodeAt(x, p).value, sub, p) {
        assert Same(layout[[k] + p], NodeAt(t, [k] + p).value, layout, [k] + p);
        SameSlots(NodeAt(x, p).value, layout, [k] + p, sub, p, k);
      }
    } else {
      LeafCovers(x, sub);
    }
  }

  lemma NodeHere(x: Value)
    ensures NodeAt(x, []) == Some(x)
  {
  }

  lemma LeafCovers(x: Value, layout: Layout)
    requires !x.Obj? && Covers(x, layout)
    ensures layout == map[]
  {
    forall p ensures p !in layout {}
  }

  lemma SameSlots(node: Value, layout: Layout, q: Path, sub: Layout, p: Path, k: Key)
    requires node.Obj? && q == [k] + p
    requires forall r :: r in sub <==> [k] + r in layout
    requires forall r :: r in sub ==> sub[r] == layout[[k] + r]
    ensures Slots(node, sub, p) == Slots(node, layout, q)
  {
    forall j | j in node.props ensures SlotOf(node.props[j], sub, p + [j]) == SlotOf(node.props[j], layout, q + [j]) {
      assert [k] + (p + [j]) == q + [j];
    }
  }

  // ---------------------------------------------------------------- copies under way

  ghost predicate Injective(layout: Layout) {
    forall p, q :: p in layout && q in layout && layout[p] == layout[q] ==> p == q
  }

  /** An object is copied as far as some of its keys: the others still hold what the original holds. */
  ghost predicate Partly(t: Value, copies: Layout, done: set<Key>)
    reads copies.Values
  {
    && t.Obj? && done <= t.props.Keys && [] in copies && Injective(copies)
    && (forall p :: p in copies <==> p == [] || (p[0] in done && ObjAt(t, p)))
    && (forall p :: p in copies && p != [] ==> NodeSame(copies[p], t, p, copies, p))
    && copies[[]].length == t.length && copies[[]].props.Keys == t.props.Keys
    && (forall j :: j in done ==> copies[[]].props[j] == SlotOf(t.props[j], copies, [j]))
  }

  /** A layout to which another one has been joined under a key. */
  ghost predicate Joined(copies: Layout, k: Key, sub: Layout, after: Layout) {
    && (forall p :: p in copies ==> p in after && after[p] == copies[p])
    && (forall p :: p in sub <==> [k] + p in after)
    && (forall p :: p in sub ==> after[[k] + p] == sub[p])
    && (forall p :: p in after && (p == [] || p[0] != k) ==> p in copies)
  }

  /** Where the objects are when those under one more key are copied. */
  lemma {:induction false} JoinPlaces(t: Value, copies: Layout, done: set<Key>, k: Key, sub: Layout)
    requires t.Obj? && k in t.props && k !in done && [] in copies && Injective(copies) && Injective(sub) && copies.Values !! sub.Values
    requires forall p :: p in copies <==> p == [] || (p[0] in done && ObjAt(t, p))
    requires forall p :: p in sub <==> ObjAt(t.props[k], p)
    ensures var after := copies + Prefixed(k, sub);
            && [] in after && after[[]] == copies[[]] && Injective(after)
            && (forall p :: p in after <==> p == [] || (p[0] in done + {k} && ObjAt(t, p)))
            && Joined(copies, k, sub, after) && after.Values == copies.Values + sub.Values
  {
    PrefixedMeans(k, sub);
    var after, pre := copies + Prefixed(k, sub), Prefixed(k, sub);
    JoinDomain(t, copies, done, k, sub, pre);
    JoinInjective(copies, k, sub, pre);
    hide Prefixed, NodeAt;
    forall p ensures p in sub <==> [k] + p in after { assert ([k] + p)[1..] == p; }
    forall p | p in sub ensures after[[k] + p] == sub[p] {}
    ValuesJoin(copies, pre);
  }

  lemma JoinDomain(t: Value, copies: Layout, done: set<Key>, k: Key, sub: Layout, pre: Layout)
    requires t.Obj? && k in t.props && k !in done
    requires forall p :: p in copies <==> p == [] || (p[0] in done && ObjAt(t, p))
    requires forall p :: p in sub <==> ObjAt(t.props[k], p)
    requires forall p :: p in pre <==> p != [] && p[0] == k && p[1..] in sub
    ensures copies.Keys !! pre.Keys
    ensures forall p :: p in copies + pre <==> p == [] || (p[0] in done + {k} && ObjAt(t, p))
  {
    forall p | p != [] && p[0] == k ensures NodeAt(t, p) == NodeAt(t.props[k], p[1..]) { BelowKey(t, k, p); }
    hide NodeAt;
  }

  lemma JoinInjective(copies: Layout, k: Key, sub: Layout, pre: Layout)
    requires Injective(copies) && Injective(sub) && copies.Values !! sub.Values && copies.Keys !! pre.Keys
    requires forall p :: p in pre <==> p != [] && p[0] == k && p[1..] in sub
    requires forall p :: p in sub ==> [k] + p in pre && pre[[k] + p] == sub[p]
    requires pre.Values == sub.Values
    ensures Injective(copies + pre)
  {
    var after := copies + pre;
    forall p | p in pre ensures [k] + p[1..] == p && pre[p] == sub[p[1..]] && pre[p] in sub.Values { assert [k] + p[1..] == p; }
    assert forall p :: p in copies ==> copies[p] in copies.Values;
    forall p, q | p in after && q in after && after[p] == after[q] ensures p == q {
      if p in pre && q in pre { assert p == [k] + p[1..] && q == [k] + q[1..]; }
    }
  }

  lemma ValuesJoin(a: Layout, b: Layout)
    requires a.Keys !! b.Keys
    ensures (a + b).Values == a.Values + b.Values
  {
    forall o | o in a.Values ensures o in (a + b).Values {
      var p :| p in a && a[p] == o;
      assert (a + b)[p] == o;
    }
    forall o | o in b.Values ensures o in (a + b).Values {
      var p :| p in b && b[p] == o;
      assert (a + b)[p] == o;
    }
  }

  lemma SlotsElsewhere(node: Value, copies: Layout, k: Key, sub: Layout, after: Layout, p: Path)
    requires node.Obj? && p != [] && p[0] != k && Joined(copies, k, sub, after)
    ensures Slots(node, after, p) == Slots(node, copies, p)
  {
    forall j | j in node.props ensures SlotOf(node.props[j], after, p + [j]) == SlotOf(node.props[j], copies, p + [j]) {
      assert (p + [j])[0] == p[0];
    }
  }

  lemma SlotsBelow(node: Value, copies: Layout, k: Key, sub: Layout, after: Layout, p: Path)
    requires node.Obj? && p != [] && p[0] == k && Joined(copies, k, sub, after)
    ensures Slots(node, after, p) == Slots(node, sub, p[1..])
  {
    SameSlots(node, after, p, sub, p[1..], k);
  }

  lemma JoinedAt(copies: Layout, k: Key, sub: Layout, after: Layout, p: Path)
    requires Joined(copies, k, sub, after) && p in after && p != []
    ensures if p[0] == k then p[1..] in sub && after[p] == sub[p[1..]] else p in copies && after[p] == copies[p]
  {
    if p[0] == k { assert [k] + p[1..] == p; }
  }

  /** The object is the node at a path of the tree, its children where a layout has them under another path. */
  ghost predicate NodeSame(o: JsObject, t: Value, p: Path, layout: Layout, q: Path)
    reads o
  {
    ObjAt(t, p) && Same(o, NodeAt(t, p).value, layout, q)
  }

  lemma OneJoined(t: Value, copies: Layout, k: Key, sub: Layout, after: Layout, p: Path)
    requires t.Obj? && k in t.props && Joined(copies, k, sub, after) && p in after && p != []
    requires p in copies ==> NodeSame(copies[p], t, p, copies, p)
    requires p[1..] in sub ==> NodeSame(sub[p[1..]], t.props[k], p[1..], sub, p[1..])
    ensures NodeSame(after[p], t, p, after, p)
  {
    hide NodeAt, Slots, Joined;
    JoinedAt(copies, k, sub, after, p);
    if p[0] == k {
      BelowKey(t, k, p);
      SlotsBelow(NodeAt(t, p).value, copies, k, sub, after, p);
    } else {
      SlotsElsewhere(NodeAt(t, p).value, copies, k, sub, after, p);
    }
  }

  /** One more key is copied. */
  lemma {:induction false} OneKeyMore(t: Value, copies: Layout, done: set<Key>, k: Key, child: Slot, sub: Layout)
    requires t.Obj? && k in t.props && k !in done && Partly(t, copies, done) && copies[[]].props[k] == child
    requires Stands(child, t.props[k], sub) && Injective(sub) && copies.Values !! sub.Values
    ensures Partly(t, copies + Prefixed(k, sub), done + {k})
    ensures (copies + Prefixed(k, sub)).Values == copies.Values + sub.Values
    ensures forall p :: p in Prefixed(k, sub) ==> p !in copies
  {
    hide *;
    var after := copies + Prefixed(k, sub);
    ChildPlaces(child, t.props[k], sub);
    PlacesJoin(t, copies, done, k, child, sub, after);
    NodesJoin(t, copies, done, k, child, sub, after);
    RootJoins(t, copies, done, k, child, sub, after);
    PartlyIs(t, after, done + {k});
  }

  /** The objects of a copy under way. */
  ghost predicate Positions(t: Value, copies: Layout, done: set<Key>) {
    [] in copies && Injective(copies) && forall p :: p in copies <==> p == [] || (p[0] in done && ObjAt(t, p))
  }

  lemma PlacesJoin(t: Value, copies: Layout, done: set<Key>, k: Key, child: Slot, sub: Layout, after: Layout)
    requires Partly(t, copies, done) && k in t.props && k !in done && after == copies + Prefixed(k, sub)
    requires Stands(child, t.props[k], sub) && Injective(sub) && copies.Values !! sub.Values
    ensures Positions(t, after, done + {k}) && Joined(copies, k, sub, after) && after.Values == copies.Values + sub.Values
    ensures [] in copies && after[[]] == copies[[]]
    ensures forall p :: p in Prefixed(k, sub) ==> p !in copies
  {
    ChildPlaces(child, t.props[k], sub);
    hide NodeAt, Slots, Joined, Stands, Injective, Same, Prefixed;
    JoinPlaces(t, copies, done, k, sub);
    NewPlaces(copies, done, k, sub);
  }

  lemma NodesJoin(t: Value, copies: Layout, done: set<Key>, k: Key, child: Slot, sub: Layout, after: Layout)
    requires Partly(t, copies, done) && k in t.props && Joined(copies, k, sub, after) && Positions(t, after, done + {k})
    requires Stands(child, t.props[k], sub)
    ensures forall p :: p in after && p != [] ==> NodeSame(after[p], t, p, after, p)
  {
    ChildPlaces(child, t.props[k], sub);
    hide NodeAt, Slots, Joined, Stands, Injective, Same, NodeSame, ObjAt;
    forall p | p in after && p != [] ensures NodeSame(after[p], t, p, after, p) {
      OneJoined(t, copies, k, sub, after, p);
    }
  }

  lemma RootJoins(t: Value, copies: Layout, done: set<Key>, k: Key, child: Slot, sub: Layout, after: Layout)
    requires Partly(t, copies, done) && k in t.props && k !in done && copies[[]].props[k] == child && Joined(copies, k, sub, after)
    requires if t.props[k].Obj? then [] in sub && child == Child(sub[[]]) else child == Leaf(t.props[k])
    ensures t.Obj? && done + {k} <= t.props.Keys && [] in after
    ensures after[[]].length == t.length && after[[]].props.Keys == t.props.Keys
    ensures forall j :: j in done + {k} ==> after[[]].props[j] == SlotOf(t.props[j], after, [j])
  {
    hide NodeAt, Slots, Joined, Injective, Same, NodeSame, ObjAt;
    JoinedRoot(copies, k, sub, after);
    RootSlots(t, copies, done, k, child, sub, after);
  }

  lemma PartlyIs(t: Value, copies: Layout, done: set<Key>)
    requires Positions(t, copies, done) && (forall p :: p in copies && p != [] ==> NodeSame(copies[p], t, p, copies, p))
    requires t.Obj? && done <= t.props.Keys && copies[[]].length == t.length && copies[[]].props.Keys == t.props.Keys
    requires forall j :: j in done ==> copies[[]].props[j] == SlotOf(t.props[j], copies, [j])
    ensures Partly(t, copies, done)
  {
    hide NodeAt, Slots, Injective, Same, NodeSame, ObjAt;
  }

  lemma JoinedRoot(copies: Layout, k: Key, sub: Layout, after: Layout)
    requires Joined(copies, k, sub, after) && [] in copies
    ensures [] in after && after[[]] == copies[[]]
  {
  }

  lemma ChildPlaces(child: Slot, x: Value, sub: Layout)
    requires Stands(child, x, sub)
    ensures forall p :: p in sub <==> ObjAt(x, p)
    ensures forall p :: p in sub ==> NodeSame(sub[p], x, p, sub, p)
    ensures if x.Obj? then [] in sub && child == Child(sub[[]]) else child == Leaf(x)
  {
    if !x.Obj? { NoObjects(x); }
  }

  lemma NewPlaces(copies: Layout, done: set<Key>, k: Key, sub: Layout)
    requires k !in done && forall p :: p in copies ==> p == [] || p[0] in done
    ensures forall p :: p in Prefixed(k, sub) ==> p !in copies
  {
    PrefixedMeans(k, sub);
  }

  lemma BelowKey(t: Value, k: Key, p: Path)
    requires t.Obj? && k in t.props && p != [] && p[0] == k
    ensures [k] + p[1..] == p && NodeAt(t, p) == NodeAt(t.props[k], p[1..])
  {
  }

  lemma RootSlots(t: Value, copies: Layout, done: set<Key>, k: Key, child: Slot, sub: Layout, after: Layout)
    requires t.Obj? && done <= t.props.Keys && k in t.props && k !in done
    requires if t.props[k].Obj? then [] in sub && child == Child(sub[[]]) else child == Leaf(t.props[k])
    requires Joined(copies, k, sub, after)
    ensures forall j :: j in done ==> SlotOf(t.props[j], after, [j]) == SlotOf(t.props[j], copies, [j])
    ensures child == SlotOf(t.props[k], after, [k])
  {
    assert [k] + [] == [k];
    forall j | j in done ensures SlotOf(t.props[j], after, [j]) == SlotOf(t.props[j], copies, [j]) {
      assert [j][0] == j;
    }
  }

  lemma NoObjects(x: Value)
    requires !x.Obj?
    ensures forall p :: !ObjAt(x, p)
  {
  }

  /** All keys are copied. */
  lemma AllCopied(t: Value, copies: Layout)
    requires t.Obj? && Partly(t, copies, t.props.Keys)
    ensures Holds(t, copies)
  {
    assert NodeAt(t, []) == Some(t);
    forall p | p != [] && ObjAt(t, p) ensures p[0] in t.props {}
    forall p | p in copies ensures Same(copies[p], NodeAt(t, p).value, copies, p) {
      if p == [] {
        forall j | j in t.props ensures copies[[]].props[j] == SlotOf(t.props[j], copies, [] + [j]) {
          assert [] + [j] == [j];
        }
      }
    }
  }

  // ---------------------------------------------------------------- the walk

  /** The cursors of a walk in memory are those of the walk of the tree: each says where its copy is held. */
  ghost predicate Walked(queue: seq<NodeCursor>, cs: seq<Cursor>, at: Path, place: Place, copies: Layout) {
    && |queue| == |cs|
    && forall i :: 0 <= i < |cs| ==>
         && queue[i].path == cs[i].path && at <= cs[i].path
         && (if cs[i].node.Obj? then queue[i].node.Child? else queue[i].node == Leaf(cs[i].node))
         && PlacedAt(queue[i].place, cs[i].path[|at|..], place, copies)
  }

  ghost predicate PlacedAt(here: Place, p: Path, place: Place, copies: Layout) {
    if p == [] then here == place
    else p[..|p| - 1] in copies && here == Inside(copies[p[..|p| - 1]], p[|p| - 1])
  }

  /** The cursors below a key, seen from above it. */
  lemma {:induction false} WalkedBelow(queue: seq<NodeCursor>, cs: seq<Cursor>, more: seq<NodeCursor>, ds: seq<Cursor>,
                                       at: Path, place: Place, k: Key, copies: Layout, sub: Layout)
    requires [] in copies && Walked(queue, cs, at, place, copies)
    requires Walked(more, ds, at + [k], Inside(copies[[]], k), sub)
    requires forall p :: p in Prefixed(k, sub) ==> p !in copies
    ensures Walked(queue + more, cs + ds, at, place, copies + Prefixed(k, sub))
  {
    hide Prefixed, PlacedAt;
    var after := copies + Prefixed(k, sub);
    forall i | 0 <= i < |ds|
      ensures at <= ds[i].path && PlacedAt(more[i].place, ds[i].path[|at|..], place, after)
    {
      PlacedBelow(more[i].place, ds[i].path, at, place, k, copies, sub);
    }
    forall i | 0 <= i < |cs| ensures PlacedAt(queue[i].place, cs[i].path[|at|..], place, after) {
      StillPlaced(queue[i].place, cs[i].path[|at|..], place, k, copies, sub);
    }
    assert forall i :: 0 <= i < |cs| ==> (queue + more)[i] == queue[i] && (cs + ds)[i] == cs[i];
    assert forall i :: |cs| <= i < |cs| + |ds| ==> (queue + more)[i] == more[i - |cs|] && (cs + ds)[i] == ds[i - |cs|];
  }

  lemma StillPlaced(here: Place, p: Path, place: Place, k: Key, copies: Layout, sub: Layout)
    requires PlacedAt(here, p, place, copies) && forall q :: q in Prefixed(k, sub) ==> q !in copies
    ensures PlacedAt(here, p, place, copies + Prefixed(k, sub))
  {
    hide Prefixed;
  }

  lemma PlacedBelow(here: Place, path: Path, at: Path, place: Place, k: Key, copies: Layout, sub: Layout)
    requires [] in copies && at + [k] <= path && PlacedAt(here, path[|at + [k]|..], Inside(copies[[]], k), sub)
    requires forall q :: q in Prefixed(k, sub) ==> q !in copies
    ensures at <= path && PlacedAt(here, path[|at|..], place, copies + Prefixed(k, sub))
  {
    PrefixedMeans(k, sub);
    hide Prefixed;
    var p := path[|at| + 1..];
    assert at == (at + [k])[..|at|] && path == at + [k] + p;
    assert path[|at|..] == [k] + p;
    if p != [] {
      assert ([k] + p)[..|p|] == [k] + p[..|p| - 1];
      assert [k] + p[..|p| - 1] in Prefixed(k, sub);
    } else {
      assert ([k] + p)[..0] == [];
    }
  }

  /** A property of the copy that was not copied yet is written. */
  method StoreChild(copy: JsObject, key: Key, child: Slot, ghost t: Value, ghost layout: Layout, ghost copies: Layout,
                    ghost done: set<Key>, ghost sub: Layout)
    requires Partly(t, copies, done) && [] in copies && copies[[]] == copy && key in t.props && key !in done
    requires Shows(t, layout) && copy !in layout.Values && Stands(child, t.props[key], sub) && copy !in sub.Values
    modifies copy
    ensures Partly(t, copies, done) && Shows(t, layout) && Stands(child, t.props[key], sub)
    ensures copy.props.Keys == old(copy.props.Keys) && key in copy.props && copy.props[key] == child
    ensures forall j :: j in copy.props && j != key ==> copy.props[j] == old(copy.props)[j]
  {
    hide NodeAt, Slots, SlotOf, Shows, Stands;
    copy.Store(key, child);
    forall p | p in copies && p != [] ensures NodeSame(copies[p], t, p, copies, p) {
      assert copies[p] in copies.Values && copies[p] != copies[[]];
    }
  }

  /** `walk` with `immutable`: each node is copied, the callback queues what is to be done with it, and the copies
      of the children take their places in the copy of their parent. */
  method Walk(slot: Slot, at: Path, place: Place, keys: KeyOrder, ghost t: Value, ghost layout: Layout)
    returns (node: Slot, queue: seq<NodeCursor>, ghost copies: Layout)
    requires ListsKeys(keys) && Stands(slot, t, layout)
    ensures Stands(node, t, copies) && Injective(copies) && fresh(copies.Values)
    ensures Walked(queue, Cursors(t, at, keys), at, place, copies)
    decreases t, 2
  {
    match slot {
      case Leaf(_) => return slot, [NodeCursor(at, slot, place)], map[];
      case Child(o) =>
        var copy;
        copy, queue, copies := WalkObject(o, at, place, keys, t, layout);
        node := Child(copy);
    }
  }

  method WalkObject(o: JsObject, at: Path, place: Place, keys: KeyOrder, ghost t: Value, ghost layout: Layout)
    returns (copy: JsObject, queue: seq<NodeCursor>, ghost copies: Layout)
    requires ListsKeys(keys) && t.Obj? && [] in layout && o == layout[[]] && Shows(t, layout)
    ensures Holds(t, copies) && [] in copies && copies[[]] == copy && fresh(copies.Values)
    ensures Walked(queue, Cursors(t, at, keys), at, place, copies)
    decreases t, 1, 1
  {
    hide *;
    RootShown(t, layout);
    copy := new JsObject();
    copy.length, copy.props := o.length, o.props;
    queue, copies := [NodeCursor(at, Child(copy), place)], map[[] := copy];
    var ks := keys(at, o.props.Keys);
    ghost var cs := [Cursor(at, t)];
    KeysListed(keys, at, o.props.Keys);
    NoneCopied(t, copies);
    RootWalked(t, at, place, copies, queue, keys);
    CopiedIs(o.props, copy, t, copies, {});
    queue, copies, cs := WalkKeys(o, copy, ks, at, place, keys, queue, t, layout, copies, cs);
    assert cs + [] == cs;
    BelowNone(t, at, keys);
    WholeCopied(o.props, copy, t, copies);
  }

  lemma WholeCopied(was: map<Key, Slot>, copy: JsObject, t: Value, copies: Layout)
    requires t.Obj? && Copied(was, copy, t, copies, was.Keys)
    ensures Holds(t, copies) && [] in copies && copies[[]] == copy
  {
    hide Partly, Holds;
    AllCopied(t, copies);
  }

  /** The copy of an object, whose properties are `was`, as far as some keys: the others hold what they held. */
  ghost predicate Copied(was: map<Key, Slot>, copy: JsObject, t: Value, copies: Layout, done: set<Key>)
    reads copy, copies.Values
  {
    && [] in copies && copies[[]] == copy && Partly(t, copies, done)
    && copy.props.Keys == t.props.Keys == was.Keys
    && forall j :: j in was && j !in done ==> copy.props[j] == was[j]
  }

  lemma CopiedMeans(was: map<Key, Slot>, copy: JsObject, t: Value, copies: Layout, done: set<Key>, key: Key)
    requires Copied(was, copy, t, copies, done) && key in was && key !in done
    ensures [] in copies && copies[[]] == copy && Partly(t, copies, done) && t.Obj? && key in t.props
    ensures copy.props.Keys == was.Keys && key in copy.props && copy.props[key] == was[key]
    ensures forall j :: j in was && j !in done ==> copy.props[j] == was[j]
  {
  }

  lemma CopiedIs(was: map<Key, Slot>, copy: JsObject, t: Value, copies: Layout, done: set<Key>)
    requires [] in copies && copies[[]] == copy && Partly(t, copies, done) && copy.props.Keys == was.Keys
    requires forall j :: j in was && j !in done ==> copy.props[j] == was[j]
    requires t.Obj? && t.props.Keys == was.Keys
    ensures Copied(was, copy, t, copies, done)
  {
  }

  /** The children, key by key. */
  method WalkKeys(o: JsObject, copy: JsObject, ks: seq<Key>, at: Path, place: Place, keys: KeyOrder, was: seq<NodeCursor>,
                  ghost t: Value, ghost layout: Layout, ghost root: Layout, ghost before: seq<Cursor>)
    returns (queue: seq<NodeCursor>, ghost copies: Layout, ghost cs: seq<Cursor>)
    requires ListsKeys(keys) && t.Obj? && [] in layout && o == layout[[]] && Shows(t, layout) && root.Values == {copy}
    requires copy !in layout.Values && Copied(o.props, copy, t, root, {})
    requires (forall k :: k in ks <==> k in o.props) && forall i, j :: 0 <= i < j < |ks| ==> ks[i] != ks[j]
    requires Walked(was, before, at, place, root)
    modifies copy
    ensures Copied(o.props, copy, t, copies, o.props.Keys)
    ensures forall x :: x in copies.Values ==> x == copy || fresh(x)
    ensures Walked(queue, cs, at, place, copies) && cs + Below(t, at, [], keys) == before + Below(t, at, ks, keys)
    decreases t, 1, 0
  {
    hide *;
    queue, copies, cs := was, root, before;
    var k := 0;
    NoneListed(ks);
    assert ks[0..] == ks;
    while k < |ks|
      invariant k <= |ks| && Copied(o.props, copy, t, copies, Listed(ks, k)) && Shows(t, layout)
      invariant forall x :: x in copies.Values ==> x == copy || fresh(x)
      invariant Walked(queue, cs, at, place, copies)
      invariant cs + Below(t, at, ks[k..], keys) == before + Below(t, at, ks, keys)
    {
      ListedMore(ks, k);
      ghost var done := cs;
      CopiedMeans(o.props, copy, t, copies, Listed(ks, k), ks[k]);
      queue, copies, cs := WalkKey(o, copy, ks[k], at, place, keys, queue, t, layout, copies, Listed(ks, k), done);
      BelowStep(t, at, ks, k, keys, done, cs);
      k := k + 1;
    }
    assert ks[k..] == [];
    AllListed(ks, o.props.Keys);
  }

  lemma NoneListed(ks: seq<Key>)
    ensures Listed(ks, 0) == {}
  {
  }

  /** The child under one key. */
  method WalkKey(o: JsObject, copy: JsObject, key: Key, at: Path, place: Place, keys: KeyOrder, queue: seq<NodeCursor>,
                 ghost t: Value, ghost layout: Layout, ghost copies: Layout, ghost done: set<Key>, ghost cs: seq<Cursor>)
    returns (all: seq<NodeCursor>, ghost after: Layout, ghost ds: seq<Cursor>)
    requires ListsKeys(keys) && t.Obj? && [] in layout && o == layout[[]] && Shows(t, layout) && copies.Values !! layout.Values
    requires key in o.props && key in t.props && key !in done && Copied(o.props, copy, t, copies, done) && copy in copies.Values
    requires Walked(queue, cs, at, place, copies)
    modifies copy
    ensures Copied(o.props, copy, t, after, done + {key}) && Shows(t, layout)
    ensures forall x :: x in after.Values ==> x in copies.Values || fresh(x)
    ensures Walked(all, ds, at, place, after) && ds == cs + Cursors(t.props[key], at + [key], keys)
    decreases t, 0
  {
    hide *;
    CopiedMeans(o.props, copy, t, copies, done, key);
    ChildStands(t, layout, key);
    RootShown(t, layout);
    ghost var sub;
    var child, more;
    child, more, sub := Walk(copy.props[key], at + [key], Inside(copy, key), keys, t.props[key], Under(layout, key));
    StoreChild(copy, key, child, t, layout, copies, done, sub);
    OneKeyMore(t, copies, done, key, child, sub);
    WalkedBelow(queue, cs, more, Cursors(t.props[key], at + [key], keys), at, place, key, copies, sub);
    all, after, ds := queue + more, copies + Prefixed(key, sub), cs + Cursors(t.props[key], at + [key], keys);
    CopiedIs(o.props, copy, t, after, done + {key});
  }

  function Listed(ks: seq<Key>, k: nat): set<Key>
    requires k <= |ks|
  {
    set i | 0 <= i < k :: ks[i]
  }

  lemma KeysListed(keys: KeyOrder, at: Path, all: set<Key>)
    requires ListsKeys(keys)
    ensures forall k :: k in keys(at, all) <==> k in all
    ensures forall i, j :: 0 <= i < j < |keys(at, all)| ==> keys(at, all)[i] != keys(at, all)[j]
    ensures Listed(keys(at, all), 0) == {}
  {
  }

  lemma ListedMore(ks: seq<Key>, k: nat)
    requires k < |ks| && forall i, j :: 0 <= i < j < |ks| ==> ks[i] != ks[j]
    ensures ks[k] !in Listed(ks, k) && Listed(ks, k + 1) == Listed(ks, k) + {ks[k]}
  {
  }

  lemma AllListed(ks: seq<Key>, all: set<Key>)
    requires forall k :: k in ks <==> k in all
    ensures Listed(ks, |ks|) == all
  {
    forall k ensures k in Listed(ks, |ks|) <==> k in all {}
  }

  lemma RootShown(t: Value, layout: Layout)
    requires t.Obj? && [] in layout && Shows(t, layout)
    ensures layout[[]].length == t.length && layout[[]].props.Keys == t.props.Keys
  {
    assert NodeAt(t, []) == Some(t) && Same(layout[[]], t, layout, []);
  }

  lemma NoneCopied(t: Value, copies: Layout)
    requires t.Obj? && copies.Keys == {[]} && copies[[]].length == t.length && copies[[]].props.Keys == t.props.Keys
    ensures Partly(t, copies, {})
  {
  }

  lemma RootWalked(t: Value, at: Path, place: Place, copies: Layout, queue: seq<NodeCursor>, keys: KeyOrder)
    requires t.Obj? && |queue| == 1 && queue[0].path == at && queue[0].node.Child? && queue[0].place == place
    ensures Walked(queue, [Cursor(at, t)], at, place, copies)
    ensures [Cursor(at, t)] + Below(t, at, keys(at, t.props.Keys), keys) == Cursors(t, at, keys)
  {
    assert at[|at|..] == [];
  }

  lemma BelowNone(t: Value, at: Path, keys: KeyOrder)
    requires t.Obj?
    ensures Below(t, at, [], keys) == []
  {
  }

  lemma BelowStep(t: Value, at: Path, ks: seq<Key>, k: nat, keys: KeyOrder, cs: seq<Cursor>, ds: seq<Cursor>)
    requires t.Obj? && k < |ks| && ks[k] in t.props && ds == cs + Cursors(t.props[ks[k]], at + [ks[k]], keys)
    ensures ds + Below(t, at, ks[k + 1..], keys) == cs + Below(t, at, ks[k..], keys)
  {
    hide Cursors;
    assert ks[k..][0] == ks[k] && ks[k..][1..] == ks[k + 1..];
    var a, b := Cursors(t.props[ks[k]], at + [ks[k]], keys), Below(t, at, ks[k + 1..], keys);
    assert cs + a + b == cs + (a + b);
  }

  // ---------------------------------------------------------------- after the walk

  /** A function in the tree of copies is replaced where it is held; nothing else is, and all objects stay in
      their places. */
  method Update(cursor: NodeCursor, x: Value, ghost v: Value, ghost copies: Layout)
    requires Holds(v, copies) && v.Obj? && cursor.path != [] && PlacedAt(cursor.place, cursor.path, Root, copies)
    requires NodeAt(v, cursor.path).Some? && !NodeAt(v, cursor.path).value.Obj? && !x.Obj?
    modifies copies.Values
    ensures Holds(Replace(v, cursor.path, x), copies)
  {
    ghost var p := cursor.path[..|cursor.path| - 1];
    match cursor.place {
      case Inside(parent, key) =>
        assert cursor.path == p + [key];
        LeafHeld(v, copies, p, key, x);
        PlainValue(copies, x);
        PutInPlace(parent, key, Leaf(x), x, map[], v, copies, p);
    }
  }

  lemma LeafHeld(v: Value, copies: Layout, p: Path, key: Key, x: Value)
    requires Covers(v, copies) && ObjAt(v, p) && !x.Obj?
    requires NodeAt(v, p + [key]).Some? && !NodeAt(v, p + [key]).value.Obj?
    ensures Grafted(copies, p + [key], map[]) == copies
    ensures Replace(v, p, JsPaths.Put(NodeAt(v, p).value, key, x)) == Replace(v, p + [key], x)
  {
    NodePush(v, p, key);
    PutIsReplace(v, p, key, x);
    forall q | p + [key] <= q && ObjAt(v, q) ensures false {
      ObjOnTheWay(v, q, p + [key]);
    }
    assert forall q :: q in copies ==> !(p + [key] <= q);
    assert Grafted(copies, p + [key], map[]) == copies;
  }

  lemma {:induction false} PutIsReplace(v: Value, p: Path, key: Key, x: Value)
    requires ObjAt(v, p) && key in NodeAt(v, p).value.props && NodeAt(v, p + [key]).Some?
    ensures Replace(v, p, JsPaths.Put(NodeAt(v, p).value, key, x)) == Replace(v, p + [key], x)
    decreases |p|
  {
    if p == [] {
      assert [] + [key] == [key] && [key][1..] == [];
    } else {
      assert (p + [key])[1..] == p[1..] + [key];
      NodePush(v.props[p[0]], p[1..], key);
      PutIsReplace(v.props[p[0]], p[1..], key, x);
    }
  }

  /** The tree that objects hold, as it is written out for a message. */
  method Serialize(slot: Slot, ghost t: Value, ghost layout: Layout) returns (v: Value)
    requires Stands(slot, t, layout)
    ensures v == t
    decreases t
  {
    match slot {
      case Leaf(x) => return x;
      case Child(o) =>
        RootShown(t, layout);
        var props: map<Key, Value>, todo := map[], o.props.Keys;
        while todo != {}
          invariant todo <= t.props.Keys && props.Keys == t.props.Keys - todo && Shows(t, layout)
          invariant forall k :: k in props ==> props[k] == t.props[k]
        {
          hide Shows, Under;
          var k :| k in todo;
          ChildStands(t, layout, k);
          var x := Serialize(o.props[k], t.props[k], Under(layout, k));
          props, todo := props[k := x], todo - {k};
        }
        assert props == t.props;
        v := Obj(o.length, props);
    }
  }
}
