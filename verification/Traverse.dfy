/** Walking and cloning graphs of objects, in which an object may be reached in many ways and from itself. */
module Traversals {
  import opened JsArray
  import opened JsPaths

  /** A primitive value, or a reference to an object. */
  datatype Val = Prim(n: int) | Ref(r: nat)

  type Props = map<Key, Val>
  type Heap = map<nat, Props>

  /** `Object.keys`: all keys of an object, in some order. */
  type Order = Props -> seq<Key>

  ghost predicate ListsAll(keys: Order) {
    forall props :: forall k :: k in keys(props) <==> k in props
  }

  ghost predicate Here(h: Heap, v: Val) {
    v.Ref? ==> v.r in h
  }

  ghost predicate Closed(h: Heap) {
    forall r, k :: r in h && k in h[r] ==> Here(h, h[r][k])
  }

  function Elements(s: seq<nat>): (r: set<nat>)
    ensures forall x :: x in r <==> x in s
  {
    set x | x in s
  }

  /** What a path of own keys leads to. Primitive values have none here: the characters of a text, which `get` reads
      by their index, are not part of the model. */
  function Get(h: Heap, v: Val, p: Path): Option<Val>
    decreases |p|
  {
    if p == [] then Some(v)
    else if v.Ref? && v.r in h && p[0] in h[v.r] then Get(h, h[v.r][p[0]], p[1..])
    else None
  }

  lemma {:induction false} GetPush(h: Heap, v: Val, p: Path, k: Key)
    ensures Get(h, v, p + [k]) == match Get(h, v, p)
                                  case None => None
                                  case Some(w) => if w.Ref? && w.r in h && k in h[w.r] then Some(h[w.r][k]) else None
    decreases |p|
  {
    if p == [] {
      assert [k][1..] == [];
    } else {
      assert (p + [k])[1..] == p[1..] + [k];
      if v.Ref? && v.r in h && p[0] in h[v.r] { GetPush(h, h[v.r][p[0]], p[1..], k); }
    }
  }

  /** Fewer objects are left to enter. */
  lemma Deeper(h: Heap, parents: seq<nat>, r: nat)
    requires r in h && r !in parents
    ensures h.Keys - Elements(parents + [r]) < h.Keys - Elements(parents)
  {
    assert r in h.Keys - Elements(parents);
  }

  // ---------------------------------------------------------------- walk

  /** A call of the callback; circular when the node is one of those it is inside of. */
  datatype Visit = Visit(path: Path, node: Val, circular: bool)

  function Visits(h: Heap, v: Val, at: Path, parents: seq<nat>, keys: Order): seq<Visit>
    requires Closed(h) && Here(h, v)
    decreases h.Keys - Elements(parents), 1, 0
  {
    var circular := v.Ref? && v.r in parents;
    [Visit(at, v, circular)] +
    if v.Ref? && !circular then Deeper(h, parents, v.r); Under(h, v.r, at, parents + [v.r], keys(h[v.r]), keys) else []
  }

  function Under(h: Heap, r: nat, at: Path, parents: seq<nat>, ks: seq<Key>, keys: Order): seq<Visit>
    requires Closed(h) && r in h
    decreases h.Keys - Elements(parents), 2, |ks|
  {
    if ks == [] then []
    else (if ks[0] in h[r] then Visits(h, h[r][ks[0]], at + [ks[0]], parents, keys) else []) + Under(h, r, at, parents, ks[1..], keys)
  }

  /** `get` of the path of a visit is the node of that visit. */
  lemma {:induction false} VisitsSound(h: Heap, v: Val, at: Path, parents: seq<nat>, keys: Order, root: Val, x: Visit)
    requires Closed(h) && Here(h, v) && Get(h, root, at) == Some(v) && x in Visits(h, v, at, parents, keys)
    ensures at <= x.path && Get(h, root, x.path) == Some(x.node)
    decreases h.Keys - Elements(parents), 1, 0
  {
    if x.path != at || x.node != v || x.circular != (v.Ref? && v.r in parents) {
      Deeper(h, parents, v.r);
      UnderSound(h, v.r, at, parents + [v.r], keys(h[v.r]), keys, root, x);
    }
  }

  lemma {:induction false} UnderSound(h: Heap, r: nat, at: Path, parents: seq<nat>, ks: seq<Key>, keys: Order, root: Val, x: Visit)
    requires Closed(h) && r in h && Get(h, root, at) == Some(Ref(r)) && x in Under(h, r, at, parents, ks, keys)
    ensures at <= x.path && Get(h, root, x.path) == Some(x.node)
    decreases h.Keys - Elements(parents), 2, |ks|
  {
    if ks[0] in h[r] && x in Visits(h, h[r][ks[0]], at + [ks[0]], parents, keys) {
      GetPush(h, root, at, ks[0]);
      VisitsSound(h, h[r][ks[0]], at + [ks[0]], parents, keys, root, x);
      assert at == (at + [ks[0]])[..|at|];
    } else {
      UnderSound(h, r, at, parents, ks[1..], keys, root, x);
    }
  }

  /** The object is visited and its keys are gone through. */
  ghost predicate Opened(vs: seq<Visit>, r: nat) {
    exists x :: x in vs && x.node == Ref(r) && !x.circular
  }

  ghost predicate Visited(vs: seq<Visit>, v: Val) {
    exists x :: x in vs && x.node == v
  }

  /** What is behind an opened object is visited; and an object that is visited is opened, there or as a parent. */
  ghost predicate Complete(h: Heap, vs: seq<Visit>, parents: seq<nat>) {
    && (forall r, k :: Opened(vs, r) && r in h && k in h[r] ==> Visited(vs, h[r][k]))
    && (forall r :: Visited(vs, Ref(r)) ==> Opened(vs, r) || r in parents)
  }

  lemma {:induction false} VisitsComplete(h: Heap, v: Val, at: Path, parents: seq<nat>, keys: Order)
    requires Closed(h) && Here(h, v) && ListsAll(keys)
    ensures Complete(h, Visits(h, v, at, parents, keys), parents)
    ensures Visited(Visits(h, v, at, parents, keys), v)
    decreases h.Keys - Elements(parents), 1, 0
  {
    var vs := Visits(h, v, at, parents, keys);
    var head := Visit(at, v, v.Ref? && v.r in parents);
    assert vs[0] == head && head in vs;
    if v.Ref? && v.r !in parents {
      var ks := keys(h[v.r]);
      Deeper(h, parents, v.r);
      var under := Under(h, v.r, at, parents + [v.r], ks, keys);
      UnderComplete(h, v.r, at, parents + [v.r], ks, keys);
      HeadComplete(h, v.r, at, parents, under);
    }
  }

  lemma HeadComplete(h: Heap, r: nat, at: Path, parents: seq<nat>, under: seq<Visit>)
    requires r in h && r !in parents
    requires Complete(h, under, parents + [r]) && forall k :: k in h[r] ==> Visited(under, h[r][k])
    ensures Complete(h, [Visit(at, Ref(r), false)] + under, parents)
  {
    var head := Visit(at, Ref(r), false);
    var vs := [head] + under;
    assert forall x :: x in vs <==> x == head || x in under;
    assert Opened(vs, r);
    forall v ensures Visited(vs, v) <==> v == Ref(r) || Visited(under, v) {}
    forall q ensures Opened(vs, q) <==> q == r || Opened(under, q) {}
  }

  lemma {:induction false} UnderComplete(h: Heap, r: nat, at: Path, parents: seq<nat>, ks: seq<Key>, keys: Order)
    requires Closed(h) && r in h && ListsAll(keys)
    ensures Complete(h, Under(h, r, at, parents, ks, keys), parents)
    ensures forall k :: k in ks && k in h[r] ==> Visited(Under(h, r, at, parents, ks, keys), h[r][k])
    decreases h.Keys - Elements(parents), 2, |ks|
  {
    if ks != [] {
      UnderComplete(h, r, at, parents, ks[1..], keys);
      if ks[0] in h[r] {
        VisitsComplete(h, h[r][ks[0]], at + [ks[0]], parents, keys);
        JoinComplete(h, Visits(h, h[r][ks[0]], at + [ks[0]], parents, keys), Under(h, r, at, parents, ks[1..], keys), parents);
      }
    }
  }

  lemma JoinComplete(h: Heap, a: seq<Visit>, b: seq<Visit>, parents: seq<nat>)
    requires Complete(h, a, parents) && Complete(h, b, parents)
    ensures Complete(h, a + b, parents)
    ensures forall v :: Visited(a + b, v) <==> Visited(a, v) || Visited(b, v)
  {
    forall v ensures Visited(a + b, v) <==> Visited(a, v) || Visited(b, v) {
      assert forall x :: x in a + b <==> x in a || x in b;
    }
    forall r ensures Opened(a + b, r) <==> Opened(a, r) || Opened(b, r) {
      assert forall x :: x in a + b <==> x in a || x in b;
    }
  }

  /** A walk visits everything that any path through objects leads to, around cycles too. */
  lemma {:induction false} WalkIsComplete(h: Heap, root: Val, keys: Order, p: Path)
    requires Closed(h) && Here(h, root) && ListsAll(keys)
    requires Get(h, root, p).Some?
    ensures Visited(Visits(h, root, [], [], keys), Get(h, root, p).value)
    decreases |p|
  {
    var vs := Visits(h, root, [], [], keys);
    hide Visits, Opened, Visited;
    VisitsComplete(h, root, [], [], keys);
    if p != [] {
      var q, k := p[..|p| - 1], p[|p| - 1];
      assert q + [k] == p;
      GetPush(h, root, q, k);
      WalkIsComplete(h, root, keys, q);
    }
  }

  // ---------------------------------------------------------------- which paths are walked, and in what order

  /** A path of own keys that enters no object a second time. */
  ghost predicate Straight(h: Heap, root: Val, p: Path) {
    Get(h, root, p).Some? && forall i, j :: 0 <= i < j < |p| ==> Get(h, root, p[..i]) != Get(h, root, p[..j])
  }

  /** The same from a node inside of some objects. */
  predicate StraightFrom(h: Heap, v: Val, parents: seq<nat>, p: Path)
    decreases |p|
  {
    p == [] ||
    (v.Ref? && v.r in h && v.r !in parents && p[0] in h[v.r] && StraightFrom(h, h[v.r][p[0]], parents + [v.r], p[1..]))
  }

  ghost predicate HasPath(vs: seq<Visit>, p: Path) {
    exists x :: x in vs && x.path == p
  }

  lemma HasPathJoin(a: seq<Visit>, b: seq<Visit>, p: Path)
    ensures HasPath(a + b, p) <==> HasPath(a, p) || HasPath(b, p)
  {
    assert forall x :: x in a + b <==> x in a || x in b;
  }

  lemma {:induction false} VisitsReach(h: Heap, v: Val, at: Path, parents: seq<nat>, keys: Order, p: Path)
    requires Closed(h) && Here(h, v) && ListsAll(keys)
    ensures HasPath(Visits(h, v, at, parents, keys), at + p) <==> StraightFrom(h, v, parents, p)
    decreases h.Keys - Elements(parents), 1, 0
  {
    hide Visits, Under;
    VisitsParts(h, v, at, parents, keys);
    var head := Visit(at, v, v.Ref? && v.r in parents);
    assert head in [head];
    assert HasPath([head], at + p) <==> p == [] by { if p != [] { assert |at + p| != |at|; } else { assert at + p == at; } }
    if v.Ref? && v.r !in parents {
      Deeper(h, parents, v.r);
      UnderReach(h, v.r, at, parents + [v.r], keys(h[v.r]), keys, p);
      HasPathJoin([head], Under(h, v.r, at, parents + [v.r], keys(h[v.r]), keys), at + p);
    }
  }

  lemma {:induction false} UnderReach(h: Heap, r: nat, at: Path, parents: seq<nat>, ks: seq<Key>, keys: Order, p: Path)
    requires Closed(h) && r in h && ListsAll(keys)
    ensures HasPath(Under(h, r, at, parents, ks, keys), at + p) <==>
            p != [] && p[0] in ks && p[0] in h[r] && StraightFrom(h, h[r][p[0]], parents, p[1..])
    decreases h.Keys - Elements(parents), 2, |ks|
  {
    hide Visits;
    if ks != [] {
      var k := ks[0];
      UnderReach(h, r, at, parents, ks[1..], keys, p);
      if k in h[r] {
        var here, rest := Visits(h, h[r][k], at + [k], parents, keys), Under(h, r, at, parents, ks[1..], keys);
        HasPathJoin(here, rest, at + p);
        if p != [] && p[0] == k {
          assert at + p == at + [k] + p[1..];
          VisitsReach(h, h[r][k], at + [k], parents, keys, p[1..]);
        } else {
          forall x | x in here ensures x.path != at + p {
            VisitsBelow(h, h[r][k], at + [k], parents, keys, x);
            Elsewhere(at, k, p, x.path);
          }
        }
      }
    }
  }

  lemma Elsewhere(at: Path, k: Key, p: Path, path: Path)
    requires at + [k] <= path && (p == [] || p[0] != k)
    ensures path != at + p
  {
    assert path[|at|] == (at + [k])[|at|] == k;
    if p != [] { assert (at + p)[|at|] == p[0]; }
  }

  lemma {:induction false} VisitsBelow(h: Heap, v: Val, at: Path, parents: seq<nat>, keys: Order, x: Visit)
    requires Closed(h) && Here(h, v) && x in Visits(h, v, at, parents, keys)
    ensures at <= x.path
    decreases h.Keys - Elements(parents), 1, 0
  {
    if x != Visit(at, v, v.Ref? && v.r in parents) {
      Deeper(h, parents, v.r);
      UnderBelow(h, v.r, at, parents + [v.r], keys(h[v.r]), keys, x);
    }
  }

  lemma {:induction false} UnderBelow(h: Heap, r: nat, at: Path, parents: seq<nat>, ks: seq<Key>, keys: Order, x: Visit)
    requires Closed(h) && r in h && x in Under(h, r, at, parents, ks, keys)
    ensures |at| < |x.path| && at <= x.path && x.path[|at|] in ks
    decreases h.Keys - Elements(parents), 2, |ks|
  {
    if ks[0] in h[r] && x in Visits(h, h[r][ks[0]], at + [ks[0]], parents, keys) {
      VisitsBelow(h, h[r][ks[0]], at + [ks[0]], parents, keys, x);
      assert at == (at + [ks[0]])[..|at|] && x.path[|at|] == (at + [ks[0]])[|at|];
    } else {
      UnderBelow(h, r, at, parents, ks[1..], keys, x);
    }
  }

  /** No path is visited before its beginnings, nor twice. */
  ghost predicate ParentsFirst(vs: seq<Visit>) {
    forall i, j :: 0 <= i < j < |vs| ==> !(vs[j].path <= vs[i].path)
  }

  ghost predicate ListsOnce(keys: Order) {
    ListsAll(keys) && forall props, i, j :: 0 <= i < j < |keys(props)| ==> keys(props)[i] != keys(props)[j]
  }

  lemma {:induction false} VisitsOrdered(h: Heap, v: Val, at: Path, parents: seq<nat>, keys: Order)
    requires Closed(h) && Here(h, v) && ListsOnce(keys)
    ensures ParentsFirst(Visits(h, v, at, parents, keys))
    decreases h.Keys - Elements(parents), 1, 0
  {
    hide Under;
    if v.Ref? && v.r !in parents {
      Deeper(h, parents, v.r);
      var under := Under(h, v.r, at, parents + [v.r], keys(h[v.r]), keys);
      UnderOrdered(h, v.r, at, parents + [v.r], keys(h[v.r]), keys);
      forall x | x in under ensures !(x.path <= at) { UnderBelow(h, v.r, at, parents + [v.r], keys(h[v.r]), keys, x); }
    }
  }

  lemma {:induction false} UnderOrdered(h: Heap, r: nat, at: Path, parents: seq<nat>, ks: seq<Key>, keys: Order)
    requires Closed(h) && r in h && ListsOnce(keys) && forall i, j :: 0 <= i < j < |ks| ==> ks[i] != ks[j]
    ensures ParentsFirst(Under(h, r, at, parents, ks, keys))
    decreases h.Keys - Elements(parents), 2, |ks|
  {
    hide Visits;
    if ks != [] {
      UnderOrdered(h, r, at, parents, ks[1..], keys);
      if ks[0] in h[r] {
        var here, rest := Visits(h, h[r][ks[0]], at + [ks[0]], parents, keys), Under(h, r, at, parents, ks[1..], keys);
        VisitsOrdered(h, h[r][ks[0]], at + [ks[0]], parents, keys);
        forall x, y | x in here && y in rest ensures !(y.path <= x.path) {
          VisitsBelow(h, h[r][ks[0]], at + [ks[0]], parents, keys, x);
          UnderBelow(h, r, at, parents, ks[1..], keys, y);
          assert x.path[|at|] == (at + [ks[0]])[|at|] == ks[0];
        }
      }
    }
  }

  lemma {:induction false} StraightMeans(h: Heap, v: Val, parents: seq<nat>, p: Path)
    requires Closed(h) && Here(h, v)
    ensures StraightFrom(h, v, parents, p) <==>
            Straight(h, v, p) && forall i :: 0 <= i < |p| ==> forall r :: r in parents ==> Get(h, v, p[..i]) != Some(Ref(r))
    decreases |p|
  {
    if p != [] && v.Ref? && v.r in h && p[0] in h[v.r] {
      var w, q := h[v.r][p[0]], p[1..];
      StraightMeans(h, w, parents + [v.r], q);
      forall i | 0 <= i <= |q| ensures Get(h, v, p[..i + 1]) == Get(h, w, q[..i]) {
        assert p[..i + 1][0] == p[0] && p[..i + 1][1..] == q[..i];
      }
      assert p[..0] == [] && p[..|p|] == p && q[..|q|] == q;
      StraightStep(h, v, parents, p, w);
    }
  }

  lemma StraightStep(h: Heap, v: Val, parents: seq<nat>, p: Path, w: Val)
    requires p != [] && v.Ref? && Get(h, v, p) == Get(h, w, p[1..]) && Get(h, v, p[..0]) == Some(v)
    requires forall i :: 0 <= i <= |p[1..]| ==> Get(h, v, p[..i + 1]) == Get(h, w, p[1..][..i])
    ensures (Straight(h, v, p) && forall i :: 0 <= i < |p| ==> forall r :: r in parents ==> Get(h, v, p[..i]) != Some(Ref(r))) <==>
            && v.r !in parents && Straight(h, w, p[1..])
            && forall i :: 0 <= i < |p[1..]| ==> forall r :: r in parents + [v.r] ==> Get(h, w, p[1..][..i]) != Some(Ref(r))
  {
    hide Get;
    var q := p[1..];
    assert forall i :: 0 < i < |p| ==> Get(h, v, p[..i]) == Get(h, w, q[..i - 1]);
    assert forall i :: 0 <= i < |q| ==> Get(h, v, p[..i + 1]) == Get(h, w, q[..i]);
  }

  /** The node of a path is one of those it is inside of. */
  ghost predicate Around(h: Heap, root: Val, p: Path, v: Val) {
    v.Ref? && exists i :: 0 <= i < |p| && Get(h, root, p[..i]) == Some(v)
  }

  ghost predicate ParentsOf(h: Heap, root: Val, at: Path, parents: seq<nat>) {
    forall r: nat :: r in parents <==> Around(h, root, at, Ref(r))
  }

  lemma AroundPush(h: Heap, root: Val, at: Path, k: Key, v: Val)
    ensures Around(h, root, at + [k], v) <==> Around(h, root, at, v) || (v.Ref? && Get(h, root, at) == Some(v))
  {
    var p := at + [k];
    forall i | 0 <= i <= |at| ensures p[..i] == at[..i] {}
    assert at[..|at|] == at;
    if v.Ref? && Get(h, root, at) == Some(v) { assert Get(h, root, p[..|at|]) == Some(v); }
    if Around(h, root, at, v) {
      var i :| 0 <= i < |at| && Get(h, root, at[..i]) == Some(v);
      assert Get(h, root, p[..i]) == Some(v);
    }
  }

  lemma {:induction false} CircularMeans(h: Heap, v: Val, at: Path, parents: seq<nat>, keys: Order, root: Val, x: Visit)
    requires Closed(h) && Here(h, v) && Get(h, root, at) == Some(v) && ParentsOf(h, root, at, parents)
    requires x in Visits(h, v, at, parents, keys)
    ensures x.circular <==> Around(h, root, x.path, x.node)
    decreases h.Keys - Elements(parents), 1, 0
  {
    hide Visits, Under, Around;
    VisitsParts(h, v, at, parents, keys);
    if x != Visit(at, v, v.Ref? && v.r in parents) {
      Deeper(h, parents, v.r);
      CircularUnder(h, v.r, at, parents, keys(h[v.r]), keys, root, x);
    } else if v.Ref? {
    } else {
      NotAround(h, root, at, v);
    }
  }

  lemma NotAround(h: Heap, root: Val, at: Path, v: Val)
    requires !v.Ref?
    ensures !Around(h, root, at, v)
  {
  }

  lemma {:induction false} CircularUnder(h: Heap, r: nat, at: Path, parents: seq<nat>, ks: seq<Key>, keys: Order, root: Val, x: Visit)
    requires Closed(h) && r in h && Get(h, root, at) == Some(Ref(r)) && ParentsOf(h, root, at, parents)
    requires x in Under(h, r, at, parents + [r], ks, keys)
    ensures x.circular <==> Around(h, root, x.path, x.node)
    decreases h.Keys - Elements(parents + [r]), 2, |ks|
  {
    hide Visits, Around;
    if ks[0] in h[r] && x in Visits(h, h[r][ks[0]], at + [ks[0]], parents + [r], keys) {
      GetPush(h, root, at, ks[0]);
      forall q: nat ensures q in parents + [r] <==> Around(h, root, at + [ks[0]], Ref(q)) { AroundPush(h, root, at, ks[0], Ref(q)); }
      CircularMeans(h, h[r][ks[0]], at + [ks[0]], parents + [r], keys, root, x);
    } else {
      CircularUnder(h, r, at, parents, ks[1..], keys, root, x);
    }
  }

  /** A visit is circular exactly when its node is one of those it is inside of. */
  lemma WalkCircles(h: Heap, root: Val, keys: Order, x: Visit)
    requires Closed(h) && Here(h, root) && x in Visits(h, root, [], [], keys)
    ensures x.circular <==> Around(h, root, x.path, x.node)
  {
    hide Visits;
    CircularMeans(h, root, [], [], keys, root, x);
  }

  /** The paths that are visited are exactly those that enter no object a second time, each once, and after its beginnings. */
  lemma {:induction false} WalkPaths(h: Heap, root: Val, keys: Order)
    requires Closed(h) && Here(h, root) && ListsOnce(keys)
    ensures var vs := Visits(h, root, [], [], keys);
            ParentsFirst(vs) && forall p :: HasPath(vs, p) <==> Straight(h, root, p)
  {
    hide Visits, Straight, StraightFrom, HasPath, ParentsFirst;
    VisitsOrdered(h, root, [], [], keys);
    forall p ensures HasPath(Visits(h, root, [], [], keys), p) <==> Straight(h, root, p) {
      VisitsReach(h, root, [], [], keys, p);
      StraightMeans(h, root, [], p);
      assert [] + p == p;
    }
  }

  lemma VisitsParts(h: Heap, v: Val, at: Path, parents: seq<nat>, keys: Order)
    requires Closed(h) && Here(h, v)
    ensures Visits(h, v, at, parents, keys) ==
            if v.Ref? && v.r !in parents
            then [Visit(at, v, false)] + Under(h, v.r, at, parents + [v.r], keys(h[v.r]), keys)
            else [Visit(at, v, v.Ref? && v.r in parents)]
  {
  }

  /** The walk itself: the path and the parents are stacks. */
  class Traverse {
    const heap: Heap
    var path: Path
    var parents: seq<nat>
    var acc: seq<Visit>

    constructor (heap: Heap)
      ensures this.heap == heap && path == [] && parents == [] && acc == []
    {
      this.heap := heap;
      path, parents, acc := [], [], [];
    }

    method Walk(v: Val, keys: Order)
      requires Closed(heap) && Here(heap, v)
      modifies this
      ensures acc == old(acc) + Visits(heap, v, old(path), old(parents), keys)
      ensures path == old(path) && parents == old(parents)
      decreases heap.Keys - Elements(parents), 0
    {
      hide Visits, Under, Closed, Elements;
      VisitsParts(heap, v, path, parents, keys);
      var circular := v.Ref? && v.r in parents;
      acc := acc + [Visit(path, v, circular)];
      if v.Ref? && !circular {
        Deeper(heap, parents, v.r);
        parents := parents + [v.r];
        WalkUnder(v.r, keys);
        parents := parents[..|parents| - 1];
      }
    }

    method WalkUnder(r: nat, keys: Order)
      requires Closed(heap) && r in heap
      modifies this
      ensures acc == old(acc) + Under(heap, r, old(path), old(parents), keys(heap[r]), keys)
      ensures path == old(path) && parents == old(parents)
      decreases heap.Keys - Elements(parents), 1
    {
      hide Visits;
      var ks, k := keys(heap[r]), 0;
      while k < |ks|
        invariant k <= |ks| && path == old(path) && parents == old(parents)
        invariant acc + Under(heap, r, path, parents, ks[k..], keys) == old(acc) + Under(heap, r, path, parents, ks, keys)
      {
        assert ks[k..][0] == ks[k] && ks[k..][1..] == ks[k + 1..];
        if ks[k] in heap[r] {
          path := path + [ks[k]];
          Walk(heap[r][ks[k]], keys);
          path := path[..|path| - 1];
        }
        k := k + 1;
      }
      assert ks[k..] == [];
    }
  }

  // ---------------------------------------------------------------- clone

  /** The objects a copy is made inside of: the original and its copy. */
  type Pairs = seq<(nat, nat)>

  function Originals(ps: Pairs): (r: seq<nat>)
    ensures |r| == |ps| && forall i :: 0 <= i < |ps| ==> r[i] == ps[i].0
  {
    seq(|ps|, i requires 0 <= i < |ps| => ps[i].0)
  }

  /** `dst` is a copy of `src` made inside of some objects: of a primitive value itself, of one of these objects its copy,
      and of any other object a new one with a copy for each key. The new objects lie in an interval. */
  ghost predicate Copied(source: Heap, h: Heap, src: Val, ps: Pairs, dst: Val, lo: nat, hi: nat)
    requires Closed(source) && Here(source, src)
    decreases source.Keys - Elements(Originals(ps))
  {
    match src
    case Prim(_) => dst == src
    case Ref(r) =>
      if r in Originals(ps) then
        dst.Ref? && (r, dst.r) in ps
      else
        && dst.Ref? && lo <= dst.r < hi && dst.r in h && h[dst.r].Keys == source[r].Keys
        && (assert Originals(ps + [(r, dst.r)]) == Originals(ps) + [r]; Deeper(source, Originals(ps), r);
            forall k :: k in source[r] ==> Copied(source, h, source[r][k], ps + [(r, dst.r)], h[dst.r][k], lo, hi))
  }

  /** Only the new objects matter. */
  lemma {:induction false} CopiedFrame(source: Heap, h: Heap, src: Val, ps: Pairs, dst: Val, lo: nat, hi: nat, g: Heap, from: nat, to: nat)
    requires Closed(source) && Here(source, src) && Copied(source, h, src, ps, dst, lo, hi)
    requires from <= lo && hi <= to && forall d :: lo <= d < hi && d in h ==> d in g && g[d] == h[d]
    ensures Copied(source, g, src, ps, dst, from, to)
    decreases source.Keys - Elements(Originals(ps))
  {
    if src.Ref? && src.r !in Originals(ps) {
      var qs := ps + [(src.r, dst.r)];
      assert Originals(qs) == Originals(ps) + [src.r];
      Deeper(source, Originals(ps), src.r);
      forall k | k in source[src.r] ensures Copied(source, g, source[src.r][k], qs, g[dst.r][k], from, to) {
        CopiedFrame(source, h, source[src.r][k], qs, h[dst.r][k], lo, hi, g, from, to);
      }
    }
  }

  lemma CopiedFromKeys(source: Heap, h: Heap, r: nat, ps: Pairs, d: nat, lo: nat, hi: nat)
    requires Closed(source) && r in source && r !in Originals(ps) && d < lo <= hi && d in h && h[d].Keys == source[r].Keys
    requires forall k :: k in source[r] ==> Copied(source, h, source[r][k], ps + [(r, d)], h[d][k], lo, hi)
    ensures Copied(source, h, Ref(r), ps, Ref(d), d, hi)
  {
    assert Originals(ps + [(r, d)]) == Originals(ps) + [r];
    Deeper(source, Originals(ps), r);
    forall k | k in source[r] ensures Copied(source, h, source[r][k], ps + [(r, d)], h[d][k], d, hi) {
      CopiedFrame(source, h, source[r][k], ps + [(r, d)], h[d][k], lo, hi, h, d, hi);
    }
  }

  lemma OneMoreKey(source: Heap, h: Heap, g: Heap, r: nat, ps: Pairs, d: nat, ks: seq<Key>, k: Key, c: Val, lo: nat, mid: nat, hi: nat)
    requires Closed(source) && r in source && d < lo <= mid <= hi && d in h
    requires (forall x :: x in h ==> x < mid && x in g && g[x] == h[x]) && h[d].Keys == source[r].Keys
    requires forall j :: j in ks ==> j in source[r] && Copied(source, h, source[r][j], ps, h[d][j], lo, mid)
    requires k in source[r] && Copied(source, g, source[r][k], ps, c, mid, hi)
    ensures var f := g[d := g[d][k := c]];
            forall j :: j in ks + [k] ==> j in source[r] && Copied(source, f, source[r][j], ps, f[d][j], lo, hi)
  {
    hide Copied;
    var f := g[d := g[d][k := c]];
    forall j | j in ks + [k] ensures j in source[r] && Copied(source, f, source[r][j], ps, f[d][j], lo, hi) {
      if j == k {
        CopiedFrame(source, g, source[r][k], ps, c, mid, hi, f, lo, hi);
      } else {
        assert j in ks;
        CopiedFrame(source, h, source[r][j], ps, h[d][j], lo, mid, f, lo, hi);
      }
    }
  }

  /** Objects in memory: new ones are made under the next number. */
  class Objects {
    var heap: Heap
    var next: nat

    constructor (heap: Heap, next: nat)
      requires forall r :: r in heap ==> r < next
      ensures this.heap == heap && this.next == next && Valid()
    {
      this.heap, this.next := heap, next;
    }

    ghost predicate Valid()
      reads this
    {
      forall r :: r in heap ==> r < next
    }

    /** The source is unchanged and its copy is made of new objects. */
    method Clone(src: Val, ps: Pairs, keys: Order, ghost source: Heap) returns (dst: Val)
      requires Valid() && Closed(source) && Here(source, src) && ListsAll(keys)
      requires forall r :: r in source ==> r in heap && heap[r] == source[r]
      modifies this
      ensures Valid() && old(next) <= next
      ensures forall r :: r in old(heap) ==> r in heap && heap[r] == old(heap)[r]
      ensures Copied(source, heap, src, ps, dst, old(next), next)
      decreases source.Keys - Elements(Originals(ps)), 0
    {
      if src.Prim? { return src; }
      var i := 0;
      while i < |ps| && ps[i].0 != src.r
        invariant i <= |ps| && forall j :: 0 <= j < i ==> ps[j].0 != src.r
      {
        i := i + 1;
      }
      if i < |ps| {
        assert Originals(ps)[i] == src.r;
        return Ref(ps[i].1);
      }
      var d := next;
      assert Originals(ps + [(src.r, d)]) == Originals(ps) + [src.r];
      Deeper(source, Originals(ps), src.r);
      heap, next := heap[d := heap[src.r]], next + 1;
      CloneUnder(src.r, d, ps + [(src.r, d)], keys, source);
      dst := Ref(d);
      CopiedFromKeys(source, heap, src.r, ps, d, d + 1, next);
    }

    method CloneUnder(r: nat, d: nat, ps: Pairs, keys: Order, ghost source: Heap)
      requires Valid() && Closed(source) && r in source && ListsAll(keys)
      requires (forall r :: r in source ==> r in heap && heap[r] == source[r]) && d !in source
      requires d in heap && heap[d].Keys == source[r].Keys && d < next
      modifies this
      ensures Valid() && old(next) <= next
      ensures forall x :: x in old(heap) && x != d ==> x in heap && heap[x] == old(heap)[x]
      ensures d in heap && heap[d].Keys == source[r].Keys
      ensures forall k :: k in source[r] ==> Copied(source, heap, source[r][k], ps, heap[d][k], old(next), next)
      decreases source.Keys - Elements(Originals(ps)), 1
    {
      hide Copied;
      var ks, k := keys(heap[r]), 0;
      while k < |ks|
        invariant k <= |ks| && Valid() && old(next) <= next
        invariant forall x :: x in old(heap) && x != d ==> x in heap && heap[x] == old(heap)[x]
        invariant d in heap && heap[d].Keys == source[r].Keys
        invariant forall j :: j in ks[..k] ==> j in source[r] && Copied(source, heap, source[r][j], ps, heap[d][j], old(next), next)
      {
        ghost var h, mid := heap, next;
        var c := Clone(heap[r][ks[k]], ps, keys, source);
        OneMoreKey(source, h, heap, r, ps, d, ks[..k], ks[k], c, old(next), mid, next);
        heap := heap[d := heap[d][ks[k] := c]];
        assert ks[..k] + [ks[k]] == ks[..k + 1];
        k := k + 1;
      }
    }
  }

  // ---------------------------------------------------------------- what a copy is

  /** The objects a copy is inside of are themselves copied inside of one another. */
  ghost predicate Enclosing(source: Heap, h: Heap, ps: Pairs, lo: nat, hi: nat)
    requires Closed(source)
  {
    && (forall i, j :: 0 <= i < j < |ps| ==> ps[i].0 != ps[j].0)
    && (forall i :: 0 <= i < |ps| ==> ps[i].0 in source && Copied(source, h, Ref(ps[i].0), ps[..i], Ref(ps[i].1), lo, hi))
  }

  /** Two values that look alike: the same primitive value, or a new object with the keys of an original. */
  ghost predicate Alike(source: Heap, h: Heap, v: Val, w: Val, lo: nat, hi: nat) {
    match v
    case Prim(_) => w == v
    case Ref(r) => r in source && w.Ref? && lo <= w.r < hi && w.r in h && h[w.r].Keys == source[r].Keys
  }

  /** One pace along a key, from a value and its copy to another value and its copy. */
  lemma {:induction false} Pace(source: Heap, h: Heap, src: Val, ps: Pairs, dst: Val, lo: nat, hi: nat) returns (qs: Pairs)
    requires Closed(source) && Here(source, src) && Copied(source, h, src, ps, dst, lo, hi) && Enclosing(source, h, ps, lo, hi)
    ensures Alike(source, h, src, dst, lo, hi)
    ensures src.Ref? ==> Enclosing(source, h, qs, lo, hi)
    ensures src.Ref? ==> forall k :: k in source[src.r] ==> Copied(source, h, source[src.r][k], qs, h[dst.r][k], lo, hi)
    ensures src.Ref? && src.r !in Originals(ps) ==> qs == ps + [(src.r, dst.r)]
  {
    qs := [];
    if src.Ref? {
      var base := ps;
      if src.r in Originals(ps) {
        var i :| 0 <= i < |ps| && ps[i] == (src.r, dst.r);
        base := ps[..i];
        assert forall j :: 0 <= j < i ==> base[j] == ps[j] && base[..j] == ps[..j];
        assert src.r !in Originals(base);
      }
      assert Copied(source, h, src, base, dst, lo, hi) && Enclosing(source, h, base, lo, hi);
      qs := base + [(src.r, dst.r)];
      OneDeeper(source, h, src.r, base, dst.r, lo, hi);
    }
  }

  lemma OneDeeper(source: Heap, h: Heap, r: nat, ps: Pairs, d: nat, lo: nat, hi: nat)
    requires Closed(source) && r in source && r !in Originals(ps)
    requires Copied(source, h, Ref(r), ps, Ref(d), lo, hi) && Enclosing(source, h, ps, lo, hi)
    ensures Enclosing(source, h, ps + [(r, d)], lo, hi)
    ensures d in h && h[d].Keys == source[r].Keys && lo <= d < hi
    ensures forall k :: k in source[r] ==> Copied(source, h, source[r][k], ps + [(r, d)], h[d][k], lo, hi)
  {
    var qs := ps + [(r, d)];
    assert forall i :: 0 <= i < |ps| ==> qs[i] == ps[i] && qs[..i] == ps[..i] && Originals(ps)[i] == ps[i].0;
    assert qs[..|ps|] == ps;
  }

  /** Every path leads to alike values in the original and in the copy, or to none in either, however often it
      goes around cycles; and all objects of the copy are new. */
  lemma {:induction false} SamePaths(source: Heap, h: Heap, src: Val, ps: Pairs, dst: Val, lo: nat, hi: nat, p: Path)
    requires Closed(source) && Here(source, src) && Copied(source, h, src, ps, dst, lo, hi) && Enclosing(source, h, ps, lo, hi)
    ensures Get(source, src, p).Some? <==> Get(h, dst, p).Some?
    ensures Get(source, src, p).Some? ==> Alike(source, h, Get(source, src, p).value, Get(h, dst, p).value, lo, hi)
    decreases |p|
  {
    hide Copied, Enclosing;
    var qs := Pace(source, h, src, ps, dst, lo, hi);
    if p != [] && src.Ref? && p[0] in source[src.r] {
      SamePaths(source, h, source[src.r][p[0]], qs, h[dst.r][p[0]], lo, hi, p[1..]);
    }
  }

  /** The objects a path goes through are all different, and none of some others. */
  predicate Simple(h: Heap, v: Val, p: Path, seen: seq<nat>)
    decreases |p|
  {
    p == [] || (v.Ref? && v.r in h && p[0] in h[v.r] && v.r !in seen && Simple(h, h[v.r][p[0]], p[1..], seen + [v.r]))
  }

  /** An edge to an object the path has gone through is an edge to its copy. */
  lemma {:induction false} BackEdge(source: Heap, h: Heap, src: Val, ps: Pairs, dst: Val, lo: nat, hi: nat, p: Path, i: nat)
    requires Closed(source) && Here(source, src) && Copied(source, h, src, ps, dst, lo, hi) && Enclosing(source, h, ps, lo, hi)
    requires Simple(source, src, p, Originals(ps)) && i < |ps| && Get(source, src, p) == Some(Ref(ps[i].0))
    ensures Get(h, dst, p) == Some(Ref(ps[i].1))
    decreases |p|
  {
    assert Originals(ps)[i] == ps[i].0;
    if p == [] {
      var j :| 0 <= j < |ps| && ps[j] == (src.r, dst.r);
    } else {
      hide Copied, Enclosing;
      var qs := Pace(source, h, src, ps, dst, lo, hi);
      assert Originals(qs) == Originals(ps) + [src.r];
      BackEdge(source, h, source[src.r][p[0]], qs, h[dst.r][p[0]], lo, hi, p[1..], i);
    }
  }

  lemma {:induction false} AncestorEdge(source: Heap, h: Heap, src: Val, ps: Pairs, dst: Val, lo: nat, hi: nat, q: Path, back: Path)
    requires Closed(source) && Here(source, src) && Copied(source, h, src, ps, dst, lo, hi) && Enclosing(source, h, ps, lo, hi)
    requires back != [] && Simple(source, src, q + back, Originals(ps))
    requires Get(source, src, q + back).Some? && Get(source, src, q + back) == Get(source, src, q)
    ensures Get(h, dst, q + back).Some? && Get(h, dst, q + back) == Get(h, dst, q)
    decreases |q|
  {
    hide Copied, Enclosing;
    var qs := Pace(source, h, src, ps, dst, lo, hi);
    assert Originals(qs) == Originals(ps) + [src.r];
    var p := q + back;
    if q == [] {
      assert p == back;
      assert qs[|ps|] == (src.r, dst.r);
      BackEdge(source, h, source[src.r][back[0]], qs, h[dst.r][back[0]], lo, hi, back[1..], |ps|);
    } else {
      assert p[1..] == q[1..] + back && p[0] == q[0];
      AncestorEdge(source, h, source[src.r][q[0]], qs, h[dst.r][q[0]], lo, hi, q[1..], back);
    }
  }

  /** A whole clone: unchanged original, new objects, the same paths, and the back edges of every simple path. */
  method CloneAll(heap: Heap, next: nat, root: Val, keys: Order) returns (after: Heap, copy: Val)
    requires Closed(heap) && Here(heap, root) && ListsAll(keys) && forall r :: r in heap ==> r < next
    ensures forall r :: r in heap ==> r in after && after[r] == heap[r]
    ensures forall p :: Get(heap, root, p).Some? <==> Get(after, copy, p).Some?
    ensures forall p :: Get(heap, root, p).Some? ==>
              match Get(heap, root, p).value
              case Prim(n) => Get(after, copy, p) == Some(Prim(n))
              case Ref(r) => Get(after, copy, p).value.Ref? && Get(after, copy, p).value.r !in heap
    ensures forall q, back :: back != [] && Simple(heap, root, q + back, []) && Get(heap, root, q + back).Some? && Get(heap, root, q + back) == Get(heap, root, q)
              ==> Get(after, copy, q + back) == Get(after, copy, q)
  {
    var objects := new Objects(heap, next);
    copy := objects.Clone(root, [], keys, heap);
    after := objects.heap;
    ghost var to := objects.next;
    hide Copied;
    forall p
      ensures Get(heap, root, p).Some? <==> Get(after, copy, p).Some?
      ensures Get(heap, root, p).Some? ==> Alike(heap, after, Get(heap, root, p).value, Get(after, copy, p).value, next, to)
    {
      SamePaths(heap, after, root, [], copy, next, to, p);
    }
    assert Originals([]) == [];
    forall q, back | back != [] && Simple(heap, root, q + back, []) && Get(heap, root, q + back).Some? && Get(heap, root, q + back) == Get(heap, root, q)
      ensures Get(after, copy, q + back) == Get(after, copy, q)
    {
      AncestorEdge(heap, after, root, [], copy, next, to, q, back);
    }
  }
}
