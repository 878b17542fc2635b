/** Taking the functions out of a tree of values, and putting others back in their places. */
module Scrubbing {
  import opened JsArray
  import opened JsPaths

  /** `Object.keys`: all keys of an object, in an order of its own for the object at each path. */
  type KeyOrder = (Path, set<Key>) -> seq<Key>

  ghost predicate ListsKeys(keys: KeyOrder) {
    forall at, ks ::
      && (forall k :: k in keys(at, ks) <==> k in ks)
      && (forall i, j :: 0 <= i < j < |keys(at, ks)| ==> keys(at, ks)[i] != keys(at, ks)[j])
  }

  datatype Cursor = Cursor(path: Path, node: Value)

  // ---------------------------------------------------------------- the walk

  /** The nodes of a tree as a walk meets them: parents first. */
  function Cursors(v: Value, at: Path, keys: KeyOrder): seq<Cursor>
    decreases v, 1, 0
  {
    [Cursor(at, v)] + if v.Obj? then Below(v, at, keys(at, v.props.Keys), keys) else []
  }

  function Below(v: Value, at: Path, ks: seq<Key>, keys: KeyOrder): seq<Cursor>
    requires v.Obj?
    decreases v, 0, |ks|
  {
    if ks == [] then []
    else (if ks[0] in v.props then Cursors(v.props[ks[0]], at + [ks[0]], keys) else []) + Below(v, at, ks[1..], keys)
  }

  function Functions(cs: seq<Cursor>): (r: seq<Cursor>)
    ensures forall c :: c in r <==> c in cs && c.node.Func?
  {
    if cs == [] then [] else Functions(cs[..|cs| - 1]) + if cs[|cs| - 1].node.Func? then [cs[|cs| - 1]] else []
  }

  /** The node at the end of a path of own keys. */
  function NodeAt(v: Value, p: Path): Option<Value>
    decreases |p|
  {
    if p == [] then Some(v)
    else if v.Obj? && p[0] in v.props then NodeAt(v.props[p[0]], p[1..])
    else None
  }

  ghost predicate IsFn(v: Value, p: Path) {
    NodeAt(v, p).Some? && NodeAt(v, p).value.Func?
  }

  lemma {:induction false} WalkMeets(v: Value, at: Path, keys: KeyOrder, p: Path)
    requires ListsKeys(keys) && NodeAt(v, p).Some?
    ensures Cursor(at + p, NodeAt(v, p).value) in Cursors(v, at, keys)
    decreases |p|
  {
    if p == [] {
      assert at + p == at;
    } else {
      var k := p[0];
      WalkMeets(v.props[k], at + [k], keys, p[1..]);
      assert at + [k] + p[1..] == at + p;
      BelowHas(v, at, keys(at, v.props.Keys), keys, k, Cursor(at + p, NodeAt(v, p).value));
    }
  }

  lemma {:induction false} BelowHas(v: Value, at: Path, ks: seq<Key>, keys: KeyOrder, k: Key, c: Cursor)
    requires v.Obj? && k in ks && k in v.props && c in Cursors(v.props[k], at + [k], keys)
    ensures c in Below(v, at, ks, keys)
    decreases |ks|
  {
    if ks[0] != k {
      assert k in ks[1..];
      BelowHas(v, at, ks[1..], keys, k, c);
    }
  }

  lemma {:induction false} WalkSound(v: Value, at: Path, keys: KeyOrder, c: Cursor)
    requires c in Cursors(v, at, keys)
    ensures at <= c.path && NodeAt(v, c.path[|at|..]) == Some(c.node)
    decreases v, 1, 0
  {
    if c != Cursor(at, v) { BelowSound(v, at, keys(at, v.props.Keys), keys, c); }
  }

  lemma {:induction false} BelowSound(v: Value, at: Path, ks: seq<Key>, keys: KeyOrder, c: Cursor)
    requires v.Obj? && c in Below(v, at, ks, keys)
    ensures |at| < |c.path| && at <= c.path && c.path[|at|] in ks && NodeAt(v, c.path[|at|..]) == Some(c.node)
    decreases v, 0, |ks|
  {
    if ks[0] in v.props && c in Cursors(v.props[ks[0]], at + [ks[0]], keys) {
      WalkSound(v.props[ks[0]], at + [ks[0]], keys, c);
      assert c.path[|at|..][1..] == c.path[|at| + 1..];
      assert c.path[..|at|] == c.path[..|at| + 1][..|at|] == at;
    } else {
      BelowSound(v, at, ks[1..], keys, c);
    }
  }

  ghost predicate DistinctPaths(cs: seq<Cursor>) {
    forall i, j :: 0 <= i < j < |cs| ==> cs[i].path != cs[j].path
  }

  /** No node is met twice. */
  lemma {:induction false} WalkOnce(v: Value, at: Path, keys: KeyOrder)
    requires ListsKeys(keys)
    ensures DistinctPaths(Cursors(v, at, keys))
    decreases v, 1, 0
  {
    if v.Obj? {
      var below := Below(v, at, keys(at, v.props.Keys), keys);
      BelowOnce(v, at, keys(at, v.props.Keys), keys);
      forall c | c in below ensures c.path != at { BelowSound(v, at, keys(at, v.props.Keys), keys, c); }
    }
  }

  lemma {:induction false} BelowOnce(v: Value, at: Path, ks: seq<Key>, keys: KeyOrder)
    requires v.Obj? && ListsKeys(keys) && forall i, j :: 0 <= i < j < |ks| ==> ks[i] != ks[j]
    ensures DistinctPaths(Below(v, at, ks, keys))
    decreases v, 0, |ks|
  {
    if ks != [] && ks[0] in v.props {
      var first, rest := Cursors(v.props[ks[0]], at + [ks[0]], keys), Below(v, at, ks[1..], keys);
      WalkOnce(v.props[ks[0]], at + [ks[0]], keys);
      BelowOnce(v, at, ks[1..], keys);
      forall c, d | c in first && d in rest ensures c.path != d.path {
        WalkSound(v.props[ks[0]], at + [ks[0]], keys, c);
        BelowSound(v, at, ks[1..], keys, d);
        assert c.path[|at|] == ks[0];
      }
    } else if ks != [] {
      BelowOnce(v, at, ks[1..], keys);
    }
  }

  lemma {:induction false} FilterOnce(cs: seq<Cursor>)
    requires DistinctPaths(cs)
    ensures DistinctPaths(Functions(cs))
    decreases |cs|
  {
    if cs != [] {
      var init, last := cs[..|cs| - 1], cs[|cs| - 1];
      FilterOnce(init);
      forall c | c in Functions(init) ensures c.path != last.path {
        var i :| 0 <= i < |init| && init[i] == c;
        assert cs[i] == c;
      }
    }
  }

  /** The functions met are exactly those of the tree, each at a path of its own. */
  lemma {:induction false} FunctionsMet(v: Value, keys: KeyOrder)
    requires ListsKeys(keys)
    ensures var fs := Functions(Cursors(v, [], keys));
            && DistinctPaths(fs)
            && (forall p :: IsFn(v, p) <==> exists i :: 0 <= i < |fs| && fs[i].path == p)
            && (forall i :: 0 <= i < |fs| ==> NodeAt(v, fs[i].path) == Some(fs[i].node) && fs[i].node.Func?)
  {
    var cs := Cursors(v, [], keys);
    var fs := Functions(cs);
    hide Cursors, Functions, NodeAt, ListsKeys, DistinctPaths;
    WalkOnce(v, [], keys);
    FilterOnce(cs);
    forall i | 0 <= i < |fs| ensures NodeAt(v, fs[i].path) == Some(fs[i].node) && fs[i].node.Func? {
      assert fs[i] in fs;
      WalkSound(v, [], keys, fs[i]);
      assert fs[i].path[0..] == fs[i].path;
    }
    forall p | IsFn(v, p) ensures exists i :: 0 <= i < |fs| && fs[i].path == p {
      WalkMeets(v, [], keys, p);
      assert [] + p == p;
      var c := Cursor(p, NodeAt(v, p).value);
      assert c in fs;
      var i :| 0 <= i < |fs| && fs[i] == c;
    }
  }

  // ---------------------------------------------------------------- replacing functions

  /** The tree with the functions at some of its paths replaced, and all else as it is. */
  function Fill(v: Value, at: Path, m: map<Path, Value>): (r: Value) {
    match v
    case Func(_) => if at in m then m[at] else v
    case Obj(length, props) => Obj(length, map k | k in props :: Fill(props[k], at + [k], m))
    case _ => v
  }

  /** `parent.node[key] = x` at the end of a path. */
  function Replace(v: Value, p: Path, x: Value): Value
    requires NodeAt(v, p).Some?
    decreases |p|
  {
    if p == [] then x else Obj(v.length, v.props[p[0] := Replace(v.props[p[0]], p[1..], x)])
  }

  lemma {:induction false} FillOther(v: Value, at: Path, m: map<Path, Value>, q: Path, x: Value)
    requires !(at <= q)
    ensures Fill(v, at, m[q := x]) == Fill(v, at, m)
  {
    if v.Obj? {
      forall k | k in v.props ensures Fill(v.props[k], at + [k], m[q := x]) == Fill(v.props[k], at + [k], m) {
        FillOther(v.props[k], at + [k], m, q, x);
      }
    }
  }

  lemma {:induction false} FillNode(v: Value, at: Path, m: map<Path, Value>, p: Path)
    requires NodeAt(v, p).Some?
    ensures NodeAt(Fill(v, at, m), p) == Some(Fill(NodeAt(v, p).value, at + p, m))
    decreases |p|
  {
    if p == [] {
      assert at + p == at;
    } else {
      FillNode(v.props[p[0]], at + [p[0]], m, p[1..]);
      assert at + [p[0]] + p[1..] == at + p;
    }
  }

  /** Replacing one function more. */
  lemma {:induction false} ReplaceFills(v: Value, at: Path, m: map<Path, Value>, p: Path, x: Value)
    requires IsFn(v, p)
    ensures NodeAt(Fill(v, at, m), p).Some?
    ensures Replace(Fill(v, at, m), p, x) == Fill(v, at, m[at + p := x])
    decreases |p|
  {
    FillNode(v, at, m, p);
    if p == [] {
      assert at + p == at;
    } else {
      var q := at + p;
      assert at + [p[0]] + p[1..] == q;
      ReplaceFills(v.props[p[0]], at + [p[0]], m, p[1..], x);
      hide Replace;
      FillRest(v, at, m, q, x);
      ReplaceFirst(Fill(v, at, m), p, x);
    }
  }

  lemma ReplaceFirst(v: Value, p: Path, x: Value)
    requires p != [] && NodeAt(v, p).Some?
    ensures NodeAt(v.props[p[0]], p[1..]).Some?
    ensures Replace(v, p, x) == Obj(v.length, v.props[p[0] := Replace(v.props[p[0]], p[1..], x)])
  {
  }

  lemma FillRest(v: Value, at: Path, m: map<Path, Value>, q: Path, x: Value)
    requires v.Obj? && |at| < |q|
    ensures forall k :: k in v.props && k != q[|at|] ==> Fill(v.props[k], at + [k], m[q := x]) == Fill(v.props[k], at + [k], m)
  {
    forall k | k in v.props && k != q[|at|]
      ensures Fill(v.props[k], at + [k], m[q := x]) == Fill(v.props[k], at + [k], m)
    {
      assert (at + [k])[|at|] != q[|at|];
      FillOther(v.props[k], at + [k], m, q, x);
    }
  }

  /** What replaces the functions of a tree decides the outcome. */
  lemma {:induction false} FillSame(v: Value, at: Path, m: map<Path, Value>, n: map<Path, Value>)
    requires forall p :: IsFn(v, p) ==> (at + p in m <==> at + p in n) && (at + p in m ==> m[at + p] == n[at + p])
    ensures Fill(v, at, m) == Fill(v, at, n)
  {
    if v.Func? {
      assert IsFn(v, []) && at + [] == at;
    } else if v.Obj? {
      forall k | k in v.props ensures Fill(v.props[k], at + [k], m) == Fill(v.props[k], at + [k], n) {
        forall p | IsFn(v.props[k], p)
          ensures (at + [k] + p in m <==> at + [k] + p in n) && (at + [k] + p in m ==> m[at + [k] + p] == n[at + [k] + p])
        {
          assert ([k] + p)[1..] == p && IsFn(v, [k] + p);
          assert at + [k] + p == at + ([k] + p);
        }
        FillSame(v.props[k], at + [k], m, n);
      }
    }
  }

  lemma {:induction false} FillNone(v: Value, at: Path)
    ensures Fill(v, at, map[]) == v
  {
    if v.Obj? {
      forall k | k in v.props ensures Fill(v.props[k], at + [k], map[]) == v.props[k] { FillNone(v.props[k], at + [k]); }
      assert Fill(v, at, map[]).props == v.props;
    }
  }

  // ---------------------------------------------------------------- all functions

  /** Values for paths; the later one where a path occurs twice. */
  function Assigned(ps: seq<Path>, xs: seq<Value>): (r: map<Path, Value>)
    requires |ps| == |xs|
    ensures forall p :: p in r <==> p in ps
  {
    if ps == [] then map[] else Assigned(ps[..|ps| - 1], xs[..|ps| - 1])[ps[|ps| - 1] := xs[|ps| - 1]]
  }

  lemma {:induction false} AssignedAt(ps: seq<Path>, xs: seq<Value>, i: nat)
    requires |ps| == |xs| && i < |ps| && forall j, k :: 0 <= j < k < |ps| ==> ps[j] != ps[k]
    ensures Assigned(ps, xs)[ps[i]] == xs[i]
    decreases |ps|
  {
    if i < |ps| - 1 { AssignedAt(ps[..|ps| - 1], xs[..|ps| - 1], i); }
  }

  /** Unscrubbing: a value is set at every path in turn. */
  function SetAll(v: Value, ps: seq<Path>, xs: seq<Value>): (r: Option<Value>)
    requires v.Obj? && |ps| == |xs| && [] !in ps
    ensures r.Some? ==> r.value.Obj?
  {
    if ps == [] then Some(v)
    else
      match SetAll(v, ps[..|ps| - 1], xs[..|ps| - 1])
      case None => None
      case Some(w) => SetAt(w, ps[|ps| - 1], xs[|ps| - 1])
  }

  /** `setAt` gets to the end of a path when no key before the last is empty. */
  predicate Reached(p: Path) {
    p != [] && EMPTY_KEY !in p[..|p| - 1]
  }

  lemma {:induction false} SetIsReplace(v: Value, p: Path, x: Value)
    requires v.Obj? && Reached(p) && NodeAt(v, p).Some?
    ensures SetAt(v, p, x) == Some(Replace(v, p, x))
    decreases |p|
  {
    if |p| > 1 {
      assert p[..|p| - 1][0] == p[0] && p[1..][..|p[1..]| - 1] == p[..|p| - 1][1..];
      assert v.props[p[0]].Obj?;
      SetIsReplace(v.props[p[0]], p[1..], x);
    } else {
      assert p[1..] == [];
    }
  }

  lemma {:induction false} SetAllFills(v: Value, m: map<Path, Value>, ps: seq<Path>, xs: seq<Value>)
    requires v.Obj? && |ps| == |xs| && [] !in ps && forall i :: 0 <= i < |ps| ==> IsFn(v, ps[i]) && Reached(ps[i])
    ensures SetAll(Fill(v, [], m), ps, xs) == Some(Fill(v, [], m + Assigned(ps, xs)))
    decreases |ps|
  {
    if ps == [] {
      assert m + map[] == m;
    } else {
      hide Fill, SetAt, Replace, IsFn, NodeAt, Reached;
      var init, p := ps[..|ps| - 1], ps[|ps| - 1];
      var ys := xs[..|ps| - 1];
      SetAllFills(v, m, init, ys);
      SetOneFills(v, m + Assigned(init, ys), p, xs[|ps| - 1]);
      AssignedPush(m, ps, xs);
    }
  }

  lemma AssignedPush(m: map<Path, Value>, ps: seq<Path>, xs: seq<Value>)
    requires |ps| == |xs| > 0
    ensures (m + Assigned(ps[..|ps| - 1], xs[..|ps| - 1]))[ps[|ps| - 1] := xs[|ps| - 1]] == m + Assigned(ps, xs)
  {
  }

  lemma SetOneFills(v: Value, m: map<Path, Value>, p: Path, x: Value)
    requires v.Obj? && IsFn(v, p) && Reached(p)
    ensures SetAt(Fill(v, [], m), p, x) == Some(Fill(v, [], m[p := x]))
  {
    hide SetAt, NodeAt;
    ReplaceFills(v, [], m, p, x);
    SetIsReplace(Fill(v, [], m), p, x);
    assert [] + p == p;
  }

  // ---------------------------------------------------------------- empty keys

  /** A path that `setAt` does not follow to its end. */
  predicate Unreached(p: Path) {
    p != [] && EMPTY_KEY in p[..|p| - 1]
  }

  /** No `setAt` ever puts a function where a path leads through an empty key. */
  lemma {:induction false} NeverSet(v: Value, q: Path, x: Value, p: Path)
    requires v.Obj? && q != [] && x.Func? && Unreached(p) && !IsFn(v, p) && SetAt(v, q, x).Some?
    ensures !IsFn(SetAt(v, q, x).value, p)
    decreases |q|
  {
    var w := SetAt(v, q, x).value;
    var k := if |q| == 1 || q[0] == EMPTY_KEY then q[|q| - 1] else q[0];
    if p[0] != k {
      assert p[0] in w.props ==> p[0] in v.props && w.props[p[0]] == v.props[p[0]];
    } else if |q| == 1 || q[0] == EMPTY_KEY {
      assert |p[1..]| > 0 && w.props[k] == x && NodeAt(x, p[1..]) == None;
    } else {
      assert |p| > 1;
      assert p[..|p| - 1] == [p[0]] + p[1..][..|p[1..]| - 1];
      var c := Prop(v, k);
      match EntryOf(c, Assign(x)) {
        case Enter(obj) =>
          assert !IsFn(obj, p[1..]) by { if Nullish(c) { assert p[1..] != []; } }
          NeverSet(obj, q[1..], x, p[1..]);
          assert w.props[k] == SetAt(obj, q[1..], x).value;
      }
    }
  }

  lemma {:induction false} NeverSetAll(v: Value, ps: seq<Path>, xs: seq<Value>, p: Path)
    requires v.Obj? && |ps| == |xs| && [] !in ps && Unreached(p) && !IsFn(v, p)
    requires (forall i :: 0 <= i < |xs| ==> xs[i].Func?) && SetAll(v, ps, xs).Some?
    ensures !IsFn(SetAll(v, ps, xs).value, p)
    decreases |ps|
  {
    if ps != [] {
      var n := |ps| - 1;
      NeverSetAll(v, ps[..n], xs[..n], p);
      NeverSet(SetAll(v, ps[..n], xs[..n]).value, ps[n], xs[n], p);
    }
  }
}
