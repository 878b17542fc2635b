/** One dnode session: what its methods do to its stores and which messages it emits. */
module DnodeSessions {
  import opened JsArray
  import opened JsPaths
  import opened Scrubbing
  import opened JsObjects
  import opened ScrubWalks
  import opened DnodeProtocol

  /** A message as it is emitted: the arguments with `[Function]` in place of the functions, and the path of each function by its id. */
  datatype Wire = CallWire(target: Target, arguments: Value, callbacks: map<Id, Path>) | CullWire(id: Id)

  const FUNCTION := Str("[Function]")

  // ---------------------------------------------------------------- messages

  function Fns(cs: seq<Cursor>): (r: seq<Fn>)
    requires forall c :: c in cs ==> c.node.Func?
    ensures |r| == |cs| && forall i :: 0 <= i < |cs| ==> r[i] == cs[i].node.fn
  {
    seq(|cs|, i requires 0 <= i < |cs| => assert cs[i] in cs; cs[i].node.fn)
  }

  function PathsOf(cs: seq<Cursor>): (r: seq<Path>)
    ensures |r| == |cs| && forall i :: 0 <= i < |cs| ==> r[i] == cs[i].path
  {
    seq(|cs|, i requires 0 <= i < |cs| => cs[i].path)
  }

  /** Which path each id stands for. */
  function Callbacks(ids: seq<Id>, ps: seq<Path>): (r: map<Id, Path>)
    requires |ids| == |ps|
    ensures forall id :: id in r <==> id in ids
  {
    if ids == [] then map[] else Callbacks(ids[..|ids| - 1], ps[..|ps| - 1])[ids[|ids| - 1] := ps[|ps| - 1]]
  }

  lemma {:induction false} CallbackAt(ids: seq<Id>, ps: seq<Path>, i: nat)
    requires |ids| == |ps| && i < |ids| && Distinct(ids)
    ensures Callbacks(ids, ps)[ids[i]] == ps[i]
    decreases |ids|
  {
    if i < |ids| - 1 { CallbackAt(ids[..|ids| - 1], ps[..|ps| - 1], i); }
  }

  function Repeated<T>(n: nat, x: T): (r: seq<T>)
    ensures |r| == n
  {
    seq(n, _ => x)
  }

  /** What a session emits for a call with some arguments. */
  function Outgoing(p: Peer, target: Target, args: Value, keys: KeyOrder): (w: Wire)
    ensures w.CallWire?
  {
    var cs := Functions(Cursors(args, [], keys));
    CallWire(target, Fill(args, [], Assigned(PathsOf(cs), Repeated(|cs|, FUNCTION))),
             Callbacks(ScrubAll(p, Fns(cs)).1, PathsOf(cs)))
  }

  /** The ids of a message without repeats. */
  ghost predicate Lists(order: seq<Id>, callbacks: map<Id, Path>) {
    Distinct(order) && forall id :: id in order <==> id in callbacks
  }

  function Ids(order: seq<Id>): (r: set<Id>)
    ensures forall id :: id in r <==> id in order
  {
    set id | id in order
  }

  function Proxies(order: seq<Id>, proxy: Id -> Fn): (r: seq<Value>)
    ensures |r| == |order| && forall i :: 0 <= i < |order| ==> r[i] == Func(proxy(order[i]))
  {
    seq(|order|, i requires 0 <= i < |order| => Func(proxy(order[i])))
  }

  function Targets(order: seq<Id>, callbacks: map<Id, Path>): (r: seq<Path>)
    requires forall id :: id in order ==> id in callbacks
    ensures |r| == |order| && forall i :: 0 <= i < |order| ==> r[i] == callbacks[order[i]]
  {
    seq(|order|, i requires 0 <= i < |order| => callbacks[order[i]])
  }

  /** Unscrubbing the ids of a message in some order. */
  function Unscrubbed(arguments: Value, callbacks: map<Id, Path>, order: seq<Id>, proxy: Id -> Fn): (r: Option<Value>)
    requires arguments.Obj? && (forall id :: id in order ==> id in callbacks) && (forall id :: id in callbacks ==> callbacks[id] != [])
    ensures r.Some? ==> r.value.Obj?
  {
    SetAll(arguments, Targets(order, callbacks), Proxies(order, proxy))
  }

  // ---------------------------------------------------------------- the round trip

  /** What a message says: an id of its own for each function of the arguments, live at the sender for that
      very function, and its path. */
  lemma {:induction false} MessageMeans(p: Peer, target: Target, args: Value, keys: KeyOrder)
    requires StoreOk(p) && args.Obj? && ListsKeys(keys)
    ensures var cs := Functions(Cursors(args, [], keys));
            var (q, ids) := ScrubAll(p, Fns(cs));
            && Distinct(ids)
            && (forall path :: IsFn(args, path) <==> exists i :: 0 <= i < |cs| && cs[i].path == path)
            && (forall i :: 0 <= i < |ids| ==> ids[i] < |q.local| && q.local[ids[i]] == Some(cs[i].node.fn))
            && (forall id :: id in Outgoing(p, target, args, keys).callbacks <==> id in ids)
            && (forall i :: 0 <= i < |ids| ==> Outgoing(p, target, args, keys).callbacks[ids[i]] == cs[i].path)
            && (forall i :: 0 <= i < |cs| ==> cs[i].path != [])
  {
    hide IsFn, Functions, Cursors, ScrubAll, Fill, StoreOk;
    FunctionsMet(args, keys);
    var cs := Functions(Cursors(args, [], keys));
    ScrubKeeps(p, Fns(cs));
    var (q, ids) := ScrubAll(p, Fns(cs));
    forall i | 0 <= i < |ids| ensures Callbacks(ids, PathsOf(cs))[ids[i]] == cs[i].path { CallbackAt(ids, PathsOf(cs), i); }
  }

  /** Unscrubbing a scrubbed tree gives the tree with every function replaced by the proxy of its id, at exactly
      its path and with nothing else changed: if and only if no function lies behind an empty key. */
  lemma {:induction false} RoundTrip(p: Peer, target: Target, args: Value, keys: KeyOrder, order: seq<Id>, proxy: Id -> Fn)
    requires StoreOk(p) && args.Obj? && ListsKeys(keys) && Lists(order, Outgoing(p, target, args, keys).callbacks)
    ensures var cs, w := Functions(Cursors(args, [], keys)), Outgoing(p, target, args, keys);
            var proxies := Assigned(PathsOf(cs), Proxies(ScrubAll(p, Fns(cs)).1, proxy));
            && (forall id :: id in w.callbacks ==> w.callbacks[id] != [])
            && ((forall path :: IsFn(args, path) ==> Reached(path)) <==>
                Unscrubbed(w.arguments, w.callbacks, order, proxy) == Some(Fill(args, [], proxies)))
  {
    hide IsFn, Functions, Cursors, ScrubAll, Fill, StoreOk, Reached, SetAll, Callbacks, Assigned, PathsOf, Proxies, Targets, DistinctPaths, Fns;
    FunctionsMet(args, keys);
    MessageMeans(p, target, args, keys);
    var cs := Functions(Cursors(args, [], keys));
    var ids := ScrubAll(p, Fns(cs)).1;
    var callbacks := Callbacks(ids, PathsOf(cs));
    if forall path :: IsFn(args, path) ==> Reached(path) {
      AllReached(args, cs, ids, callbacks, order, proxy);
    } else {
      var path :| IsFn(args, path) && !Reached(path);
      OneUnreached(args, cs, ids, callbacks, order, proxy, path);
    }
  }

  // ---------------------------------------------------------------- behind an empty key

  /** An array of one object. */
  function Of(props: map<Key, Value>): (r: Value)
    ensures r.Obj?
  {
    Obj(Some(1), map[Index(0) := Obj(None, props)])
  }

  function HoldsF(v: Value): Value {
    Obj(None, map[Name("f") := v])
  }

  const PATH_OF_F: Path := [Index(0), EMPTY_KEY, Name("f")]

  /** `[{'': {f}}]`: the function goes out under the path 0, '', f and comes back beside the empty key. */
  lemma {:induction false} PutBesideEmptyKey(keys: KeyOrder, fn: Fn, proxy: Id -> Fn)
    requires ListsKeys(keys)
    ensures var args := Of(map[EMPTY_KEY := HoldsF(Func(fn))]);
            var w := Outgoing(INITIAL, Named, args, keys);
            && w.callbacks == map[0 := PATH_OF_F] && IsFn(args, PATH_OF_F) && !Reached(PATH_OF_F)
            && Unscrubbed(w.arguments, w.callbacks, [0], proxy) == Some(Of(map[EMPTY_KEY := HoldsF(FUNCTION), Name("f") := Func(proxy(0))]))
  {
    hide *;
    var args := Of(map[EMPTY_KEY := HoldsF(Func(fn))]);
    FunctionsBehind(args, keys, fn);
    OneScrubbed(fn);
    AtF(args, fn);
    BlankBehind(fn);
    SetBehind(proxy(0));
    OutgoingOne(INITIAL, args, keys, PATH_OF_F, fn, 0);
    UnscrubbedOne(Of(map[EMPTY_KEY := HoldsF(FUNCTION)]), PATH_OF_F, 0, proxy);
  }

  /** A message with one function. */
  lemma OutgoingOne(p: Peer, args: Value, keys: KeyOrder, path: Path, fn: Fn, id: Id)
    requires Functions(Cursors(args, [], keys)) == [Cursor(path, Func(fn))] && ScrubAll(p, [fn]).1 == [id]
    ensures Outgoing(p, Named, args, keys) == CallWire(Named, Fill(args, [], map[path := FUNCTION]), map[id := path])
  {
    hide Fill, Cursors, Functions, ScrubAll;
    var cs := [Cursor(path, Func(fn))];
    assert Fns(cs) == [fn] && PathsOf(cs) == [path];
    assert [id][..0] == [] && [path][..0] == [];
  }

  lemma UnscrubbedOne(arguments: Value, path: Path, id: Id, proxy: Id -> Fn)
    requires arguments.Obj? && path != []
    ensures Unscrubbed(arguments, map[id := path], [id], proxy) == SetAt(arguments, path, Func(proxy(id)))
  {
    hide SetAt;
    var ps, xs := Targets([id], map[id := path]), Proxies([id], proxy);
    assert ps == [path] && xs == [Func(proxy(id))];
    assert SetAll(arguments, ps[..|ps| - 1], xs[..|ps| - 1]) == Some(arguments);
  }

  lemma FunctionsBehind(args: Value, keys: KeyOrder, fn: Fn)
    requires ListsKeys(keys) && args == Of(map[EMPTY_KEY := HoldsF(Func(fn))])
    ensures Functions(Cursors(args, [], keys)) == [Cursor(PATH_OF_F, Func(fn))]
  {
    var inner := HoldsF(Func(fn));
    var mid := Obj(None, map[EMPTY_KEY := inner]);
    hide Below, Cursors, Functions, ListsKeys;
    OneChild(args, [], keys, Index(0), mid);
    OneChild(mid, [Index(0)], keys, EMPTY_KEY, inner);
    OneChild(inner, [Index(0), EMPTY_KEY], keys, Name("f"), Func(fn));
    NoChild(Func(fn), PATH_OF_F, keys);
    OnlyLast([Cursor([], args), Cursor([Index(0)], mid), Cursor([Index(0), EMPTY_KEY], inner)], Cursor(PATH_OF_F, Func(fn)));
    assert [] + [Index(0)] == [Index(0)] && [Index(0)] + [EMPTY_KEY] == [Index(0), EMPTY_KEY];
    assert [Index(0), EMPTY_KEY] + [Name("f")] == PATH_OF_F;
    assert Cursors(args, [], keys) ==
           [Cursor([], args), Cursor([Index(0)], mid), Cursor([Index(0), EMPTY_KEY], inner)] + [Cursor(PATH_OF_F, Func(fn))];
  }

  lemma NoChild(v: Value, at: Path, keys: KeyOrder)
    requires !v.Obj?
    ensures Cursors(v, at, keys) == [Cursor(at, v)]
  {
  }

  lemma OnlyLast(cs: seq<Cursor>, c: Cursor)
    requires c.node.Func? && forall d :: d in cs ==> !d.node.Func?
    ensures Functions(cs + [c]) == [c]
  {
    assert (cs + [c])[..|cs|] == cs;
    if Functions(cs) != [] { assert Functions(cs)[0] in Functions(cs); }
  }

  lemma OneChild(v: Value, at: Path, keys: KeyOrder, k: Key, x: Value)
    requires ListsKeys(keys) && v.Obj? && v.props == map[k := x]
    ensures Cursors(v, at, keys) == [Cursor(at, v)] + Cursors(x, at + [k], keys)
  {
    OnlyKey(keys, at, k);
    assert v.props.Keys == {k};
    assert [k][1..] == [] && Below(v, at, [], keys) == [];
  }

  lemma OnlyKey(keys: KeyOrder, at: Path, k: Key)
    requires ListsKeys(keys)
    ensures keys(at, {k}) == [k]
  {
    var ks := keys(at, {k});
    assert k in ks;
    if |ks| >= 2 { TwoDiffer(ks, k); }
    forall i | 0 <= i < |ks| ensures ks[i] == k { assert ks[i] in ks; }
  }

  lemma TwoDiffer(ks: seq<Key>, k: Key)
    requires |ks| >= 2 && ks[0] != ks[1]
    ensures exists i :: 0 <= i < |ks| && ks[i] != k
  {
    if ks[0] == k { assert ks[1] != k; }
  }

  lemma OneScrubbed(fn: Fn)
    ensures ScrubAll(INITIAL, [fn]).1 == [0]
  {
    assert [fn][..0] == [];
  }

  lemma AtF(args: Value, fn: Fn)
    requires args == Of(map[EMPTY_KEY := HoldsF(Func(fn))])
    ensures PATH_OF_F != [] && IsFn(args, PATH_OF_F) && !Reached(PATH_OF_F)
  {
    var rest, last := [EMPTY_KEY, Name("f")], [Name("f")];
    assert PATH_OF_F[1..] == rest && rest[1..] == last && last[1..] == [];
    StepInto(args, PATH_OF_F);
    StepInto(args.props[Index(0)], rest);
    StepInto(HoldsF(Func(fn)), last);
    assert PATH_OF_F[..2][1] == EMPTY_KEY;
  }

  lemma BlankBehind(fn: Fn)
    ensures Fill(Of(map[EMPTY_KEY := HoldsF(Func(fn))]), [], map[PATH_OF_F := FUNCTION]) == Of(map[EMPTY_KEY := HoldsF(FUNCTION)])
  {
    hide Fill;
    var m := map[PATH_OF_F := FUNCTION];
    FillChild(Some(1), Index(0), Obj(None, map[EMPTY_KEY := HoldsF(Func(fn))]), [], m);
    FillChild(None, EMPTY_KEY, HoldsF(Func(fn)), [Index(0)], m);
    FillChild(None, Name("f"), Func(fn), [Index(0), EMPTY_KEY], m);
    FillLeaf(fn, PATH_OF_F, m);
    assert [] + [Index(0)] == [Index(0)] && [Index(0)] + [EMPTY_KEY] == [Index(0), EMPTY_KEY];
    assert [Index(0), EMPTY_KEY] + [Name("f")] == PATH_OF_F;
  }

  lemma FillChild(length: Option<nat>, k: Key, x: Value, at: Path, m: map<Path, Value>)
    ensures Fill(Obj(length, map[k := x]), at, m) == Obj(length, map[k := Fill(x, at + [k], m)])
  {
  }

  lemma FillLeaf(fn: Fn, at: Path, m: map<Path, Value>)
    requires at in m
    ensures Fill(Func(fn), at, m) == m[at]
  {
  }

  lemma SetBehind(g: Fn)
    ensures SetAt(Of(map[EMPTY_KEY := HoldsF(FUNCTION)]), PATH_OF_F, Func(g)) ==
            Some(Of(map[EMPTY_KEY := HoldsF(FUNCTION), Name("f") := Func(g)]))
  {
    var mid := Obj(None, map[EMPTY_KEY := HoldsF(FUNCTION)]);
    var rest := [EMPTY_KEY, Name("f")];
    assert PATH_OF_F[1..] == rest;
    assert Step(mid, rest, Assign(Func(g))) == Some(Obj(None, map[EMPTY_KEY := HoldsF(FUNCTION), Name("f") := Func(g)])) by {
      assert mid.props[Name("f") := Func(g)] == map[EMPTY_KEY := HoldsF(FUNCTION), Name("f") := Func(g)];
    }
    var after := Obj(None, map[EMPTY_KEY := HoldsF(FUNCTION), Name("f") := Func(g)]);
    assert map[Index(0) := mid][Index(0) := after] == map[Index(0) := after];
  }

  /** What is expected at the path of each function. */
  lemma ProxyOfEach(cs: seq<Cursor>, ids: seq<Id>, proxy: Id -> Fn)
    requires DistinctPaths(cs) && |ids| == |cs|
    ensures var proxies := Assigned(PathsOf(cs), Proxies(ids, proxy));
            forall i :: 0 <= i < |cs| ==> cs[i].path in proxies && proxies[cs[i].path] == Func(proxy(ids[i]))
  {
    hide Assigned;
    PathsDistinct(cs);
    forall i | 0 <= i < |cs|
      ensures cs[i].path in PathsOf(cs) && Assigned(PathsOf(cs), Proxies(ids, proxy))[cs[i].path] == Func(proxy(ids[i]))
    {
      assert PathsOf(cs)[i] == cs[i].path;
      AssignedAt(PathsOf(cs), Proxies(ids, proxy), i);
    }
  }

  ghost predicate Carries(args: Value, cs: seq<Cursor>, ids: seq<Id>, callbacks: map<Id, Path>, order: seq<Id>) {
    && args.Obj? && |ids| == |cs| && Distinct(ids) && DistinctPaths(cs) && Lists(order, callbacks)
    && (forall path :: IsFn(args, path) <==> exists i :: 0 <= i < |cs| && cs[i].path == path)
    && (forall id :: id in callbacks <==> id in ids)
    && (forall i :: 0 <= i < |ids| ==> callbacks[ids[i]] == cs[i].path)
    && (forall i :: 0 <= i < |cs| ==> cs[i].path != [])
  }

  lemma FunctionOf(args: Value, cs: seq<Cursor>, ids: seq<Id>, callbacks: map<Id, Path>, order: seq<Id>, j: nat) returns (i: nat)
    requires Carries(args, cs, ids, callbacks, order) && j < |order|
    ensures i < |cs| && ids[i] == order[j] && callbacks[order[j]] == cs[i].path == Targets(order, callbacks)[j]
    ensures IsFn(args, cs[i].path)
  {
    hide IsFn;
    assert order[j] in callbacks;
    i :| 0 <= i < |ids| && ids[i] == order[j];
  }

  lemma TargetOf(args: Value, cs: seq<Cursor>, ids: seq<Id>, callbacks: map<Id, Path>, order: seq<Id>, i: nat) returns (j: nat)
    requires Carries(args, cs, ids, callbacks, order) && i < |cs|
    ensures j < |order| && ids[i] == order[j] && cs[i].path == Targets(order, callbacks)[j]
  {
    hide IsFn;
    assert ids[i] in order;
    j :| 0 <= j < |order| && ids[i] == order[j];
  }

  lemma TargetsDistinct(args: Value, cs: seq<Cursor>, ids: seq<Id>, callbacks: map<Id, Path>, order: seq<Id>)
    requires Carries(args, cs, ids, callbacks, order)
    ensures var ps := Targets(order, callbacks);
            && (forall j, k :: 0 <= j < k < |ps| ==> ps[j] != ps[k])
            && (forall j :: 0 <= j < |ps| ==> IsFn(args, ps[j]))
            && [] !in ps
  {
    hide IsFn;
    var ps := Targets(order, callbacks);
    forall j | 0 <= j < |ps| ensures IsFn(args, ps[j]) && ps[j] != [] {
      var i := FunctionOf(args, cs, ids, callbacks, order, j);
    }
    forall j, k | 0 <= j < k < |ps| ensures ps[j] != ps[k] {
      var i := FunctionOf(args, cs, ids, callbacks, order, j);
      var l := FunctionOf(args, cs, ids, callbacks, order, k);
      assert i < l || l < i;
    }
  }

  lemma PathsDistinct(cs: seq<Cursor>)
    requires DistinctPaths(cs)
    ensures forall j, k :: 0 <= j < k < |PathsOf(cs)| ==> PathsOf(cs)[j] != PathsOf(cs)[k]
  {
  }

  /** The values set for the ids in some order are those of the functions in the order they were met. */
  lemma SameAssigned(args: Value, cs: seq<Cursor>, ids: seq<Id>, callbacks: map<Id, Path>, order: seq<Id>, proxy: Id -> Fn, path: Path)
    requires Carries(args, cs, ids, callbacks, order) && IsFn(args, path)
    ensures var (n, r) := (Assigned(PathsOf(cs), Proxies(ids, proxy)), Assigned(Targets(order, callbacks), Proxies(order, proxy)));
            path in n && path in r && n[path] == r[path] && n[path].Func?
  {
    hide IsFn, Assigned;
    var i :| 0 <= i < |cs| && cs[i].path == path;
    var j := TargetOf(args, cs, ids, callbacks, order, i);
    TargetsDistinct(args, cs, ids, callbacks, order);
    PathsDistinct(cs);
    assert PathsOf(cs)[i] == path && Targets(order, callbacks)[j] == path;
    AssignedAt(PathsOf(cs), Proxies(ids, proxy), i);
    AssignedAt(Targets(order, callbacks), Proxies(order, proxy), j);
  }

  lemma {:induction false} AllReached(args: Value, cs: seq<Cursor>, ids: seq<Id>, callbacks: map<Id, Path>, order: seq<Id>, proxy: Id -> Fn)
    requires Carries(args, cs, ids, callbacks, order) && forall path :: IsFn(args, path) ==> Reached(path)
    ensures [] !in Targets(order, callbacks)
    ensures SetAll(Fill(args, [], Assigned(PathsOf(cs), Repeated(|cs|, FUNCTION))), Targets(order, callbacks), Proxies(order, proxy))
         == Some(Fill(args, [], Assigned(PathsOf(cs), Proxies(ids, proxy))))
  {
    hide *;
    CarriesShape(args, cs, ids, callbacks, order);
    var ps, xs := Targets(order, callbacks), Proxies(order, proxy);
    var m := Assigned(PathsOf(cs), Repeated(|cs|, FUNCTION));
    var n := Assigned(PathsOf(cs), Proxies(ids, proxy));
    TargetsDistinct(args, cs, ids, callbacks, order);
    FillObj(args, m);
    SetAllFills(args, m, ps, xs);
    forall path | IsFn(args, path)
      ensures path in n && path in Assigned(ps, xs) && n[path] == Assigned(ps, xs)[path]
    {
      SameAssigned(args, cs, ids, callbacks, order, proxy, path);
    }
    OverwrittenSame(args, m, Assigned(ps, xs), n);
  }

  lemma OverwrittenSame(args: Value, m: map<Path, Value>, r: map<Path, Value>, n: map<Path, Value>)
    requires forall path :: IsFn(args, path) ==> path in n && path in r && n[path] == r[path]
    ensures Fill(args, [], m + r) == Fill(args, [], n)
  {
    hide *;
    forall path | IsFn(args, path) ensures [] + path in m + r && [] + path in n && (m + r)[[] + path] == n[[] + path] {
      assert [] + path == path;
    }
    FillSame(args, [], m + r, n);
  }

  lemma CarriesShape(args: Value, cs: seq<Cursor>, ids: seq<Id>, callbacks: map<Id, Path>, order: seq<Id>)
    requires Carries(args, cs, ids, callbacks, order)
    ensures args.Obj? && |ids| == |cs| && forall id :: id in order ==> id in callbacks
  {
  }

  lemma {:induction false} OneUnreached(args: Value, cs: seq<Cursor>, ids: seq<Id>, callbacks: map<Id, Path>, order: seq<Id>, proxy: Id -> Fn, path: Path)
    requires Carries(args, cs, ids, callbacks, order) && IsFn(args, path) && !Reached(path)
    ensures [] !in Targets(order, callbacks)
    ensures SetAll(Fill(args, [], Assigned(PathsOf(cs), Repeated(|cs|, FUNCTION))), Targets(order, callbacks), Proxies(order, proxy))
         != Some(Fill(args, [], Assigned(PathsOf(cs), Proxies(ids, proxy))))
  {
    hide *;
    CarriesShape(args, cs, ids, callbacks, order);
    NotReached(args, cs, ids, callbacks, order, path);
    var v := Fill(args, [], Assigned(PathsOf(cs), Repeated(|cs|, FUNCTION)));
    FillObj(args, Assigned(PathsOf(cs), Repeated(|cs|, FUNCTION)));
    var w := Fill(args, [], Assigned(PathsOf(cs), Proxies(ids, proxy)));
    TargetsDistinct(args, cs, ids, callbacks, order);
    SameAssigned(args, cs, ids, callbacks, order, proxy, path);
    Blank(args, cs, ids, callbacks, order, path);
    ProxyAt(args, Assigned(PathsOf(cs), Proxies(ids, proxy)), path);
    if SetAll(v, Targets(order, callbacks), Proxies(order, proxy)).Some? {
      NeverSetAll(v, Targets(order, callbacks), Proxies(order, proxy), path);
    }
  }

  lemma NotReached(args: Value, cs: seq<Cursor>, ids: seq<Id>, callbacks: map<Id, Path>, order: seq<Id>, path: Path)
    requires Carries(args, cs, ids, callbacks, order) && IsFn(args, path) && !Reached(path)
    ensures Unreached(path)
  {
  }

  lemma FillObj(args: Value, m: map<Path, Value>)
    requires args.Obj?
    ensures Fill(args, [], m).Obj?
  {
  }

  lemma ProxyAt(args: Value, m: map<Path, Value>, path: Path)
    requires IsFn(args, path) && path in m && m[path].Func?
    ensures IsFn(Fill(args, [], m), path)
  {
    hide Fill;
    Filled(args, m, path);
  }

  lemma Blank(args: Value, cs: seq<Cursor>, ids: seq<Id>, callbacks: map<Id, Path>, order: seq<Id>, path: Path)
    requires Carries(args, cs, ids, callbacks, order) && IsFn(args, path)
    ensures !IsFn(Fill(args, [], Assigned(PathsOf(cs), Repeated(|cs|, FUNCTION))), path)
  {
    PathsDistinct(cs);
    var i :| 0 <= i < |cs| && cs[i].path == path;
    hide Carries, Assigned, Fill;
    assert PathsOf(cs)[i] == path;
    AssignedAt(PathsOf(cs), Repeated(|cs|, FUNCTION), i);
    Filled(args, Assigned(PathsOf(cs), Repeated(|cs|, FUNCTION)), path);
  }

  lemma Filled(args: Value, m: map<Path, Value>, path: Path)
    requires IsFn(args, path) && path in m
    ensures NodeAt(Fill(args, [], m), path) == Some(m[path])
  {
    FillNode(args, [], m, path);
    assert [] + path == path;
  }

  // ---------------------------------------------------------------- stores

  /** Functions by id. */
  class DnodeStore {
    var items: seq<Option<Fn>>

    constructor ()
      ensures items == []
    {
      items := [];
    }

    predicate Has(id: Id)
      reads this
    {
      At(items, id).Some?
    }

    method Add(fn: Fn) returns (id: Id)
      modifies this
      ensures id == |old(items)| && items == old(items) + [Some(fn)]
    {
      id := |items|;
      items := items + [Some(fn)];
    }

    /** Under an id of the caller's: the other ids hold what they held. */
    method AddAt(id: Id, fn: Fn)
      modifies this
      ensures forall i: Id :: At(items, i) == if i == id then Some(fn) else old(At(items, i))
    {
      items := JsArray.Put(items, id, Some(fn));
    }

    method Cull(id: Id)
      modifies this
      ensures items == if id < |old(items)| then old(items)[id := None] else old(items)
    {
      if id < |items| { items := items[id := None]; }
    }

    /** The first id of a function, or the length. */
    method Find(fn: Fn) returns (i: nat)
      ensures i == IndexOf(items, fn)
    {
      i := 0;
      while i < |items| && items[i] != Some(fn)
        invariant i <= |items| && forall k :: 0 <= k < i ==> items[k] != Some(fn)
      {
        i := i + 1;
      }
    }
  }

  // ---------------------------------------------------------------- sessions

  /** The ids a store holds. */
  function Held(items: seq<Option<Fn>>): (r: set<Id>)
    ensures forall id: Id :: id in r <==> At(items, id).Some?
  {
    set id | 0 <= id < |items| && items[id].Some?
  }

  ghost predicate Matches(w: Wire, m: Msg) {
    match w
    case CullWire(id) => m == Cull(id)
    case CallWire(target, _, callbacks) =>
      m.Call? && m.target == target && forall id :: id in callbacks <==> id in m.callbacks
  }

  /** The fields of a session. `given`, `sent` and `log` only record what has happened. */
  class DnodeSession {
    const localStore: DnodeStore
    const remoteStore: DnodeStore
    var times: map<Fn, int>
    var outbox: seq<Wire>
    var running: Option<Id>
    ghost var given: seq<Fn>
    ghost var sent: seq<Msg>
    ghost var log: seq<Event>

    ghost predicate Valid()
      reads this
    {
      && localStore != remoteStore
      && |outbox| == |sent| && forall k :: 0 <= k < |sent| ==> Matches(outbox[k], sent[k])
    }

    ghost function State(): Peer
      reads this, localStore, remoteStore
    {
      Peer(localStore.items, times, given, Held(remoteStore.items), running, sent, log)
    }

    constructor ()
      ensures Valid() && State() == INITIAL && outbox == []
      ensures fresh(localStore) && fresh(remoteStore)
    {
      localStore := new DnodeStore();
      remoteStore := new DnodeStore();
      times, outbox, running, given, sent, log := map[], [], None, [], [], [];
    }

    /** One step of the scrubber: the id for a function that is met. */
    method IdFor(fn: Fn, used: map<Id, Path>, ghost ids: seq<Id>) returns (id: Id)
      requires forall i :: i in used <==> i in ids
      requires localStore != remoteStore
      modifies this`times, this`given, localStore
      ensures (State(), id) == ScrubOne(old(State()), fn, ids)
    {
      var i := localStore.Find(fn);
      if i < |localStore.items| && i !in used {
        id := i;
      } else {
        times := times[fn := 1];
        id := localStore.Add(fn);
        given := given + [fn];
      }
    }

    /** `scrub`: the arguments are walked in copies, and then the functions met are replaced in the copies, one after the
        other, each under an id. The arguments themselves are as before. */
    method Scrub(root: JsObject, keys: KeyOrder, ghost args: Value, ghost layout: Layout)
      returns (out: JsObject, callbacks: map<Id, Path>, ghost ids: seq<Id>, ghost copies: Layout, ghost blank: Value)
      requires localStore != remoteStore && ListsKeys(keys)
      requires args.Obj? && [] in layout && layout[[]] == root && Shows(args, layout)
      modifies this`times, this`given, localStore
      ensures Scrubbed(old(State()), State(), args, Functions(Cursors(args, [], keys)), ids, callbacks, blank)
      ensures blank.Obj? && Holds(blank, copies) && [] in copies && copies[[]] == out && fresh(copies.Values)
      ensures Shows(args, layout) && forall o :: o in layout.Values ==> unchanged(o)
    {
      hide *;
      var queue;
      out, queue, copies := WalkObject(root, [], Root, keys, args, layout);
      ghost var cs := Cursors(args, [], keys);
      callbacks, ids, blank := map[], [], args;
      var k := 0;
      ScrubbedNone(State(), args);
      WalkedLength(queue, cs, [], Root, copies);
      assert cs[..0] == [];
      while k < |queue|
        invariant k <= |queue| == |cs| && localStore != remoteStore && fresh(copies.Values)
        invariant Scrubbed(old(State()), State(), args, Functions(cs[..k]), ids, callbacks, blank)
        invariant Holds(blank, copies) && blank.Obj? && [] in copies && copies[[]] == out
        invariant Shows(args, layout) && forall o :: o in layout.Values ==> unchanged(o)
      {
        QueueStep(args, keys, cs, k);
        WalkedCursor(queue, cs, copies, k);
        match queue[k].node {
          case Leaf(Func(fn)) =>
            ScrubbedIds(old(State()), State(), args, Functions(cs[..k]), ids, callbacks, blank);
            ScrubbedHere(old(State()), State(), args, Functions(cs[..k]), ids, callbacks, blank, cs[k]);
            ghost var p := State();
            var id := IdFor(fn, callbacks, ids);
            ScrubbedOne(old(State()), p, args, Functions(cs[..k]), ids, callbacks, blank, cs[k]);
            callbacks := callbacks[id := queue[k].path];
            Update(queue[k], FUNCTION, blank, copies);
            ghost var now := Replace(blank, queue[k].path, FUNCTION);
            ids, blank := ids + [id], now;
            StaysObject(old(State()), State(), args, Functions(cs[..k + 1]), ids, callbacks, blank);
          case _ =>
        }
        k := k + 1;
      }
      assert cs[..k] == cs;
    }

    /** A call is emitted. */
    method Request(target: Target, root: JsObject, keys: KeyOrder, ghost args: Value, ghost layout: Layout)
      requires Valid() && ListsKeys(keys)
      requires args.Obj? && [] in layout && layout[[]] == root && Shows(args, layout)
      modifies this`times, this`given, this`outbox, this`sent, localStore
      ensures Valid()
      ensures State() == Send(old(State()), target, Fns(Functions(Cursors(args, [], keys))))
      ensures outbox == old(outbox) + [Outgoing(old(State()), target, args, keys)]
      ensures Shows(args, layout) && forall o :: o in layout.Values ==> unchanged(o)
    {
      hide Cursors, Functions, Scrubbed, ScrubAll, ScrubOne, Send, Fns, PathsOf, Fill, Assigned, Callbacks, NodeAt, Held, Matches, Outgoing, Repeated, ListsKeys, Shows, Holds;
      var out, callbacks;
      ghost var ids, copies, blank;
      out, callbacks, ids, copies, blank := Scrub(root, keys, args, layout);
      HeldStands(blank, copies);
      var arguments := Serialize(Child(out), blank, copies);
      ScrubbedDone(old(State()), State(), args, ids, callbacks, blank, target, keys);
      outbox := outbox + [CallWire(target, arguments, callbacks)];
      sent := sent + [Call(target, ids)];
    }

    /** The ids of a message are given proxies and these are put in their places; None when a path leads
        through a primitive value. */
    method Unscrub(arguments: Value, callbacks: map<Id, Path>, proxy: Id -> Fn) returns (args: Option<Value>, ghost order: seq<Id>)
      requires localStore != remoteStore
      requires arguments.Obj? && forall id :: id in callbacks ==> callbacks[id] != []
      modifies remoteStore
      ensures forall id :: id in order ==> id in callbacks
      ensures args.Some? ==> Lists(order, callbacks)
      ensures args == Unscrubbed(arguments, callbacks, order, proxy)
      ensures Held(remoteStore.items) == old(Held(remoteStore.items)) + Ids(order)
    {
      hide SetAt, Held, Targets, Proxies, Distinct;
      var out, todo := arguments, callbacks.Keys;
      order := [];
      NothingSet(arguments, callbacks, proxy);
      while todo != {}
        invariant todo <= callbacks.Keys && out.Obj? && Distinct(order)
        invariant forall id :: id in order <==> id in callbacks && id !in todo
        invariant Some(out) == Unscrubbed(arguments, callbacks, order, proxy)
        invariant Held(remoteStore.items) == old(Held(remoteStore.items)) + Ids(order)
      {
        var id :| id in todo;
        HeldAt(remoteStore.items, id);
        if !remoteStore.Has(id) { remoteStore.AddAt(id, proxy(id)); }
        SetOneMore(arguments, callbacks, order, proxy, id, out);
        DistinctPush(order, id);
        var next := SetAt(out, callbacks[id], Func(proxy(id)));
        order := order + [id];
        if next.None? { return None, order; }
        out := next.value;
        todo := todo - {id};
      }
      args := Some(out);
    }

    /** A message arrives: its proxies are made, and a call of a live id starts its function. */
    method Handle(msg: Wire, proxy: Id -> Fn) returns (args: Option<Value>, ghost order: seq<Id>)
      requires Valid() && running.None?
      requires msg.CallWire? ==> msg.arguments.Obj? && forall id :: id in msg.callbacks ==> msg.callbacks[id] != []
      modifies this`running, this`log, remoteStore
      ensures Valid()
      ensures args.Some? || msg.CullWire? ==> forall m :: Matches(msg, m) ==> State() == Receive(old(State()), m)
      ensures msg.CallWire? ==> (forall id :: id in order ==> id in msg.callbacks) && args == Unscrubbed(msg.arguments, msg.callbacks, order, proxy)
      ensures msg.CallWire? && args.Some? ==> Lists(order, msg.callbacks)
      ensures msg.CallWire? && args.None? ==> State() == old(State()).(remote := old(State()).remote + Ids(order))
    {
      hide Unscrubbed, Lists;
      order, args := [], None;
      match msg {
        case CullWire(id) =>
          HeldCull(remoteStore.items, id);
          remoteStore.Cull(id);
        case CallWire(target, arguments, callbacks) =>
          args, order := Unscrub(arguments, callbacks, proxy);
          if args.Some? {
            forall m | Matches(msg, m) ensures m.Call? && m.target == target && Ids(order) == (set id | id in m.callbacks) { ListsIds(order, callbacks, m); }
            if target.Callback? && localStore.Has(target.id) {
              running := Some(target.id);
              log := log + [Started(target.id)];
            }
          }
      }
    }

    /** The function that was started returns: it may run once less, and is culled when that is used up. */
    method Return()
      requires Valid() && running.Some? && localStore.Has(running.value)
      modifies this`times, this`running, this`log, this`outbox, this`sent, localStore
      ensures Valid()
      ensures State() == Finish(old(State()))
      ensures outbox == if old(State()).local == State().local then old(outbox) else old(outbox) + [CullWire(old(running).value)]
    {
      hide Held;
      var id := running.value;
      var fn := localStore.items[id].value;
      running := None;
      log := log + [Finished(id)];
      if fn !in times { return; }
      times := times[fn := times[fn] - 1];
      if times[fn] > 0 { return; }
      localStore.Cull(id);
      outbox := outbox + [CullWire(id)];
      sent := sent + [Cull(id)];
    }

    /** The function that was started throws. */
    method Fail()
      requires Valid() && running.Some?
      modifies this`running, this`log
      ensures Valid() && State() == Throw(old(State()))
    {
      log := log + [Threw(running.value)];
      running := None;
    }

  }

  lemma WalkedLength(queue: seq<NodeCursor>, cs: seq<Cursor>, at: Path, place: Place, copies: Layout)
    requires Walked(queue, cs, at, place, copies)
    ensures |queue| == |cs|
  {
  }

  /** A cursor of the walk in memory is that of the tree. */
  lemma WalkedCursor(queue: seq<NodeCursor>, cs: seq<Cursor>, copies: Layout, k: nat)
    requires Walked(queue, cs, [], Root, copies) && k < |queue|
    ensures k < |cs| && queue[k].path == cs[k].path && PlacedAt(queue[k].place, queue[k].path, Root, copies)
    ensures if cs[k].node.Obj? then queue[k].node.Child? else queue[k].node == Leaf(cs[k].node)
  {
    assert cs[k].path[0..] == cs[k].path;
  }

  /** Where a function was met there is no object. */
  lemma ScrubbedHere(was: Peer, p: Peer, args: Value, cs: seq<Cursor>, ids: seq<Id>, callbacks: map<Id, Path>, out: Value, c: Cursor)
    requires Scrubbed(was, p, args, cs, ids, callbacks, out) && args.Obj? && c.node.Func? && NodeAt(args, c.path) == Some(c.node)
    ensures c.path != [] && NodeAt(out, c.path).Some? && !NodeAt(out, c.path).value.Obj? && !FUNCTION.Obj?
  {
    var m := Assigned(PathsOf(cs), Repeated(|cs|, FUNCTION));
    FillNode(args, [], m, c.path);
    BlankValues(PathsOf(cs), |cs|);
    assert [] + c.path == c.path;
  }

  lemma {:induction false} BlankValues(ps: seq<Path>, n: nat)
    requires |ps| == n
    ensures forall p :: p in Assigned(ps, Repeated(n, FUNCTION)) ==> Assigned(ps, Repeated(n, FUNCTION))[p] == FUNCTION
    decreases n
  {
    if n > 0 {
      BlankValues(ps[..n - 1], n - 1);
      assert Repeated(n, FUNCTION)[..n - 1] == Repeated(n - 1, FUNCTION);
    }
  }

  lemma StaysObject(was: Peer, p: Peer, args: Value, cs: seq<Cursor>, ids: seq<Id>, callbacks: map<Id, Path>, out: Value)
    requires Scrubbed(was, p, args, cs, ids, callbacks, out) && args.Obj?
    ensures out.Obj?
  {
  }

  lemma ListsIds(order: seq<Id>, callbacks: map<Id, Path>, m: Msg)
    requires Lists(order, callbacks) && m.Call? && forall id :: id in callbacks <==> id in m.callbacks
    ensures Ids(order) == (set id | id in m.callbacks)
  {
  }

  lemma HeldStands(v: Value, copies: Layout)
    requires v.Obj? && [] in copies && Holds(v, copies)
    ensures Stands(Child(copies[[]]), v, copies)
  {
  }

  lemma HeldAt(items: seq<Option<Fn>>, id: Id)
    ensures At(items, id).Some? ==> id in Held(items)
    ensures forall now: seq<Option<Fn>> :: (forall i: Id :: At(now, i).Some? <==> i == id || At(items, i).Some?) ==> Held(now) == Held(items) + {id}
  {
  }

  lemma HeldCull(items: seq<Option<Fn>>, id: Id)
    ensures Held(if id < |items| then items[id := None] else items) == Held(items) - {id}
  {
  }

  lemma NothingSet(arguments: Value, callbacks: map<Id, Path>, proxy: Id -> Fn)
    requires arguments.Obj? && forall id :: id in callbacks ==> callbacks[id] != []
    ensures Unscrubbed(arguments, callbacks, [], proxy) == Some(arguments) && Distinct([])
  {
  }

  lemma DistinctPush(order: seq<Id>, id: Id)
    requires Distinct(order) && id !in order
    ensures Distinct(order + [id])
  {
  }

  lemma SetOneMore(arguments: Value, callbacks: map<Id, Path>, order: seq<Id>, proxy: Id -> Fn, id: Id, out: Value)
    requires arguments.Obj? && (forall i :: i in order ==> i in callbacks) && (forall i :: i in callbacks ==> callbacks[i] != [])
    requires id in callbacks && out.Obj? && Unscrubbed(arguments, callbacks, order, proxy) == Some(out)
    ensures Unscrubbed(arguments, callbacks, order + [id], proxy) == SetAt(out, callbacks[id], Func(proxy(id)))
  {
    hide SetAt;
    var n, all := |order|, order + [id];
    assert Targets(all, callbacks)[..n] == Targets(order, callbacks) && Proxies(all, proxy)[..n] == Proxies(order, proxy);
  }

  /** What holds while the functions of the arguments are replaced. */
  ghost predicate Scrubbed(was: Peer, p: Peer, args: Value, cs: seq<Cursor>, ids: seq<Id>, callbacks: map<Id, Path>, out: Value) {
    && (forall c :: c in cs ==> c.node.Func?)
    && ScrubAll(was, Fns(cs)) == (p, ids)
    && |ids| == |cs| && callbacks == Callbacks(ids, PathsOf(cs))
    && out == Fill(args, [], Assigned(PathsOf(cs), Repeated(|cs|, FUNCTION)))
  }

  lemma ScrubbedNone(p: Peer, args: Value)
    ensures Functions([]) == [] && Scrubbed(p, p, args, Functions([]), [], map[], args)
  {
    FillNone(args, []);
  }

  lemma ScrubbedIds(was: Peer, p: Peer, args: Value, cs: seq<Cursor>, ids: seq<Id>, callbacks: map<Id, Path>, out: Value)
    requires Scrubbed(was, p, args, cs, ids, callbacks, out)
    ensures forall i :: i in callbacks <==> i in ids
  {
  }

  lemma ScrubbedDone(was: Peer, p: Peer, args: Value, ids: seq<Id>, callbacks: map<Id, Path>, out: Value, target: Target, keys: KeyOrder)
    requires Scrubbed(was, p, args, Functions(Cursors(args, [], keys)), ids, callbacks, out)
    ensures var cs := Functions(Cursors(args, [], keys));
            && Outgoing(was, target, args, keys) == CallWire(target, out, callbacks)
            && Send(was, target, Fns(cs)) == p.(sent := p.sent + [Call(target, ids)])
            && Matches(CallWire(target, out, callbacks), Call(target, ids))
  {
    hide Cursors, Functions, Fill, Assigned, ScrubAll, Fns, PathsOf, Repeated, Callbacks;
  }

  lemma QueueStep(args: Value, keys: KeyOrder, queue: seq<Cursor>, k: nat)
    requires queue == Cursors(args, [], keys) && k < |queue|
    ensures Functions(queue[..k + 1]) == if queue[k].node.Func? then Functions(queue[..k]) + [queue[k]] else Functions(queue[..k])
    ensures NodeAt(args, queue[k].path) == Some(queue[k].node)
  {
    assert queue[..k + 1][..k] == queue[..k];
    assert queue[k] in queue;
    WalkSound(args, [], keys, queue[k]);
    assert queue[k].path[0..] == queue[k].path;
  }

  lemma ScrubbedOne(was: Peer, p: Peer, args: Value, cs: seq<Cursor>, ids: seq<Id>, callbacks: map<Id, Path>, out: Value, c: Cursor)
    requires Scrubbed(was, p, args, cs, ids, callbacks, out) && c.node.Func? && NodeAt(args, c.path) == Some(c.node)
    ensures NodeAt(out, c.path).Some?
    ensures var (q, id) := ScrubOne(p, c.node.fn, ids);
            Scrubbed(was, q, args, cs + [c], ids + [id], callbacks[id := c.path], Replace(out, c.path, FUNCTION))
  {
    hide ScrubOne, Fill, Replace, Fns, PathsOf, Repeated, Functions, Cursors, Callbacks, ScrubAll, Assigned;
    var n := |cs|;
    var (q, id) := ScrubOne(p, c.node.fn, ids);
    CursorsPush(cs, c);
    ScrubPush(was, Fns(cs), c.node.fn);
    CallbacksPush(ids, PathsOf(cs), id, c.path);
    FunctionPush(PathsOf(cs), c.path);
    ReplaceFills(args, [], Assigned(PathsOf(cs), Repeated(n, FUNCTION)), c.path, FUNCTION);
    assert [] + c.path == c.path;
  }

  lemma CursorsPush(cs: seq<Cursor>, c: Cursor)
    requires (forall d :: d in cs ==> d.node.Func?) && c.node.Func?
    ensures Fns(cs + [c]) == Fns(cs) + [c.node.fn] && PathsOf(cs + [c]) == PathsOf(cs) + [c.path]
  {
  }

  lemma ScrubPush(p: Peer, fns: seq<Fn>, f: Fn)
    ensures var r := ScrubAll(p, fns); var s := ScrubOne(r.0, f, r.1); ScrubAll(p, fns + [f]) == (s.0, r.1 + [s.1])
  {
    hide ScrubOne;
    assert (fns + [f])[..|fns|] == fns;
  }

  lemma CallbacksPush(ids: seq<Id>, ps: seq<Path>, id: Id, p: Path)
    requires |ids| == |ps|
    ensures Callbacks(ids + [id], ps + [p]) == Callbacks(ids, ps)[id := p]
  {
    assert (ids + [id])[..|ids|] == ids && (ps + [p])[..|ids|] == ps;
  }

  lemma FunctionPush(ps: seq<Path>, p: Path)
    ensures Assigned(ps + [p], Repeated(|ps| + 1, FUNCTION)) == Assigned(ps, Repeated(|ps|, FUNCTION))[p := FUNCTION]
  {
    hide Assigned, Repeated;
    AssignedOne(ps, Repeated(|ps|, FUNCTION), p, FUNCTION);
    SamePush(|ps|, FUNCTION);
  }

  lemma AssignedOne(ps: seq<Path>, xs: seq<Value>, p: Path, x: Value)
    requires |ps| == |xs|
    ensures Assigned(ps + [p], xs + [x]) == Assigned(ps, xs)[p := x]
  {
    assert (ps + [p])[..|ps|] == ps && (xs + [x])[..|ps|] == xs;
  }

  lemma SamePush<T>(n: nat, x: T)
    ensures Repeated(n + 1, x) == Repeated(n, x) + [x]
  {
  }
}
