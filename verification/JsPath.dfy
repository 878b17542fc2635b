/** Reading and writing inside nested JavaScript objects along paths of keys. */
module JsPaths {
  import opened JsArray

  /** A property key; canonical numerals, which are the indices of an array, are told apart from names.
      Keys that objects inherit, and the `length` of an array, are not used as keys. */
  datatype Key = Index(n: nat) | Name(s: string)

  const EMPTY_KEY := Name("")

  type Path = seq<Key>

  /** A JavaScript value. A function is known by its identity; an object owns its properties, and has a length when it is an array. */
  datatype Value =
    | Undefined | Null | Bool(b: bool) | Num(n: int) | NaN | Str(s: string)
    | Func(fn: nat)
    | Obj(length: Option<nat>, props: map<Key, Value>)

  const EMPTY := Obj(None, map[])

  /** `ref[key]` */
  function Prop(ref: Value, key: Key): Value {
    match ref
    case Obj(_, props) => if key in props then props[key] else Undefined
    case Str(s) => if key.Index? && key.n < |s| then Str([s[key.n]]) else Undefined
    case _ => Undefined
  }

  /** `ref[key] = value` for an object: an array grows to hold the index. */
  function Put(ref: Value, key: Key, value: Value): (r: Value)
    requires ref.Obj?
    ensures r.Obj? && forall k :: Prop(r, k) == if k == key then value else Prop(ref, k)
  {
    Obj(if ref.length.Some? && key.Index? && key !in ref.props then Some(Max(ref.length.value, key.n + 1)) else ref.length,
        ref.props[key := value])
  }

  /** The indices of an array are below its length. */
  predicate Dense(ref: Value) {
    ref.Obj? && (ref.length.Some? ==> forall k :: k in ref.props && k.Index? ==> k.n < ref.length.value)
  }

  /** An array grows just as far as to hold the index. */
  lemma PutGrows(ref: Value, key: Key, value: Value)
    requires Dense(ref)
    ensures var r := Put(ref, key, value);
            && Dense(r)
            && (ref.length.None? ==> r.length.None?)
            && (ref.length.Some? ==> r.length == Some(if key.Index? then Max(ref.length.value, key.n + 1) else ref.length.value))
  {
  }

  /** `delete ref[key]` */
  function Drop(ref: Value, key: Key): (r: Value)
    requires ref.Obj?
    ensures r.Obj? && forall k :: Prop(r, k) == if k == key then Undefined else Prop(ref, k)
  {
    ref.(props := ref.props - {key})
  }

  predicate Nullish(v: Value) { v.Undefined? || v.Null? }

  // ---------------------------------------------------------------- getAt

  /** Reading stops at a missing value, and at an empty key. */
  function GetAt(ref: Value, path: Path): Value
    decreases |path|
  {
    if Nullish(ref) || path == [] || path[0] == EMPTY_KEY then ref
    else GetAt(Prop(ref, path[0]), path[1..])
  }

  method ReadAt(obj: Value, path: Path) returns (ref: Value)
    ensures ref == GetAt(obj, path)
  {
    ref := obj;
    var k := 0;
    while !Nullish(ref) && k < |path| && path[k] != EMPTY_KEY
      invariant k <= |path| && GetAt(ref, path[k..]) == GetAt(obj, path)
    {
      assert path[k..][1..] == path[k + 1..];
      ref := Prop(ref, path[k]);
      k := k + 1;
    }
  }

  // ---------------------------------------------------------------- setAt and deleteAt

  /** What is done at the end of the path. */
  datatype Effect = Assign(value: Value) | Remove

  function Apply(ref: Value, key: Key, e: Effect): (r: Value)
    requires ref.Obj?
    ensures r.Obj?
  {
    match e
    case Assign(v) => Put(ref, key, v)
    case Remove => Drop(ref, key)
  }

  /** The object that is entered under a key: assigning creates it where there is none. */
  datatype Entry = Enter(obj: Value) | Missing | Blocked

  function EntryOf(child: Value, e: Effect): (r: Entry)
    ensures r.Enter? ==> r.obj.Obj?
  {
    if Nullish(child) then (if e.Assign? then Enter(EMPTY) else Missing)
    else if child.Obj? then Enter(child)
    else Blocked
  }

  /** `setAt` and `deleteAt`: objects are entered as far as the last key or an empty one. Deleting ends where
      an object is missing; a primitive value, or a function, on the way is an error and nothing changes. */
  function Step(ref: Value, path: Path, e: Effect): (r: Option<Value>)
    requires ref.Obj? && path != []
    ensures r.Some? ==> r.value.Obj?
    decreases |path|
  {
    if |path| == 1 || path[0] == EMPTY_KEY then Some(Apply(ref, path[|path| - 1], e))
    else
      match EntryOf(Prop(ref, path[0]), e)
      case Blocked => None
      case Missing => Some(ref)
      case Enter(obj) =>
        match Step(obj, path[1..], e)
        case None => None
        case Some(changed) => Some(Put(ref, path[0], changed))
  }

  function SetAt(ref: Value, path: Path, value: Value): Option<Value>
    requires ref.Obj? && path != []
  {
    Step(ref, path, Assign(value))
  }

  function DeleteAt(ref: Value, path: Path): Option<Value>
    requires ref.Obj? && path != []
  {
    Step(ref, path, Remove)
  }

  // ---------------------------------------------------------------- laws of one path

  predicate Clean(path: Path) { path != [] && EMPTY_KEY !in path }

  /** What was written is read back; what was deleted is gone. */
  lemma {:induction false} StepRead(ref: Value, path: Path, e: Effect)
    requires ref.Obj? && Clean(path) && Step(ref, path, e).Some?
    ensures GetAt(Step(ref, path, e).value, path) == match e
                                                     case Assign(v) => v
                                                     case Remove => if NullAbove(ref, path) then Null else Undefined
    decreases |path|
  {
    var r := Step(ref, path, e).value;
    if |path| > 1 {
      match EntryOf(Prop(ref, path[0]), e) {
        case Missing => ReadMissing(Prop(ref, path[0]), path[1..]);
        case Enter(obj) =>
          StepRead(obj, path[1..], e);
          if e.Remove? { assert obj == Prop(ref, path[0]); }
      }
    } else {
      assert path[1..] == [];
    }
  }

  lemma ReadMissing(v: Value, path: Path)
    requires Nullish(v)
    ensures GetAt(v, path) == v && !NullAbove(v, path)
    decreases |path|
  {
    if |path| > 1 { ReadMissing(Undefined, path[1..]); }
  }

  /** Whether null is met on the way to the end of a path. */
  predicate NullAbove(ref: Value, path: Path)
    decreases |path|
  {
    |path| > 1 && (Prop(ref, path[0]) == Null || NullAbove(Prop(ref, path[0]), path[1..]))
  }

  /** Only the last of several writes to a path counts. */
  lemma {:induction false} StepTwice(ref: Value, path: Path, v: Value, e: Effect)
    requires ref.Obj? && Clean(path) && SetAt(ref, path, v).Some?
    requires e.Assign?
    ensures Step(SetAt(ref, path, v).value, path, e) == Step(ref, path, e)
    decreases |path|
  {
    if |path| > 1 {
      match EntryOf(Prop(ref, path[0]), e)
      case Enter(obj) =>
        StepTwice(obj, path[1..], v, e);
        PutTwice(ref, path[0], SetAt(obj, path[1..], v).value, Step(obj, path[1..], e));
    } else {
      PutTwice(ref, path[0], v, Some(e.value));
    }
  }

  lemma PutTwice(ref: Value, key: Key, v: Value, w: Option<Value>)
    requires ref.Obj?
    ensures w.Some? ==> Put(Put(ref, key, v), key, w.value) == Put(ref, key, w.value)
  {
  }

  /** The end of a path exists. */
  predicate Has(ref: Value, path: Path) {
    ref.Obj? && path != [] && path[0] in ref.props && (|path| == 1 || Has(ref.props[path[0]], path[1..]))
  }

  /** Writing back what is there changes nothing. */
  lemma {:induction false} StepSame(ref: Value, path: Path)
    requires Clean(path) && Has(ref, path)
    ensures SetAt(ref, path, GetAt(ref, path)) == Some(ref)
    decreases |path|
  {
    var k := path[0];
    assert ref.props[k := ref.props[k]] == ref.props;
    if |path| > 1 {
      StepSame(ref.props[k], path[1..]);
    } else {
      assert GetAt(ref.props[k], path[1..]) == ref.props[k];
    }
  }

  // ---------------------------------------------------------------- laws of two paths

  /** Neither path leads through the end of the other. */
  predicate Apart(p: Path, q: Path) {
    !(p <= q) && !(q <= p)
  }

  lemma ApartRest(p: Path, q: Path)
    requires Apart(p, q)
    ensures p != [] && q != []
    ensures p[0] == q[0] ==> Apart(p[1..], q[1..]) && |p| > 1 && |q| > 1
  {
    if p[0] == q[0] {
      assert p == [p[0]] + p[1..] && q == [q[0]] + q[1..];
    }
  }

  /** Whether null is met on the way that two paths share. */
  predicate NullShared(ref: Value, p: Path, q: Path)
    decreases |p|
  {
    |p| > 1 && |q| > 1 && p[0] == q[0] &&
    (Prop(ref, p[0]) == Null || NullShared(Prop(ref, p[0]), p[1..], q[1..]))
  }

  /** Said by the common beginnings of the two paths. */
  lemma {:induction false} NullSharedMeans(ref: Value, p: Path, q: Path)
    requires ref.Obj? && Clean(p) && Clean(q)
    ensures NullShared(ref, p, q) <==>
            exists n :: 0 < n < |p| && n < |q| && p[..n] == q[..n] && GetAt(ref, p[..n]) == Null
    decreases |p|
  {
    if |p| > 1 && |q| > 1 && p[0] == q[0] {
      var c := Prop(ref, p[0]);
      if c == Null {
        assert p[..1] == q[..1] && p[..1][1..] == [];
        assert GetAt(ref, p[..1]) == GetAt(c, []);
      } else {
        forall n | 0 < n < |p| && n < |q|
          ensures p[..n] == q[..n] <==> p[1..][..n - 1] == q[1..][..n - 1]
          ensures GetAt(ref, p[..n]) == GetAt(c, p[1..][..n - 1])
        {
          assert p[..n] == [p[0]] + p[1..][..n - 1] && q[..n] == [q[0]] + q[1..][..n - 1];
          assert p[..n][1..] == p[1..][..n - 1];
        }
        if c.Obj? {
          NullSharedMeans(c, p[1..], q[1..]);
          if m :| 0 < m < |p[1..]| && m < |q[1..]| && p[1..][..m] == q[1..][..m] && GetAt(c, p[1..][..m]) == Null {
            assert p[..m + 1] == q[..m + 1] && GetAt(ref, p[..m + 1]) == Null;
          }
          if n :| 0 < n < |p| && n < |q| && p[..n] == q[..n] && GetAt(ref, p[..n]) == Null {
            assert GetAt(c, p[1..][..n - 1]) == Null && (n - 1 > 0);
          }
        } else {
          forall n: nat | n < |p[1..]| ensures GetAt(c, p[1..][..n]) != Null { NoNullInside(c, p[1..][..n]); }
          NoNullShared(c, p[1..], q[1..]);
        }
      }
    } else {
      forall n | 0 < n < |p| && n < |q| ensures p[..n] != q[..n] { assert p[..n][0] == p[0] && q[..n][0] == q[0]; }
    }
  }

  lemma NoNullInside(c: Value, p: Path)
    requires !c.Obj? && !c.Null?
    ensures GetAt(c, p) != Null
    decreases |p|
  {
    if p != [] && !Nullish(c) && p[0] != EMPTY_KEY { NoNullInside(Prop(c, p[0]), p[1..]); }
  }

  lemma NoNullShared(c: Value, p: Path, q: Path)
    requires !c.Obj? && !c.Null?
    ensures !NullShared(c, p, q)
    decreases |p|
  {
    if |p| > 1 && |q| > 1 { NoNullShared(Prop(c, p[0]), p[1..], q[1..]); }
  }

  /** Writing along one path is seen on no other, but for a null on the shared way that it replaced by an object. */
  lemma {:induction false} StepFrame(ref: Value, p: Path, e: Effect, q: Path)
    requires ref.Obj? && Clean(p) && Clean(q) && Apart(p, q) && Step(ref, p, e).Some?
    ensures GetAt(Step(ref, p, e).value, q) ==
            if e.Assign? && NullShared(ref, p, q) then Undefined else GetAt(ref, q)
    ensures NullShared(ref, p, q) ==> GetAt(ref, q) == Null
    decreases |p|
  {
    ApartRest(p, q);
    if p[0] == q[0] {
      var c := Prop(ref, p[0]);
      match EntryOf(c, e) {
        case Missing => SharedMissing(c, p[1..], q[1..]);
        case Enter(obj) =>
          StepFrame(obj, p[1..], e, q[1..]);
          if Nullish(c) {
            SharedMissing(c, p[1..], q[1..]);
            SharedEmpty(p[1..], q[1..]);
          }
      }
    }
  }

  lemma SharedMissing(c: Value, p: Path, q: Path)
    requires Nullish(c)
    ensures GetAt(c, q) == c && !NullShared(c, p, q)
    decreases |p|
  {
    if |p| > 1 && |q| > 1 { SharedMissing(Undefined, p[1..], q[1..]); }
  }

  lemma SharedEmpty(p: Path, q: Path)
    ensures !NullShared(EMPTY, p, q)
    ensures Clean(q) ==> GetAt(EMPTY, q) == Undefined
  {
    if |p| > 1 && |q| > 1 { SharedMissing(Undefined, p[1..], q[1..]); }
  }

  /** One step and then another, where the first succeeds. */
  function StepThen(first: Option<Value>, p: Path, e: Effect): Option<Value>
    requires (first.Some? ==> first.value.Obj?) && p != []
  {
    match first
    case None => None
    case Some(ref) => Step(ref, p, e)
  }

  /** Steps along paths that are apart commute: with each other, and with failing. */
  lemma {:induction false} StepsCommute(ref: Value, p: Path, e: Effect, q: Path, f: Effect)
    requires ref.Obj? && Clean(p) && Clean(q) && Apart(p, q)
    ensures StepThen(Step(ref, p, e), q, f) == StepThen(Step(ref, q, f), p, e)
    decreases |p|
  {
    ApartRest(p, q);
    if p[0] == q[0] {
      SameKeyCommute(ref, p, e, q, f);
    } else {
      hide Step, Put, Drop;
      OneKey(ref, p, e);
      OneKey(ref, q, f);
      if Step(ref, p, e).Some? { OneKey(Step(ref, p, e).value, q, f); }
      if Step(ref, q, f).Some? { OneKey(Step(ref, q, f).value, p, e); }
      var x, y := ChangeOf(Prop(ref, p[0]), p, e), ChangeOf(Prop(ref, q[0]), q, f);
      if x.Some? && y.Some? { ChangesCommute(ref, p[0], x.value, q[0], y.value); }
    }
  }

  /** What a step does to the object it starts from, which depends on the value under the first key only. */
  datatype Change = PutThere(v: Value) | DropThere | Nothing

  function ChangeOf(child: Value, path: Path, e: Effect): Option<Change>
    requires path != []
  {
    if |path| == 1 then Some(match e case Assign(v) => PutThere(v) case Remove => DropThere)
    else
      match EntryOf(child, e)
      case Blocked => None
      case Missing => Some(Nothing)
      case Enter(obj) =>
        match Step(obj, path[1..], e)
        case None => None
        case Some(changed) => Some(PutThere(changed))
  }

  function Changed(ref: Value, key: Key, c: Change): (r: Value)
    requires ref.Obj?
    ensures r.Obj?
  {
    match c
    case PutThere(v) => Put(ref, key, v)
    case DropThere => Drop(ref, key)
    case Nothing => ref
  }

  lemma OneKey(ref: Value, path: Path, e: Effect)
    requires ref.Obj? && Clean(path)
    ensures Step(ref, path, e) == match ChangeOf(Prop(ref, path[0]), path, e)
                                  case None => None
                                  case Some(c) => Some(Changed(ref, path[0], c))
    ensures Step(ref, path, e).Some? ==> forall k :: k != path[0] ==> Prop(Step(ref, path, e).value, k) == Prop(ref, k)
  {
  }

  lemma ChangesCommute(ref: Value, k: Key, c: Change, l: Key, d: Change)
    requires ref.Obj? && k != l
    ensures Changed(Changed(ref, k, c), l, d) == Changed(Changed(ref, l, d), k, c)
  {
    hide Prop;
    match (c, d) {
      case (PutThere(v), PutThere(w)) => PutsCommute(ref, k, v, l, w);
      case (PutThere(v), DropThere) => PutDropCommute(ref, k, v, l);
      case (DropThere, PutThere(w)) => PutDropCommute(ref, l, w, k);
      case (DropThere, DropThere) => assert Drop(Drop(ref, k), l).props == Drop(Drop(ref, l), k).props;
      case _ =>
    }
  }

  lemma PutsCommute(ref: Value, k: Key, v: Value, l: Key, w: Value)
    requires ref.Obj? && k != l
    ensures Put(Put(ref, k, v), l, w) == Put(Put(ref, l, w), k, v)
  {
    hide Prop;
    assert Put(Put(ref, k, v), l, w).props == Put(Put(ref, l, w), k, v).props;
  }

  lemma PutDropCommute(ref: Value, k: Key, v: Value, l: Key)
    requires ref.Obj? && k != l
    ensures Drop(Put(ref, k, v), l) == Put(Drop(ref, l), k, v)
  {
    hide Prop;
    assert Drop(Put(ref, k, v), l).props == Put(Drop(ref, l), k, v).props;
  }

  lemma {:induction false} SameKeyCommute(ref: Value, p: Path, e: Effect, q: Path, f: Effect)
    requires ref.Obj? && Clean(p) && Clean(q) && Apart(p, q) && p[0] == q[0] && |p| > 1 && |q| > 1
    ensures StepThen(Step(ref, p, e), q, f) == StepThen(Step(ref, q, f), p, e)
    decreases |p|, 0
  {
    ApartRest(p, q);
    var k, c := p[0], Prop(ref, p[0]);
    if !Nullish(c) {
      if c.Obj? {
        StepsCommute(c, p[1..], e, q[1..], f);
        Inside(ref, p, e, q, f, c);
        Inside(ref, q, f, p, e, c);
      }
    } else {
      StepsCommute(EMPTY, p[1..], e, q[1..], f);
      if e.Assign? && f.Assign? {
        Inside(ref, p, e, q, f, EMPTY);
        Inside(ref, q, f, p, e, EMPTY);
      } else if e.Assign? {
        RemoveFromEmpty(q[1..]);
        Inside(ref, p, e, q, f, EMPTY);
      } else if f.Assign? {
        RemoveFromEmpty(p[1..]);
        Inside(ref, q, f, p, e, EMPTY);
      }
    }
  }

  /** Two steps that enter the same object. */
  lemma Inside(ref: Value, p: Path, e: Effect, q: Path, f: Effect, obj: Value)
    requires ref.Obj? && Clean(p) && Clean(q) && p[0] == q[0] && |p| > 1 && |q| > 1
    requires EntryOf(Prop(ref, p[0]), e) == Enter(obj)
    ensures StepThen(Step(ref, p, e), q, f) == match StepThen(Step(obj, p[1..], e), q[1..], f)
                                               case None => None
                                               case Some(v) => Some(Put(ref, p[0], v))
  {
    var s := Step(obj, p[1..], e);
    if s.Some? {
      var t := Step(s.value, q[1..], f);
      assert Step(ref, p, e) == Some(Put(ref, p[0], s.value));
      hide Put;
      PutTwice(ref, p[0], s.value, t);
    }
  }

  lemma RemoveFromEmpty(q: Path)
    requires Clean(q)
    ensures Step(EMPTY, q, Remove) == Some(EMPTY)
  {
    assert EMPTY.props - {q[|q| - 1]} == EMPTY.props;
  }

  /** The shared way is null after a step only where it was before, and no longer once a step has assigned. */
  lemma {:induction false} SharedFrame(ref: Value, p: Path, e: Effect, q: Path, r: Path)
    requires ref.Obj? && Clean(p) && Clean(q) && Clean(r) && Apart(p, q) && Apart(p, r) && Step(ref, p, e).Some?
    ensures NullShared(Step(ref, p, e).value, q, r) ==> NullShared(ref, q, r)
    decreases |p|
  {
    var s := Step(ref, p, e).value;
    if |q| > 1 && |r| > 1 && q[0] == r[0] {
      ApartRest(p, q);
      ApartRest(p, r);
      if p[0] == q[0] {
        var c := Prop(ref, p[0]);
        match EntryOf(c, e) {
          case Missing =>
          case Enter(obj) =>
            SharedFrame(obj, p[1..], e, q[1..], r[1..]);
            if Nullish(c) { SharedEmpty(q[1..], r[1..]); }
        }
      }
    }
  }
}
