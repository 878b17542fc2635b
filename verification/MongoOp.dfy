/** Document update operators over nested paths, and when their order does not matter. */
module MongoOps {
  import opened JsArray
  import opened JsPaths

  /** One field of an operator. */
  datatype Op =
    | SetField(path: Path, value: Value)
    | Unset(path: Path)
    | Inc(path: Path, amount: int)
    | Push(path: Path, value: Value)
    | PushAll(path: Path, values: seq<Value>)
    | Pop(path: Path)
    | AddToSet(path: Path, value: Value)
    | Rename(path: Path, to: Path)

  /** The comparison of values that `$addToSet` uses. */
  type Same = (Value, Value) -> bool

  const EACH := Name("$each")

  // ---------------------------------------------------------------- arrays

  predicate IsArray(v: Value) { v.Obj? && v.length.Some? }

  /** What a loop over an array or a string sees; other values have no length. */
  function Items(v: Value): seq<Value> {
    if IsArray(v) then seq(v.length.value, i requires 0 <= i => Prop(v, Index(i)))
    else if v.Str? then seq(|v.s|, i requires 0 <= i < |v.s| => Str([v.s[i]]))
    else []
  }

  function Pushed(a: Value, v: Value): (r: Value)
    requires IsArray(a)
    ensures IsArray(r) && Items(r) == Items(a) + [v]
  {
    var n := a.length.value;
    var r := Obj(Some(n + 1), a.props[Index(n) := v]);
    assert forall i :: 0 <= i < n ==> Items(r)[i] == Items(a)[i];
    r
  }

  function PushedAll(a: Value, vs: seq<Value>): (r: Value)
    requires IsArray(a)
    ensures IsArray(r) && Items(r) == Items(a) + vs
    decreases |vs|
  {
    if vs == [] then a else PushedAll(Pushed(a, vs[0]), vs[1..])
  }

  function Popped(a: Value): (r: Value)
    requires IsArray(a)
    ensures IsArray(r) && Items(r) == if Items(a) == [] then [] else Items(a)[..|Items(a)| - 1]
  {
    var n := a.length.value;
    if n == 0 then a else Obj(Some(n - 1), a.props - {Index(n - 1)})
  }

  // ---------------------------------------------------------------- $addToSet

  predicate Found(items: seq<Value>, v: Value, same: Same) {
    exists i :: 0 <= i < |items| && same(items[i], v)
  }

  /** A value is pushed unless it is found; None where there is nothing to push to. */
  function Added(collection: Value, v: Value, same: Same): (r: Option<Value>) {
    if Found(Items(collection), v, same) then Some(collection)
    else if IsArray(collection) then Some(Pushed(collection, v))
    else None
  }

  function AddedAll(collection: Value, vs: seq<Value>, same: Same): Option<Value>
    decreases |vs|
  {
    if vs == [] then Some(collection)
    else
      match Added(collection, vs[0], same)
      case None => None
      case Some(c) => AddedAll(c, vs[1..], same)
  }

  /** The values a field of `$addToSet` stands for; None where reading `$each` fails. */
  function Members(v: Value): Option<seq<Value>> {
    if Nullish(v) then None
    else if Nullish(Prop(v, EACH)) then Some([v])
    else Some(Items(Prop(v, EACH)))
  }

  /** No two entries are the same. */
  ghost predicate NoRepeats(items: seq<Value>, same: Same) {
    forall i, j :: 0 <= i < j < |items| ==> !same(items[i], items[j])
  }

  /** An array without repeats stays so; what it held stays in place, only values of the field are new, and each value of the field
      is found in it. */
  lemma {:induction false} AddedAllKeeps(a: Value, vs: seq<Value>, same: Same)
    requires IsArray(a) && NoRepeats(Items(a), same)
    ensures AddedAll(a, vs, same).Some?
    ensures var r := AddedAll(a, vs, same).value;
            && IsArray(r) && NoRepeats(Items(r), same)
            && Items(a) <= Items(r)
            && (forall i :: |Items(a)| <= i < |Items(r)| ==> Items(r)[i] in vs)
            && (forall v :: v in vs && same(v, v) ==> Found(Items(r), v, same))
    decreases |vs|
  {
    if vs != [] {
      var c := Added(a, vs[0], same).value;
      hide Items;
      AddedAllKeeps(c, vs[1..], same);
      var r := AddedAll(a, vs, same).value;
      assert |Items(a)| <= |Items(c)| <= |Items(a)| + 1;
      forall v | v in vs && same(v, v) ensures Found(Items(r), v, same) {
        if v == vs[0] {
          assert Found(Items(c), v, same) by {
            if Items(c) != Items(a) { assert Items(c)[|Items(a)|] == v; }
          }
          var i :| 0 <= i < |Items(c)| && same(Items(c)[i], v);
          assert same(Items(r)[i], v);
        } else {
          assert v in vs[1..];
        }
      }
    }
  }

  /** The loops of `$addToSet`. */
  method AddEach(collection: Value, vs: seq<Value>, same: Same) returns (r: Option<Value>)
    ensures r == AddedAll(collection, vs, same)
  {
    var c := collection;
    var k := 0;
    while k < |vs|
      invariant k <= |vs| && AddedAll(c, vs[k..], same) == AddedAll(collection, vs, same)
    {
      assert vs[k..][0] == vs[k] && vs[k..][1..] == vs[k + 1..];
      var items, i := Items(c), 0;
      while i < |items| && !same(items[i], vs[k])
        invariant i <= |items| && forall j :: 0 <= j < i ==> !same(items[j], vs[k])
      {
        i := i + 1;
      }
      if i == |items| {
        if !IsArray(c) { return None; }
        c := Pushed(c, vs[k]);
      }
      k := k + 1;
    }
    return Some(c);
  }

  // ---------------------------------------------------------------- what an update does

  /** `val += amt` for a number: null counts as 0, a missing value is not a number. Texts and objects,
      which would be joined as text, are not part of the model. */
  function Plus(v: Value, amount: int): Option<Value> {
    match v
    case Undefined => Some(NaN)
    case NaN => Some(NaN)
    case Null => Some(Num(amount))
    case Num(n) => Some(Num(n + amount))
    case Bool(b) => Some(Num(if b then amount + 1 else amount))
    case _ => None
  }

  /** The steps an update takes, given what it reads at its path; None when it fails. An array that
      changes in place is written back to its path. */
  function Plan(op: Op, read: Value, same: Same): (r: Option<seq<(Path, Effect)>>) {
    match op
    case SetField(path, value) => Some([(path, Assign(value))])
    case Unset(path) => Some([(path, Remove)])
    case Inc(path, amount) => (match Plus(read, amount) case None => None case Some(v) => Some([(path, Assign(v))]))
    case Push(path, value) => if IsArray(read) then Some([(path, Assign(Pushed(read, value)))]) else None
    case PushAll(path, values) => if IsArray(read) then Some([(path, Assign(PushedAll(read, values)))]) else None
    case Pop(path) => if IsArray(read) then Some([(path, Assign(Popped(read)))]) else None
    case AddToSet(path, value) =>
      var collection := if Nullish(read) then Obj(Some(0), map[]) else read;
      (match Members(value)
       case None => None
       case Some(vs) =>
         match AddedAll(collection, vs, same)
         case None => None
         case Some(v) => Some(if v == read then [] else [(path, Assign(v))]))
    case Rename(path, to) => Some([(path, Remove), (to, Assign(read))])
  }

  function Steps(o: Value, steps: seq<(Path, Effect)>): (r: Option<Value>)
    requires o.Obj? && forall s :: s in steps ==> s.0 != []
    ensures r.Some? ==> r.value.Obj?
    decreases |steps|
  {
    if steps == [] then Some(o)
    else
      match Step(o, steps[0].0, steps[0].1)
      case None => None
      case Some(m) => Steps(m, steps[1..])
  }

  predicate OpClean(op: Op) {
    Clean(op.path) && (op.Rename? ==> Clean(op.to) && Apart(op.path, op.to))
  }

  function Exec(o: Value, op: Op, same: Same): (r: Option<Value>)
    requires o.Obj? && OpClean(op)
    ensures r.Some? ==> r.value.Obj?
  {
    match Plan(op, GetAt(o, op.path), same)
    case None => None
    case Some(steps) => Steps(o, steps)
  }

  /** `applyTo`: all updates in the order of the operation; None as soon as one fails. */
  function Run(o: Value, ops: seq<Op>, same: Same): (r: Option<Value>)
    requires o.Obj? && forall op :: op in ops ==> OpClean(op)
    ensures r.Some? ==> r.value.Obj?
    decreases |ops|
  {
    if ops == [] then Some(o)
    else
      match Exec(o, ops[0], same)
      case None => None
      case Some(m) => Run(m, ops[1..], same)
  }

  /** What an update that fails leaves of its target: `$rename` has deleted, and `$addToSet` without a value has
      made its array. */
  function Halfway(o: Value, op: Op): (r: Value)
    requires o.Obj? && OpClean(op)
  {
    match op
    case Rename(path, _) => Tried(o, path, Remove)
    case AddToSet(path, value) =>
      if Nullish(GetAt(o, path)) && Nullish(value) then Tried(o, path, Assign(Obj(Some(0), map[]))) else o
    case _ => o
  }

  function Tried(o: Value, path: Path, e: Effect): Value
    requires o.Obj? && path != []
  {
    var r := Step(o, path, e);
    if r.Some? then r.value else o
  }

  lemma {:induction false} RunOneMore(o: Value, ops: seq<Op>, op: Op, same: Same)
    requires o.Obj? && (forall p :: p in ops ==> OpClean(p)) && OpClean(op)
    ensures Run(o, ops + [op], same) == match Run(o, ops, same) case None => None case Some(m) => Exec(m, op, same)
    decreases |ops|
  {
    hide Exec;
    if ops == [] {
      assert ([] + [op])[1..] == [];
    } else {
      assert (ops + [op])[1..] == ops[1..] + [op];
      var m := Exec(o, ops[0], same);
      if m.Some? { RunOneMore(m.value, ops[1..], op, same); }
    }
  }

  /** `$addToSet` on a document: an array without repeats, or nothing, becomes an array without repeats. */
  lemma {:induction false} AddToSetKeeps(o: Value, path: Path, value: Value, same: Same)
    requires o.Obj? && Clean(path) && !Nullish(value)
    requires Nullish(GetAt(o, path)) || (IsArray(GetAt(o, path)) && NoRepeats(Items(GetAt(o, path)), same))
    requires Exec(o, AddToSet(path, value), same).Some?
    ensures var r := GetAt(Exec(o, AddToSet(path, value), same).value, path);
            IsArray(r) && NoRepeats(Items(r), same) && Items(GetAt(o, path)) <= Items(r)
  {
    var read := GetAt(o, path);
    var c := if Nullish(read) then Obj(Some(0), map[]) else read;
    assert Items(Obj(Some(0), map[])) == [];
    hide Items, Members, NoRepeats, Step, GetAt;
    assert NoRepeats([], same) by { NoneRepeat(same); }
    var vs := Members(value).value;
    AddedAllKeeps(c, vs, same);
    var v := AddedAll(c, vs, same).value;
    if v != read {
      hide AddedAll;
      OneStep(o, path, Assign(v));
      StepRead(o, path, Assign(v));
    }
  }

  lemma NoneRepeat(same: Same)
    ensures NoRepeats([], same)
  {
  }

  lemma OneStep(o: Value, path: Path, e: Effect)
    requires o.Obj? && path != []
    ensures Steps(o, [(path, e)]) == Step(o, path, e)
  {
    assert [(path, e)][1..] == [];
  }
}
