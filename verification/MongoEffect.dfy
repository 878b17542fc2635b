/** What an operation leaves of a document, said by what is read in it. */
module MongoEffects {
  import opened JsArray
  import opened JsPaths
  import opened MongoOps
  import opened MongoOrders

  // ---------------------------------------------------------------- one update

  /** `$inc` of what was read: a number goes up, null counts as 0, true as 1, and what is missing is no number. */
  ghost predicate Increased(was: Value, amount: int, now: Value) {
    match was
    case Num(n) => now == Num(n + amount)
    case Null => now == Num(amount)
    case Bool(b) => now == Num(amount + if b then 1 else 0)
    case _ => (was.Undefined? || was.NaN?) && now == NaN
  }

  /** `$addToSet`: what was there stays in front, values of the field come behind it, none of them found before, and all are
      found in the end. */
  ghost predicate Included(was: Value, value: Value, now: Value, same: Same) {
    var vs := if Nullish(Prop(value, EACH)) then [value] else Items(Prop(value, EACH));
    && !Nullish(value) && (IsArray(now) || (now == was && !Nullish(was)))
    && Items(was) <= Items(now)
    && (forall i :: |Items(was)| <= i < |Items(now)| ==> Items(now)[i] in vs && !Found(Items(now)[..i], Items(now)[i], same))
    && (forall v :: v in vs && same(v, v) ==> Found(Items(now), v, same))
  }

  /** What an update leaves, given what it has read at its path. */
  ghost predicate Leaves(op: Op, was: Value, r: Value, same: Same) {
    match op
    case SetField(path, value) => GetAt(r, path) == value
    case Unset(path) => Nullish(GetAt(r, path))
    case Inc(path, amount) => Increased(was, amount, GetAt(r, path))
    case Push(path, value) => IsArray(was) && IsArray(GetAt(r, path)) && Items(GetAt(r, path)) == Items(was) + [value]
    case PushAll(path, values) => IsArray(was) && IsArray(GetAt(r, path)) && Items(GetAt(r, path)) == Items(was) + values
    case Pop(path) =>
      && IsArray(was) && IsArray(GetAt(r, path))
      && Items(GetAt(r, path)) == if Items(was) == [] then [] else Items(was)[..|Items(was)| - 1]
    case AddToSet(path, value) => Included(was, value, GetAt(r, path), same)
    case Rename(path, to) => GetAt(r, to) == was && Nullish(GetAt(r, path))
  }

  lemma {:induction false} AddedIncludes(collection: Value, vs: seq<Value>, same: Same)
    requires AddedAll(collection, vs, same).Some?
    ensures var now := AddedAll(collection, vs, same).value;
            && (now == collection || IsArray(now)) && Items(collection) <= Items(now)
            && (forall i :: |Items(collection)| <= i < |Items(now)| ==> Items(now)[i] in vs && !Found(Items(now)[..i], Items(now)[i], same))
            && (forall v :: v in vs && same(v, v) ==> Found(Items(now), v, same))
    decreases |vs|
  {
    if vs != [] {
      var c := Added(collection, vs[0], same).value;
      hide Items;
      AddedIncludes(c, vs[1..], same);
      var now := AddedAll(collection, vs, same).value;
      var prior := Items(collection);
      assert Items(c) == prior || Items(c) == prior + [vs[0]];
      if Items(c) != prior { assert Items(now)[..|prior|] == Items(c)[..|prior|] == prior && Items(now)[|prior|] == Items(c)[|prior|] == vs[0]; }
      forall v | v in vs && same(v, v) ensures Found(Items(now), v, same) {
        if v == vs[0] {
          assert Found(Items(c), v, same) by { if Items(c) != prior { assert Items(c)[|prior|] == v; } }
          FoundMore(Items(c), Items(now), v, same);
        } else {
          assert v in vs[1..];
        }
      }
    }
  }

  lemma FoundMore(a: seq<Value>, b: seq<Value>, v: Value, same: Same)
    requires a <= b && Found(a, v, same)
    ensures Found(b, v, same)
  {
    var i :| 0 <= i < |a| && same(a[i], v);
    assert b[i] == a[i];
  }

  /** What is assigned is read back, with no null on the way. */
  lemma AssignLeaves(o: Value, path: Path, v: Value)
    requires o.Obj? && Clean(path) && Steps(o, [(path, Assign(v))]).Some?
    ensures var r := Steps(o, [(path, Assign(v))]).value; GetAt(r, path) == v && !NullAbove(r, path)
  {
    hide GetAt, NullAbove, Step;
    OneStep(o, path, Assign(v));
    StepRead(o, path, Assign(v));
    NoneAbove(o, path, v);
  }

  /** A value that is there is read past no null. */
  lemma {:induction false} ReadPast(o: Value, path: Path)
    requires Clean(path)
    ensures Nullish(GetAt(o, path)) || !NullAbove(o, path)
    decreases |path|
  {
    if |path| > 1 {
      if Nullish(Prop(o, path[0])) { ReadMissing(Prop(o, path[0]), path[1..]); } else { ReadPast(Prop(o, path[0]), path[1..]); }
    }
  }

  /** Where an update shows what it has done, and nothing on the way is null afterwards. */
  ghost predicate Firm(op: Op, r: Value) {
    match op
    case Unset(_) => true
    case Rename(_, to) => !NullAbove(r, to)
    case _ => !NullAbove(r, op.path)
  }

  lemma {:induction false} ExecLeaves(o: Value, op: Op, same: Same)
    requires o.Obj? && OpClean(op) && Exec(o, op, same).Some?
    ensures var r := Exec(o, op, same).value; Leaves(op, GetAt(o, op.path), r, same) && Firm(op, r)
  {
    hide GetAt, NullAbove, Step, Steps, Included, Items, AddedAll, Members;
    var was := GetAt(o, op.path);
    match op
    case SetField(path, value) => AssignLeaves(o, path, value);
    case Unset(path) =>
      OneStep(o, path, Remove);
      StepRead(o, path, Remove);
    case Inc(path, amount) => AssignLeaves(o, path, Plus(was, amount).value);
    case Push(path, value) => AssignLeaves(o, path, Pushed(was, value));
    case PushAll(path, values) => AssignLeaves(o, path, PushedAll(was, values));
    case Pop(path) => AssignLeaves(o, path, Popped(was));
    case AddToSet(path, value) => AddLeaves(o, path, value, same);
    case Rename(path, to) => RenameLeaves(o, path, to);
  }

  lemma {:induction false} AddLeaves(o: Value, path: Path, value: Value, same: Same)
    requires o.Obj? && Clean(path) && Exec(o, AddToSet(path, value), same).Some?
    ensures var r := Exec(o, AddToSet(path, value), same).value;
            Included(GetAt(o, path), value, GetAt(r, path), same) && !NullAbove(r, path)
  {
    var was := GetAt(o, path);
    var c := if Nullish(was) then Obj(Some(0), map[]) else was;
    assert Items(c) == Items(was);
    hide GetAt, NullAbove, Step, Items, AddedAll;
    var vs := Members(value).value;
    AddedIncludes(c, vs, same);
    var v := AddedAll(c, vs, same).value;
    if v == was {
      ReadPast(o, path);
      assert Steps(o, []) == Some(o);
    } else {
      AssignLeaves(o, path, v);
    }
  }

  lemma {:induction false} RenameLeaves(o: Value, path: Path, to: Path)
    requires o.Obj? && Clean(path) && Clean(to) && Apart(path, to)
    requires Steps(o, [(path, Remove), (to, Assign(GetAt(o, path)))]).Some?
    ensures var r := Steps(o, [(path, Remove), (to, Assign(GetAt(o, path)))]).value;
            GetAt(r, to) == GetAt(o, path) && Nullish(GetAt(r, path)) && !NullAbove(r, to)
  {
    hide GetAt, NullAbove, NullShared, Step, Apart;
    var v := GetAt(o, path);
    assert [(path, Remove), (to, Assign(v))] == [(path, Remove)] + [(to, Assign(v))];
    RemoveThenAssign(o, path, to, v);
    var m := DeleteAt(o, path).value;
    StepRead(o, path, Remove);
    StepRead(m, to, Assign(v));
    NoneAbove(m, to, v);
    ApartTurned(path, to);
    StepFrame(m, to, Assign(v), path);
  }

  lemma ApartTurned(p: Path, q: Path)
    requires Apart(p, q)
    ensures Apart(q, p)
  {
  }

  // ---------------------------------------------------------------- a whole operation

  /** All updates keep apart from a path. */
  ghost predicate OpsSpare(ops: seq<Op>, p: Path) {
    forall op :: op in ops ==> OpClean(op) && forall q :: q in Paths(op) ==> Apart(q, p)
  }

  /** What is read elsewhere stays, except that a null may become missing; and no null comes into the way. */
  lemma {:induction false} RunReads(o: Value, ops: seq<Op>, p: Path, same: Same)
    requires o.Obj? && Clean(p) && OpsSpare(ops, p) && Run(o, ops, same).Some?
    ensures var r := Run(o, ops, same).value;
            && (GetAt(r, p) == GetAt(o, p) || (GetAt(r, p) == Undefined && GetAt(o, p) == Null))
            && (!NullAbove(o, p) ==> GetAt(r, p) == GetAt(o, p))
    decreases |ops|
  {
    if ops != [] {
      hide Plan, GetAt, Steps, Apart, NullAbove, OpClean;
      var x := ops[0];
      assert x in ops;
      var ss := Plan(x, GetAt(o, x.path), same).value;
      PlanPaths(x, GetAt(o, x.path), same);
      assert StepsApart(ss, p);
      StepsFrame(o, ss, p);
      assert OpsSpare(ops[1..], p);
      RunReads(Exec(o, x, same).value, ops[1..], p, same);
    }
  }

  /** What an update leaves is still there after the others. */
  lemma {:induction false} LeavesStay(m: Value, op: Op, was: Value, rest: seq<Op>, same: Same)
    requires m.Obj? && OpClean(op) && Leaves(op, was, m, same) && Firm(op, m)
    requires (forall p :: p in Paths(op) ==> OpsSpare(rest, p)) && (forall p :: p in rest ==> OpClean(p)) && Run(m, rest, same).Some?
    ensures Leaves(op, was, Run(m, rest, same).value, same)
  {
    hide GetAt, NullAbove, Run, OpsSpare, Items, Included, Found;
    PathsClean(op);
    RunReads(m, rest, op.path, same);
    if op.Rename? { RunReads(m, rest, op.to, same); }
  }

  lemma PathsClean(op: Op)
    requires OpClean(op)
    ensures Clean(op.path) && op.path in Paths(op)
    ensures op.Rename? ==> Clean(op.to) && op.to in Paths(op)
  {
  }

  /** What an update of an operation leaves in the end: it has read what was there before the operation, except that where a null
      stood, an update before it may have left nothing. */
  ghost predicate Effect1(o: Value, op: Op, r: Value, same: Same) {
    || Leaves(op, GetAt(o, op.path), r, same)
    || (Sensitive(op) && GetAt(o, op.path) == Null && Leaves(op, Undefined, r, same))
  }

  /** What an operation leaves: each of its updates has its effect, from what was there before unless there is a clash; and what is apart from all their paths stays, except that
      a null may become missing. */
  ghost predicate Effects(o: Value, ops: seq<Op>, r: Value, same: Same) {
    && (forall op :: op in ops ==> Effect1(o, op, r, same))
    && (NoClash(o, ops) ==> forall op :: op in ops ==> Leaves(op, GetAt(o, op.path), r, same))
    && (forall p :: Clean(p) && OpsSpare(ops, p) ==>
          GetAt(r, p) == GetAt(o, p) || (GetAt(r, p) == Undefined && GetAt(o, p) == Null))
  }

  /** An update that is not sensitive does the same after null and after nothing. */
  lemma NullAlike(op: Op, r: Value, same: Same)
    requires Leaves(op, Undefined, r, same)
    ensures Sensitive(op) || Leaves(op, Null, r, same)
  {
    assert Items(Undefined) == Items(Null) == [];
    hide GetAt, Items, Members, Found;
  }

  lemma {:induction false} OneEffect(o: Value, before: seq<Op>, x: Op, after: seq<Op>, same: Same)
    requires o.Obj? && AllApart(before + [x] + after) && Run(o, before + [x] + after, same).Some?
    ensures Effect1(o, x, Run(o, before + [x] + after, same).value, same)
    ensures before == [] ==> Leaves(x, GetAt(o, x.path), Run(o, before + [x] + after, same).value, same)
  {
    hide *;
    Parted(before + [x] + after, before, x, after);
    RunThrough(o, before, x, after, same);
    var m := Run(o, before, same).value;
    PathsClean(x);
    RunReads(o, before, x.path, same);
    ExecLeaves(m, x, same);
    var r := Run(o, before + [x] + after, same).value;
    LeavesStay(Exec(m, x, same).value, x, GetAt(m, x.path), after, same);
    EffectOf(o, m, x, r, same);
  }

  lemma EffectOf(o: Value, m: Value, x: Op, r: Value, same: Same)
    requires Leaves(x, GetAt(m, x.path), r, same)
    requires GetAt(m, x.path) == GetAt(o, x.path) || (GetAt(m, x.path) == Undefined && GetAt(o, x.path) == Null)
    ensures Effect1(o, x, r, same)
  {
    hide Leaves, GetAt;
    if GetAt(m, x.path) == Undefined { NullAlike(x, r, same); }
  }

  /** An update among the others. */
  lemma Parted(ops: seq<Op>, before: seq<Op>, x: Op, after: seq<Op>)
    requires AllApart(ops) && ops == before + [x] + after
    ensures OpClean(x) && (forall p :: p in before ==> OpClean(p)) && forall p :: p in after ==> OpClean(p)
    ensures forall p :: p in ops ==> OpClean(p)
    ensures forall p :: p in Paths(x) ==> OpsSpare(before, p) && OpsSpare(after, p)
  {
    hide OpsApart, OpClean, Paths;
    MiddleOnce(ops, before, x, after);
    forall p, op, q | p in Paths(x) && (op in before || op in after) && q in Paths(op) ensures Apart(q, p) {
      SpareOne(op, x, q, p);
    }
  }

  lemma SpareOne(op: Op, x: Op, q: Path, p: Path)
    requires OpsApart(op, x) && q in Paths(op) && p in Paths(x)
    ensures Apart(q, p)
  {
    hide Paths, Apart;
  }

  lemma RunThrough(o: Value, before: seq<Op>, x: Op, after: seq<Op>, same: Same)
    requires o.Obj? && OpClean(x) && (forall p :: p in before ==> OpClean(p)) && (forall p :: p in after ==> OpClean(p))
    requires (forall p :: p in before + [x] + after ==> OpClean(p)) && Run(o, before + [x] + after, same).Some?
    ensures Run(o, before, same).Some? && Run(o, before, same).value.Obj?
    ensures before == [] ==> Run(o, before, same) == Some(o)
    ensures var m := Run(o, before, same).value;
            && Exec(m, x, same).Some? && Exec(m, x, same).value.Obj?
            && Run(Exec(m, x, same).value, after, same) == Run(o, before + [x] + after, same)
  {
    hide Exec, OpClean;
    assert before + [x] + after == before + ([x] + after);
    assert forall p :: p in [x] + after ==> p == x || p in after;
    RunSplit(o, before, [x] + after, same);
    assert ([x] + after)[1..] == after;
  }

  lemma AllClean(ops: seq<Op>)
    requires AllApart(ops)
    ensures forall op :: op in ops ==> OpClean(op)
  {
    hide OpClean, OpsApart;
  }

  lemma {:induction false} RunEffects(o: Value, ops: seq<Op>, same: Same)
    requires o.Obj? && AllApart(ops) && Run(o, ops, same).Some?
    ensures Effects(o, ops, Run(o, ops, same).value, same)
  {
    hide AllApart, Run, Effect1, Leaves, GetAt, NoClash, OpsSpare;
    AllClean(ops);
    var r := Run(o, ops, same).value;
    forall op | op in ops ensures Effect1(o, op, r, same) && (NoClash(o, ops) ==> Leaves(op, GetAt(o, op.path), r, same)) {
      var k :| 0 <= k < |ops| && ops[k] == op;
      assert ops == ops[..k] + [op] + ops[k + 1..];
      OneEffect(o, ops[..k], op, ops[k + 1..], same);
      if NoClash(o, ops) { UnclashedEffect(o, ops, ops[..k], op, ops[k + 1..], same); }
    }
    forall p | Clean(p) && OpsSpare(ops, p) ensures GetAt(r, p) == GetAt(o, p) || (GetAt(r, p) == Undefined && GetAt(o, p) == Null) {
      RunReads(o, ops, p, same);
    }
  }

  /** Without a clash an update can be taken to come first. */
  lemma {:induction false} UnclashedEffect(o: Value, ops: seq<Op>, before: seq<Op>, x: Op, after: seq<Op>, same: Same)
    requires o.Obj? && AllApart(ops) && Run(o, ops, same).Some? && NoClash(o, ops) && ops == before + [x] + after
    ensures Leaves(x, GetAt(o, x.path), Run(o, ops, same).value, same)
  {
    hide AllApart, Run, Leaves, GetAt, NoClash;
    var others := [] + [x] + (before + after);
    assert multiset(others) == multiset(ops);
    AnyOrder(o, ops, others, same);
    OneEffect(o, [], x, before + after, same);
  }

  // ---------------------------------------------------------------- success and failure

  /** When an update succeeds on its own; `$addToSet` aside. */
  lemma {:induction false} Succeeds(o: Value, op: Op, same: Same)
    requires o.Obj? && OpClean(op) && !op.AddToSet?
    ensures var was := GetAt(o, op.path);
            Exec(o, op, same).Some? <==>
              match op
              case SetField(path, _) => !BlockedAt(o, path)
              case Unset(path) => !BlockedAt(o, path)
              case Inc(path, _) => !BlockedAt(o, path) && !was.Str? && !was.Func? && !was.Obj?
              case Rename(path, to) => !BlockedAt(o, path) && !BlockedAt(o, to)
              case _ => !BlockedAt(o, op.path) && IsArray(was)
  {
    hide GetAt, Step, Steps, BlockedAt;
    var was := GetAt(o, op.path);
    match op
    case SetField(path, v) => OneStep(o, path, Assign(v)); StepFails(o, path, Assign(v));
    case Unset(path) => OneStep(o, path, Remove); StepFails(o, path, Remove);
    case Inc(path, amount) =>
      if Plus(was, amount).Some? { OneStep(o, path, Assign(Plus(was, amount).value)); StepFails(o, path, Assign(Plus(was, amount).value)); }
    case Push(path, v) =>
      if IsArray(was) { OneStep(o, path, Assign(Pushed(was, v))); StepFails(o, path, Assign(Pushed(was, v))); }
    case PushAll(path, vs) =>
      if IsArray(was) { OneStep(o, path, Assign(PushedAll(was, vs))); StepFails(o, path, Assign(PushedAll(was, vs))); }
    case Pop(path) =>
      if IsArray(was) { OneStep(o, path, Assign(Popped(was))); StepFails(o, path, Assign(Popped(was))); }
    case Rename(path, to) => RenameSucceeds(o, path, to, was);
  }

  lemma {:induction false} RenameSucceeds(o: Value, path: Path, to: Path, v: Value)
    requires o.Obj? && Clean(path) && Clean(to) && Apart(path, to)
    ensures Steps(o, [(path, Remove), (to, Assign(v))]).Some? <==> !BlockedAt(o, path) && !BlockedAt(o, to)
  {
    hide Step, Steps, BlockedAt, Apart;
    assert [(path, Remove), (to, Assign(v))] == [(path, Remove)] + [(to, Assign(v))];
    RemoveThenAssign(o, path, to, v);
    StepFails(o, path, Remove);
    if DeleteAt(o, path).Some? {
      StepFails(DeleteAt(o, path).value, to, Assign(v));
      BlockedFrame(o, path, Remove, to);
    }
  }

  /** What an update that fails leaves, by what is read: nothing has changed, but that `$rename` may have deleted and that
      `$addToSet` without a value may have made its array. */
  ghost predicate LeftBehind(o: Value, op: Op, left: Value)
    requires o.Obj? && OpClean(op)
  {
    match op
    case Rename(path, _) => if BlockedAt(o, path) then left == o else DeleteAt(o, path) == Some(left) && Nullish(GetAt(left, path))
    case AddToSet(path, value) =>
      if BlockedAt(o, path) || !Nullish(GetAt(o, path)) || !Nullish(value) then left == o
      else IsArray(GetAt(left, path)) && Items(GetAt(left, path)) == [] && SetAt(o, path, GetAt(left, path)) == Some(left)
    case _ => left == o
  }

  lemma {:induction false} HalfwayLeaves(o: Value, op: Op, same: Same)
    requires o.Obj? && OpClean(op) && Exec(o, op, same).None?
    ensures LeftBehind(o, op, Halfway(o, op))
  {
    hide GetAt, Step, BlockedAt, Exec;
    match op
    case Rename(path, _) =>
      StepFails(o, path, Remove);
      if !BlockedAt(o, path) { StepRead(o, path, Remove); }
    case AddToSet(path, _) =>
      var empty := Obj(Some(0), map[]);
      assert Items(empty) == [];
      StepFails(o, path, Assign(empty));
      if !BlockedAt(o, path) { StepRead(o, path, Assign(empty)); }
    case _ =>
  }

  /** `applyTo`: what each update leaves; and when one fails, what becomes of the target: the updates before it have taken place. */
  method ApplyTo(target: Value, operation: seq<Op>, same: Same) returns (r: Option<Value>, left: Value, ghost n: nat)
    requires target.Obj? && forall op :: op in operation ==> OpClean(op)
    ensures r == Run(target, operation, same) && (r.Some? ==> left == r.value)
    ensures r.Some? && AllApart(operation) ==> Effects(target, operation, r.value, same)
    ensures r.None? ==>
              && n < |operation| && Run(target, operation[..n], same).Some?
              && var o := Run(target, operation[..n], same).value;
                 Exec(o, operation[n], same).None? && left == Halfway(o, operation[n]) && LeftBehind(o, operation[n], left)
  {
    hide Exec, AllApart, Effects, Halfway, LeftBehind, OpClean;
    var o := target;
    var k := 0;
    while k < |operation|
      invariant k <= |operation| && o.Obj? && Run(o, operation[k..], same) == Run(target, operation, same)
      invariant Run(target, operation[..k], same) == Some(o)
    {
      assert operation[k..][0] == operation[k] && operation[k..][1..] == operation[k + 1..];
      assert operation[..k + 1] == operation[..k] + [operation[k]];
      RunOneMore(target, operation[..k], operation[k], same);
      var next := Exec(o, operation[k], same);
      if next.None? {
        HalfwayLeaves(o, operation[k], same);
        return None, Halfway(o, operation[k]), k;
      }
      o := next.value;
      k := k + 1;
    }
    assert operation[..k] == operation;
    if AllApart(operation) { RunEffects(target, operation, same); }
    return Some(o), o, k;
  }
}
