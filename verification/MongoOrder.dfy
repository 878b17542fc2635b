/** When the order of the updates of one operation does not matter: none of their paths leads through
    the end of another, and none reads a null that another replaces by an object. */
module MongoOrders {
  import opened JsArray
  import opened JsPaths
  import opened MongoOps

  type StepList = seq<(Path, Effect)>

  // ---------------------------------------------------------------- blocked paths

  /** A primitive value, or a function, stands on the way. */
  predicate BlockedAt(o: Value, p: Path)
    decreases |p|
  {
    |p| > 1 &&
    var c := Prop(o, p[0]);
    !Nullish(c) && (!c.Obj? || BlockedAt(c, p[1..]))
  }

  lemma {:induction false} StepFails(o: Value, p: Path, e: Effect)
    requires o.Obj? && Clean(p)
    ensures Step(o, p, e).Some? <==> !BlockedAt(o, p)
    decreases |p|
  {
    if |p| > 1 {
      match EntryOf(Prop(o, p[0]), e)
      case Enter(obj) =>
        StepFails(obj, p[1..], e);
        if Nullish(Prop(o, p[0])) { assert !BlockedAt(EMPTY, p[1..]); }
      case _ =>
    }
  }

  /** A step changes nothing about which other paths are blocked. */
  lemma {:induction false} BlockedFrame(o: Value, q: Path, e: Effect, p: Path)
    requires o.Obj? && Clean(q) && Clean(p) && Apart(q, p) && Step(o, q, e).Some?
    ensures BlockedAt(Step(o, q, e).value, p) <==> BlockedAt(o, p)
    decreases |q|
  {
    ApartRest(q, p);
    if p[0] == q[0] {
      match EntryOf(Prop(o, q[0]), e)
      case Enter(obj) =>
        BlockedFrame(obj, q[1..], e, p[1..]);
        if Nullish(Prop(o, q[0])) { assert !BlockedAt(EMPTY, p[1..]); }
      case _ =>
    }
  }

  // ---------------------------------------------------------------- a null on the way

  lemma {:induction false} SharedIsAbove(o: Value, p: Path, q: Path)
    requires NullShared(o, p, q)
    ensures NullAbove(o, q) && NullShared(o, q, p)
    decreases |p|
  {
    if Prop(o, p[0]) != Null { SharedIsAbove(Prop(o, p[0]), p[1..], q[1..]); }
  }

  /** Having assigned, no null is left on the way; and no other step puts one there. */
  lemma {:induction false} NoneAbove(o: Value, p: Path, v: Value)
    requires o.Obj? && Clean(p) && SetAt(o, p, v).Some?
    ensures !NullAbove(SetAt(o, p, v).value, p)
    decreases |p|
  {
    if |p| > 1 {
      match EntryOf(Prop(o, p[0]), Assign(v))
      case Enter(obj) => NoneAbove(obj, p[1..], v);
    }
  }

  lemma {:induction false} AboveFrame(o: Value, q: Path, e: Effect, p: Path)
    requires o.Obj? && Clean(q) && Clean(p) && Apart(q, p) && Step(o, q, e).Some?
    ensures NullAbove(Step(o, q, e).value, p) ==> NullAbove(o, p)
    decreases |q|
  {
    ApartRest(q, p);
    if p[0] == q[0] {
      match EntryOf(Prop(o, q[0]), e)
      case Enter(obj) =>
        AboveFrame(obj, q[1..], e, p[1..]);
        if Nullish(Prop(o, q[0])) { ReadMissing(Undefined, p[1..]); EmptyAbove(p[1..]); }
      case _ =>
    }
  }

  lemma EmptyAbove(p: Path)
    ensures !NullAbove(EMPTY, p)
  {
    if |p| > 1 { ReadMissing(Undefined, p[1..]); }
  }

  // ---------------------------------------------------------------- lists of steps

  ghost predicate StepsClean(ss: StepList) {
    forall s :: s in ss ==> Clean(s.0)
  }

  /** All steps keep apart from a path. */
  ghost predicate StepsApart(ss: StepList, p: Path) {
    forall s :: s in ss ==> Clean(s.0) && Apart(s.0, p)
  }

  /** No step replaces a null on the way to a path. */
  ghost predicate StepsSpare(o: Value, ss: StepList, p: Path) {
    forall s :: s in ss && s.1.Assign? ==> !NullShared(o, s.0, p)
  }

  /** What can be read changes by steps apart from it only in that null becomes undefined. */
  lemma {:induction false} StepsFrame(o: Value, ss: StepList, p: Path)
    requires o.Obj? && Clean(p) && StepsApart(ss, p) && Steps(o, ss).Some?
    ensures var r := Steps(o, ss).value;
            && (GetAt(r, p) == GetAt(o, p) || (GetAt(r, p) == Undefined && GetAt(o, p) == Null))
            && (NullAbove(r, p) ==> NullAbove(o, p))
            && (BlockedAt(r, p) <==> BlockedAt(o, p))
            && (!NullAbove(o, p) ==> GetAt(r, p) == GetAt(o, p))
    decreases |ss|
  {
    if ss != [] {
      var (q, e) := ss[0];
      hide Step, GetAt, NullAbove, NullShared, BlockedAt, Apart;
      assert ss[0] in ss;
      StepFrame(o, q, e, p);
      AboveFrame(o, q, e, p);
      BlockedFrame(o, q, e, p);
      if NullShared(o, q, p) { SharedIsAbove(o, q, p); }
      StepsFrame(Step(o, q, e).value, ss[1..], p);
    }
  }

  /** And not at all where no null on the way is replaced. */
  lemma {:induction false} StepsSpareFrame(o: Value, ss: StepList, p: Path)
    requires o.Obj? && Clean(p) && StepsApart(ss, p) && StepsClean(ss) && StepsSpare(o, ss, p) && Steps(o, ss).Some?
    requires forall i, j :: 0 <= i < j < |ss| ==> Apart(ss[i].0, ss[j].0)
    ensures GetAt(Steps(o, ss).value, p) == GetAt(o, p)
    decreases |ss|
  {
    if ss != [] {
      var (q, e) := ss[0];
      hide Step, GetAt, NullShared, Apart;
      assert ss[0] in ss;
      StepFrame(o, q, e, p);
      var m := Step(o, q, e).value;
      forall s | s in ss[1..] && s.1.Assign? ensures !NullShared(m, s.0, p) {
        var j :| 0 <= j < |ss[1..]| && ss[1..][j] == s;
        assert ss[j + 1] == s && s in ss;
        SharedFrame(o, q, e, s.0, p);
      }
      StepsSpareFrame(m, ss[1..], p);
    }
  }

  /** Steps that keep apart from a way leave it free of the nulls it was free of. */
  lemma {:induction false} StepsSharedFrame(o: Value, ss: StepList, q: Path, p: Path)
    requires o.Obj? && Clean(p) && Clean(q) && StepsApart(ss, p) && StepsApart(ss, q) && Steps(o, ss).Some?
    ensures NullShared(Steps(o, ss).value, q, p) ==> NullShared(o, q, p)
    decreases |ss|
  {
    if ss != [] {
      hide Step, NullShared, Apart;
      assert ss[0] in ss;
      SharedFrame(o, ss[0].0, ss[0].1, q, p);
      StepsSharedFrame(Step(o, ss[0].0, ss[0].1).value, ss[1..], q, p);
    }
  }

  function StepsThen(first: Option<Value>, ss: StepList): Option<Value>
    requires (first.Some? ==> first.value.Obj?) && forall s :: s in ss ==> s.0 != []
  {
    match first
    case None => None
    case Some(o) => Steps(o, ss)
  }

  ghost predicate ListsApart(ss: StepList, ts: StepList) {
    && StepsClean(ss) && StepsClean(ts)
    && forall s, t :: s in ss && t in ts ==> Apart(s.0, t.0)
  }

  lemma {:induction false} StepAndListCommute(o: Value, p: Path, e: Effect, ts: StepList)
    requires o.Obj? && Clean(p) && ListsApart([(p, e)], ts)
    ensures StepsThen(Step(o, p, e), ts) == StepThen(Steps(o, ts), p, e)
    decreases |ts|
  {
    if ts != [] {
      var (q, f) := ts[0];
      hide Step, Apart;
      assert (p, e) in [(p, e)] && ts[0] in ts;
      StepsCommute(o, p, e, q, f);
      var m := Step(o, q, f);
      if m.Some? {
        assert ListsApart([(p, e)], ts[1..]);
        StepAndListCommute(m.value, p, e, ts[1..]);
      }
    }
  }

  lemma {:induction false} ListsCommute(o: Value, ss: StepList, ts: StepList)
    requires o.Obj? && ListsApart(ss, ts)
    ensures StepsThen(Steps(o, ss), ts) == StepsThen(Steps(o, ts), ss)
    decreases |ss|
  {
    if ss != [] {
      hide Step, Apart;
      var (p, e) := ss[0];
      assert ss[0] in ss;
      assert ListsApart([(p, e)], ts);
      assert ListsApart(ss[1..], ts);
      StepAndListCommute(o, p, e, ts);
      var m := Step(o, p, e);
      if m.Some? { ListsCommute(m.value, ss[1..], ts); }
    }
  }

  // ---------------------------------------------------------------- updates that are apart

  function Paths(op: Op): (r: seq<Path>) {
    if op.Rename? then [op.path, op.to] else [op.path]
  }

  ghost predicate OpsApart(x: Op, y: Op) {
    forall p, q :: p in Paths(x) && q in Paths(y) ==> Apart(p, q)
  }

  /** Updates for which a null that is read differs from a missing value. */
  predicate Sensitive(op: Op) { op.Inc? || op.Rename? }

  /** The path along which an update creates objects. */
  function Creates(op: Op): Option<Path> {
    match op
    case SetField(path, _) => Some(path)
    case Inc(path, _) => Some(path)
    case AddToSet(path, _) => Some(path)
    case Rename(_, to) => Some(to)
    case _ => None
  }

  /** One update reads a null, which stands on a way along which the other one creates objects. */
  predicate Clash(o: Value, x: Op, y: Op) {
    Sensitive(x) && Creates(y).Some? && NullShared(o, Creates(y).value, x.path)
  }

  /** The steps of an update: along its paths, and assigning where it creates objects. */
  lemma PlanPaths(op: Op, read: Value, same: Same)
    requires OpClean(op) && Plan(op, read, same).Some?
    ensures var ss := Plan(op, read, same).value;
            && (forall s :: s in ss ==> s.0 in Paths(op))
            && StepsClean(ss)
            && (forall i, j :: 0 <= i < j < |ss| ==> Apart(ss[i].0, ss[j].0))
            && (forall s :: s in ss && s.1.Assign? ==> Creates(op) == Some(s.0) || IsArray(read))
  {
    hide AddedAll, Members, PushedAll, Popped, Plus;
  }

  /** Null and a missing value are read alike except by `$inc` and `$rename`; and never decide whether an update fails. */
  lemma PlanNullish(op: Op, same: Same)
    ensures !Sensitive(op) ==> Plan(op, Null, same) == Plan(op, Undefined, same)
    ensures Plan(op, Null, same).Some? <==> Plan(op, Undefined, same).Some?
  {
    hide AddedAll, Members;
    if op.AddToSet? && Members(op.value).Some? {
      NeverNullish(Obj(Some(0), map[]), Members(op.value).value, same);
    }
  }

  lemma {:induction false} NeverNullish(c: Value, vs: seq<Value>, same: Same)
    requires IsArray(c)
    ensures AddedAll(c, vs, same).Some? ==> AddedAll(c, vs, same).value.Obj?
    decreases |vs|
  {
    if vs != [] && Added(c, vs[0], same).Some? { NeverNullish(Added(c, vs[0], same).value, vs[1..], same); }
  }

  lemma PlanApart(x: Op, read: Value, same: Same, p: Path, y: Op)
    requires OpClean(x) && OpsApart(x, y) && p in Paths(y) && Plan(x, read, same).Some?
    ensures StepsApart(Plan(x, read, same).value, p)
  {
    hide Apart, Plan;
    PlanPaths(x, read, same);
  }

  lemma PlansApart(x: Op, readX: Value, y: Op, readY: Value, same: Same)
    requires OpClean(x) && OpClean(y) && OpsApart(x, y) && Plan(x, readX, same).Some? && Plan(y, readY, same).Some?
    ensures ListsApart(Plan(x, readX, same).value, Plan(y, readY, same).value)
  {
    hide Apart, Plan;
    PlanPaths(x, readX, same);
    PlanPaths(y, readY, same);
  }

  /** Without a clash, an update reads and does after another one what it would have before. */
  lemma {:induction false} PlanKept(o: Value, x: Op, y: Op, same: Same)
    requires o.Obj? && OpClean(x) && OpClean(y) && OpsApart(y, x) && !Clash(o, x, y) && Exec(o, y, same).Some?
    ensures Plan(x, GetAt(Exec(o, y, same).value, x.path), same) == Plan(x, GetAt(o, x.path), same)
  {
    hide Plan, GetAt, Steps, Apart, NullShared, OpsApart;
    var read := GetAt(o, y.path);
    var ss := Plan(y, read, same).value;
    PlanPaths(y, read, same);
    PlanApart(y, read, same, x.path, x);
    if Sensitive(x) {
      forall s | s in ss && s.1.Assign? ensures !NullShared(o, s.0, x.path) {
        if IsArray(read) && NullShared(o, s.0, x.path) { ArrayNotShared(o, y, s.0, x.path, same); }
      }
      StepsSpareFrame(o, ss, x.path);
    } else {
      StepsFrame(o, ss, x.path);
      PlanNullish(x, same);
    }
  }

  /** An array that was read is reached by objects only. */
  lemma ArrayNotShared(o: Value, y: Op, q: Path, p: Path, same: Same)
    requires o.Obj? && OpClean(y) && IsArray(GetAt(o, y.path)) && Plan(y, GetAt(o, y.path), same).Some?
    requires exists s :: s in Plan(y, GetAt(o, y.path), same).value && s.1.Assign? && s.0 == q
    requires NullShared(o, q, p)
    ensures Creates(y) == Some(q)
  {
    hide AddedAll, Members, PushedAll, Popped, Plus, GetAt, NullShared;
    if Creates(y) != Some(q) {
      assert q == y.path;
      SharedIsAbove(o, q, p);
      SharedIsAbove(o, p, q);
      AboveReadsNull(o, q);
    }
  }

  lemma {:induction false} AboveReadsNull(o: Value, p: Path)
    requires Clean(p) && NullAbove(o, p)
    ensures Nullish(GetAt(o, p))
    decreases |p|
  {
    var c := Prop(o, p[0]);
    if c == Null { ReadMissing(c, p[1..]); } else if !Nullish(o) { AboveReadsNull(c, p[1..]); }
  }

  function ExecThen(first: Option<Value>, op: Op, same: Same): Option<Value>
    requires (first.Some? ==> first.value.Obj?) && OpClean(op)
  {
    match first
    case None => None
    case Some(o) => Exec(o, op, same)
  }

  /** Two updates that are apart and do not clash give the same in both orders, failing included. */
  lemma {:induction false} OpsCommute(o: Value, x: Op, y: Op, same: Same)
    requires o.Obj? && OpClean(x) && OpClean(y) && OpsApart(x, y) && OpsApart(y, x) && !Clash(o, x, y) && !Clash(o, y, x)
    ensures ExecThen(Exec(o, x, same), y, same) == ExecThen(Exec(o, y, same), x, same)
  {
    hide Plan, GetAt, Steps, OpsApart, Clash;
    var ps, qs := Plan(x, GetAt(o, x.path), same), Plan(y, GetAt(o, y.path), same);
    if Exec(o, y, same).Some? { PlanKept(o, x, y, same); }
    if Exec(o, x, same).Some? { PlanKept(o, y, x, same); }
    if ps.Some? && qs.Some? {
      PlansApart(x, GetAt(o, x.path), y, GetAt(o, y.path), same);
      ListsCommute(o, ps.value, qs.value);
    }
  }

  // ---------------------------------------------------------------- whole operations

  /** All paths of an operation are apart. */
  ghost predicate AllApart(ops: seq<Op>) {
    && (forall op :: op in ops ==> OpClean(op) && multiset(ops)[op] == 1)
    && (forall x, y :: x in ops && y in ops && x != y ==> OpsApart(x, y))
  }

  ghost predicate NoClash(o: Value, ops: seq<Op>) {
    forall x, y :: x in ops && y in ops && x != y ==> !Clash(o, x, y)
  }

  /** Clashes do not come about by running other updates. */
  lemma {:induction false} ClashFrame(o: Value, z: Op, x: Op, y: Op, same: Same)
    requires o.Obj? && OpClean(z) && OpClean(x) && OpClean(y) && OpsApart(z, x) && OpsApart(z, y) && Exec(o, z, same).Some?
    ensures Clash(Exec(o, z, same).value, x, y) ==> Clash(o, x, y)
  {
    hide Plan, GetAt, Steps, Apart, NullShared, OpsApart;
    if Sensitive(x) && Creates(y).Some? {
      var ss := Plan(z, GetAt(o, z.path), same).value;
      CreatesClean(y);
      PlanPaths(z, GetAt(o, z.path), same);
      PlanApart(z, GetAt(o, z.path), same, x.path, x);
      PlanApart(z, GetAt(o, z.path), same, Creates(y).value, y);
      StepsSharedFrame(o, ss, Creates(y).value, x.path);
    }
  }

  lemma CreatesClean(y: Op)
    requires OpClean(y) && Creates(y).Some?
    ensures Clean(Creates(y).value) && Creates(y).value in Paths(y)
  {
  }

  lemma SplitOff(ops: seq<Op>)
    requires AllApart(ops) && ops != []
    ensures AllApart(ops[1..]) && ops[0] !in ops[1..] && forall y :: y in ops[1..] ==> y in ops
    ensures forall y :: y in ops <==> y == ops[0] || y in ops[1..]
  {
    hide OpsApart, OpClean;
    assert ops == [ops[0]] + ops[1..];
    assert multiset(ops) == multiset{ops[0]} + multiset(ops[1..]);
    forall y | y in ops[1..] ensures y in ops && multiset(ops[1..])[y] == 1 && y != ops[0] {
      assert multiset(ops[1..])[y] > 0;
    }
  }

  lemma {:induction false} RestNoClash(o: Value, ops: seq<Op>, same: Same)
    requires o.Obj? && ops != [] && AllApart(ops) && NoClash(o, ops) && Exec(o, ops[0], same).Some?
    ensures NoClash(Exec(o, ops[0], same).value, ops[1..])
  {
    SplitOff(ops);
    hide OpsApart, Exec, Clash, OpClean;
    var m := Exec(o, ops[0], same).value;
    forall x, y | x in ops[1..] && y in ops[1..] && x != y ensures !Clash(m, x, y) {
      ClashFrame(o, ops[0], x, y, same);
    }
  }

  lemma Permuted(ops: seq<Op>, others: seq<Op>)
    requires AllApart(ops) && multiset(ops) == multiset(others)
    ensures AllApart(others) && forall x :: x in ops <==> x in others
  {
    hide OpsApart, OpClean;
    assert forall x :: x in others ==> multiset(others)[x] > 0;
    assert forall x :: x in ops ==> multiset(ops)[x] > 0;
  }

  lemma RunTwo(o: Value, x: Op, y: Op, rest: seq<Op>, same: Same)
    requires o.Obj? && forall op :: op in [x, y] + rest ==> OpClean(op)
    ensures OpClean(x) && OpClean(y)
    ensures Run(o, [x, y] + rest, same) == match ExecThen(Exec(o, x, same), y, same) case None => None case Some(m) => Run(m, rest, same)
  {
    hide OpClean, Exec;
    var ops := [x, y] + rest;
    assert ops[0] == x && ops[1] == y && ops[1..][0] == y && ops[1..][1..] == rest;
    assert x in ops && y in ops;
  }

  /** The order of two neighbours is swapped. */
  lemma SwapFirst(o: Value, x: Op, y: Op, rest: seq<Op>, same: Same)
    requires o.Obj? && AllApart([x, y] + rest) && NoClash(o, [x, y] + rest)
    ensures AllApart([y, x] + rest) && Run(o, [x, y] + rest, same) == Run(o, [y, x] + rest, same)
  {
    hide OpsApart, Exec, Clash, OpClean, Run;
    var ops, swapped := [x, y] + rest, [y, x] + rest;
    assert multiset(ops) == multiset(swapped);
    Permuted(ops, swapped);
    assert ops[0] == x && ops[1] == y && x in ops && y in ops;
    RunTwo(o, x, y, rest, same);
    RunTwo(o, y, x, rest, same);
    assert multiset(ops) == multiset{x, y} + multiset(rest);
    assert multiset(ops)[x] == 1;
    OpsCommute(o, x, y, same);
  }

  lemma RunFirst(o: Value, ops: seq<Op>, same: Same)
    requires o.Obj? && ops != [] && forall op :: op in ops ==> OpClean(op)
    ensures Run(o, ops, same) == match Exec(o, ops[0], same) case None => None case Some(m) => Run(m, ops[1..], same)
  {
  }

  lemma MovedShape(before: seq<Op>, x: Op, after: seq<Op>)
    ensures multiset(before + [x] + after) == multiset([x] + before + after)
    ensures before == [] ==> before + [x] + after == [x] + before + after
  {
    assert multiset(before + [x] + after) == multiset(before) + multiset{x} + multiset(after);
    assert multiset([x] + before + after) == multiset{x} + multiset(before) + multiset(after);
  }

  lemma MovedHeads(y: Op, b: seq<Op>, x: Op, after: seq<Op>)
    ensures [y] + b + [x] + after == [y] + (b + [x] + after)
    ensures [x] + ([y] + b) + after == [x, y] + (b + after)
    ensures [y, x] + (b + after) == [y] + ([x] + b + after)
  {
  }

  lemma SwappedShape(before: seq<Op>, x: Op, after: seq<Op>)
    requires before != []
    ensures multiset(before + [x] + after) == multiset([before[0], x] + (before[1..] + after))
  {
    var y, b := before[0], before[1..];
    assert before == [y] + b;
    assert before + [x] + after == [y] + b + [x] + after;
    assert multiset(before + [x] + after) == multiset{y} + multiset(b) + multiset{x} + multiset(after);
    assert multiset([y, x] + (b + after)) == multiset{y, x} + (multiset(b) + multiset(after));
  }

  /** An update is moved to the front. */
  lemma {:induction false} MoveFirst(o: Value, before: seq<Op>, x: Op, after: seq<Op>, same: Same)
    requires o.Obj? && AllApart(before + [x] + after) && NoClash(o, before + [x] + after)
    ensures AllApart([x] + before + after)
    ensures Run(o, before + [x] + after, same) == Run(o, [x] + before + after, same)
    decreases |before|
  {
    var ops, moved := before + [x] + after, [x] + before + after;
    MovedShape(before, x, after);
    Permuted(ops, moved);
    if before != [] {
      hide OpsApart, Exec, Clash, OpClean, Run;
      var y := before[0];
      RunFirst(o, ops, same);
      SplitOff(ops);
      SwappedShape(before, x, after);
      MovedHeads(y, before[1..], x, after);
      assert before == [y] + before[1..];
      var swapped := [y, x] + (before[1..] + after);
      Permuted(ops, swapped);
      SameClash(o, ops, swapped);
      RunFirst(o, swapped, same);
      SwapFirst(o, y, x, before[1..] + after, same);
      if Exec(o, y, same).Some? {
        RestNoClash(o, ops, same);
        MoveFirst(Exec(o, y, same).value, before[1..], x, after, same);
      }
    }
  }

  lemma SameClash(o: Value, ops: seq<Op>, others: seq<Op>)
    requires NoClash(o, ops) && forall x :: x in ops <==> x in others
    ensures NoClash(o, others)
  {
    hide Clash;
  }

  /** An operation that holds an update, as its parts before and after it. */
  lemma FindFirst(ops: seq<Op>, others: seq<Op>) returns (before: seq<Op>, after: seq<Op>)
    requires ops != [] && multiset(ops) == multiset(others)
    ensures others == before + [ops[0]] + after
    ensures multiset(ops[1..]) == multiset(before + after)
    ensures [ops[0]] + before + after == [ops[0]] + (before + after)
    ensures |before + after| < |others|
  {
    assert multiset(others)[ops[0]] > 0;
    var k :| 0 <= k < |others| && others[k] == ops[0];
    before, after := others[..k], others[k + 1..];
    assert others == before + [ops[0]] + after;
    SameRest(ops, before, ops[0], after);
  }

  /** Every order of an operation whose paths are apart and which has no clash does the same, failing included. */
  lemma {:induction false} AnyOrder(o: Value, ops: seq<Op>, others: seq<Op>, same: Same)
    requires o.Obj? && AllApart(ops) && NoClash(o, ops) && multiset(ops) == multiset(others)
    ensures AllApart(others) && Run(o, ops, same) == Run(o, others, same)
    decreases |ops|
  {
    hide OpsApart, Exec, Clash, OpClean, Run;
    Permuted(ops, others);
    if ops == [] {
      assert |multiset(others)| == |others| == 0;
    } else {
      var x := ops[0];
      var before, after := FindFirst(ops, others);
      SameClash(o, ops, others);
      MoveFirst(o, before, x, after, same);
      SplitOff(ops);
      RunFirst(o, ops, same);
      RunFirst(o, [x] + (before + after), same);
      if Exec(o, x, same).Some? {
        RestNoClash(o, ops, same);
        AnyOrder(Exec(o, x, same).value, ops[1..], before + after, same);
      }
    }
  }

  lemma SameRest(ops: seq<Op>, before: seq<Op>, x: Op, after: seq<Op>)
    requires ops != [] && ops[0] == x && multiset(ops) == multiset(before + [x] + after)
    ensures multiset(ops[1..]) == multiset(before + after)
  {
    assert ops == [x] + ops[1..];
    assert multiset(ops) == multiset{x} + multiset(ops[1..]);
    assert multiset(before + [x] + after) == multiset(before) + multiset{x} + multiset(after);
    assert multiset(before + after) == multiset(before) + multiset(after);
    assert multiset(ops[1..]) == multiset(ops) - multiset{x};
  }

  // ---------------------------------------------------------------- which operations succeed

  lemma {:induction false} StepsSucceed(o: Value, ss: StepList)
    requires o.Obj? && StepsClean(ss) && forall i, j :: 0 <= i < j < |ss| ==> Apart(ss[i].0, ss[j].0)
    ensures Steps(o, ss).Some? <==> forall i :: 0 <= i < |ss| ==> !BlockedAt(o, ss[i].0)
    decreases |ss|
  {
    if ss != [] {
      var (q, e) := ss[0];
      hide Step, Apart, BlockedAt;
      assert ss[0] in ss;
      StepFails(o, q, e);
      if !BlockedAt(o, q) {
        var m := Step(o, q, e).value;
        forall i | 1 <= i < |ss| ensures BlockedAt(m, ss[i].0) <==> BlockedAt(o, ss[i].0) {
          assert ss[i] in ss;
          BlockedFrame(o, q, e, ss[i].0);
        }
        StepsSucceed(m, ss[1..]);
        assert forall i :: 1 <= i < |ss| ==> ss[i] == ss[1..][i - 1];
      }
    }
  }

  /** The steps of an update lead along the same paths whether null or a missing value is read. */
  lemma PlanPathsNullish(op: Op, same: Same)
    requires Plan(op, Null, same).Some? && Plan(op, Undefined, same).Some?
    ensures var ss, ts := Plan(op, Null, same).value, Plan(op, Undefined, same).value;
            |ss| == |ts| && forall i :: 0 <= i < |ss| ==> ss[i].0 == ts[i].0
  {
    PlanNullish(op, same);
    hide AddedAll, Members;
  }

  /** Whether an update succeeds does not depend on another one having been done. */
  lemma {:induction false} SuccessKept(o: Value, z: Op, x: Op, same: Same)
    requires o.Obj? && OpClean(z) && OpClean(x) && OpsApart(z, x) && Exec(o, z, same).Some?
    ensures Exec(Exec(o, z, same).value, x, same).Some? <==> Exec(o, x, same).Some?
  {
    hide Plan, GetAt, Steps, Apart, BlockedAt, OpsApart;
    var zs := Plan(z, GetAt(o, z.path), same).value;
    var m := Exec(o, z, same).value;
    PlanApart(z, GetAt(o, z.path), same, x.path, x);
    StepsFrame(o, zs, x.path);
    PlanNullish(x, same);
    var ps, qs := Plan(x, GetAt(o, x.path), same), Plan(x, GetAt(m, x.path), same);
    if ps.Some? {
      if ps != qs { PlanPathsNullish(x, same); }
      PlanPaths(x, GetAt(o, x.path), same);
      PlanPaths(x, GetAt(m, x.path), same);
      StepsSucceed(o, ps.value);
      StepsSucceed(m, qs.value);
      forall i | 0 <= i < |ps.value| ensures BlockedAt(m, ps.value[i].0) <==> BlockedAt(o, ps.value[i].0) {
        var p := ps.value[i].0;
        assert ps.value[i] in ps.value;
        PlanApart(z, GetAt(o, z.path), same, p, x);
        PathClean(x, p);
        StepsFrame(o, zs, p);
      }
    }
  }

  lemma PathClean(op: Op, p: Path)
    requires OpClean(op) && p in Paths(op)
    ensures Clean(p)
  {
  }

  /** An operation whose paths are apart succeeds, in any order, exactly when each of its updates would on its own. */
  lemma {:induction false} RunSucceeds(o: Value, ops: seq<Op>, same: Same)
    requires o.Obj? && AllApart(ops)
    ensures Run(o, ops, same).Some? <==> forall op :: op in ops ==> Exec(o, op, same).Some?
    decreases |ops|
  {
    hide OpsApart, Exec, OpClean;
    if ops != [] {
      SplitOff(ops);
      var x := ops[0];
      if Exec(o, x, same).Some? {
        var m := Exec(o, x, same).value;
        RunSucceeds(m, ops[1..], same);
        forall op | op in ops[1..] ensures Exec(m, op, same).Some? <==> Exec(o, op, same).Some? {
          SuccessKept(o, x, op, same);
        }
      }
    }
  }

  // ---------------------------------------------------------------- a clash shows

  lemma {:induction false} SharedReadsNull(o: Value, p: Path, q: Path)
    requires Clean(q) && NullShared(o, p, q)
    ensures GetAt(o, q) == Null
    decreases |p|
  {
    var c := Prop(o, q[0]);
    if c == Null { ReadMissing(c, q[1..]); } else { SharedReadsNull(c, p[1..], q[1..]); }
  }

  /** Deleting replaces no null. */
  lemma {:induction false} SharedRemove(o: Value, p: Path, q: Path, r: Path)
    requires o.Obj? && Clean(p) && Clean(q) && Clean(r) && Apart(p, q) && Apart(p, r) && DeleteAt(o, p).Some?
    ensures NullShared(o, q, r) ==> NullShared(DeleteAt(o, p).value, q, r)
    decreases |p|
  {
    if |q| > 1 && |r| > 1 && q[0] == r[0] {
      ApartRest(p, q);
      ApartRest(p, r);
      if p[0] == q[0] {
        match EntryOf(Prop(o, p[0]), Remove)
        case Enter(obj) => SharedRemove(obj, p[1..], q[1..], r[1..]);
        case _ =>
      }
    }
  }

  /** What can be read where no null is above stays through a whole operation apart from it. */
  lemma {:induction false} RunFrame(o: Value, ops: seq<Op>, p: Path, same: Same)
    requires o.Obj? && Clean(p) && !NullAbove(o, p)
    requires forall op :: op in ops ==> OpClean(op) && forall q :: q in Paths(op) ==> Apart(q, p)
    requires Run(o, ops, same).Some?
    ensures GetAt(Run(o, ops, same).value, p) == GetAt(o, p)
    decreases |ops|
  {
    if ops != [] {
      hide Plan, GetAt, Steps, Apart, NullAbove, OpClean;
      var x := ops[0];
      assert x in ops;
      var read := GetAt(o, x.path);
      var ss := Plan(x, read, same).value;
      PlanPaths(x, read, same);
      assert StepsApart(ss, p);
      StepsFrame(o, ss, p);
      RunFrame(Exec(o, x, same).value, ops[1..], p, same);
    }
  }

  /** Where the value that a sensitive update has read shows: null and a missing value are told apart there. */
  function Shows(x: Op): Path
    requires Sensitive(x)
  {
    if x.Rename? then x.to else x.path
  }

  function Shown(x: Op, missing: bool): Value
    requires Sensitive(x)
  {
    if x.Rename? then (if missing then Undefined else Null)
    else if missing then NaN else Num(x.amount)
  }

  lemma {:induction false} SensitiveShows(o: Value, x: Op, same: Same)
    requires o.Obj? && OpClean(x) && Sensitive(x) && Nullish(GetAt(o, x.path)) && Exec(o, x, same).Some?
    ensures var m := Exec(o, x, same).value;
            GetAt(m, Shows(x)) == Shown(x, GetAt(o, x.path) == Undefined) && !NullAbove(m, Shows(x))
  {
    var read := GetAt(o, x.path);
    var v := Shown(x, read == Undefined);
    hide GetAt, Step, NullAbove;
    if x.Rename? {
      assert [(x.path, Remove), (x.to, Assign(v))] == [(x.path, Remove)] + [(x.to, Assign(v))];
      RemoveThenAssign(o, x.path, x.to, v);
      var m := DeleteAt(o, x.path).value;
      StepRead(m, x.to, Assign(v));
      NoneAbove(m, x.to, v);
    } else {
      OneStep(o, x.path, Assign(v));
      StepRead(o, x.path, Assign(v));
      NoneAbove(o, x.path, v);
    }
  }

  lemma RemoveThenAssign(o: Value, p: Path, q: Path, v: Value)
    requires o.Obj? && p != [] && q != []
    ensures Steps(o, [(p, Remove)] + [(q, Assign(v))]) == StepThen(DeleteAt(o, p), q, Assign(v))
  {
    var ss := [(p, Remove)] + [(q, Assign(v))];
    assert ss[1..] == [(q, Assign(v))];
    var m := DeleteAt(o, p);
    if m.Some? { OneStep(m.value, q, Assign(v)); }
  }

  /** An update that creates objects on a way to a null makes what is read there missing. */
  lemma {:induction false} ClashReads(o: Value, y: Op, p: Path, same: Same)
    requires o.Obj? && OpClean(y) && Clean(p) && Creates(y).Some? && NullShared(o, Creates(y).value, p)
    requires forall q :: q in Paths(y) ==> Apart(q, p)
    requires Exec(o, y, same).Some?
    ensures GetAt(Exec(o, y, same).value, p) == Undefined
  {
    var q := Creates(y).value;
    CreatesClean(y);
    SharedIsAbove(o, q, p);
    SharedReadsNull(o, p, q);
    hide GetAt, Step, NullShared, Apart;
    if y.Rename? {
      var v := GetAt(o, y.path);
      assert [(y.path, Remove), (q, Assign(v))] == [(y.path, Remove)] + [(q, Assign(v))];
      RemoveThenAssign(o, y.path, q, v);
      var m := DeleteAt(o, y.path).value;
      assert y.path in Paths(y);
      SharedRemove(o, y.path, q, p);
      StepFrame(m, q, Assign(v), p);
    } else {
      var v := PlanAssigns(y, same);
      OneStep(o, q, Assign(v));
      StepFrame(o, q, Assign(v), p);
    }
  }

  lemma PlanAssigns(y: Op, same: Same) returns (v: Value)
    requires Creates(y).Some? && !y.Rename? && Plan(y, Null, same).Some?
    ensures Plan(y, Null, same) == Some([(y.path, Assign(v))])
  {
    PlanNullish(y, same);
    v := Plan(y, Null, same).value[0].1.value;
  }

  /** What reads as missing does so after any updates apart from it. */
  lemma {:induction false} MissingStays(o: Value, ops: seq<Op>, p: Path, same: Same)
    requires o.Obj? && Clean(p) && GetAt(o, p) == Undefined
    requires forall op :: op in ops ==> OpClean(op) && forall q :: q in Paths(op) ==> Apart(q, p)
    requires Run(o, ops, same).Some?
    ensures GetAt(Run(o, ops, same).value, p) == Undefined
    decreases |ops|
  {
    if ops != [] {
      hide Plan, GetAt, Steps, Apart, NullAbove, OpClean;
      var x := ops[0];
      assert x in ops;
      var read := GetAt(o, x.path);
      var ss := Plan(x, read, same).value;
      PlanPaths(x, read, same);
      assert StepsApart(ss, p);
      StepsFrame(o, ss, p);
      MissingStays(Exec(o, x, same).value, ops[1..], p, same);
    }
  }

  lemma {:induction false} RunSplit(o: Value, a: seq<Op>, b: seq<Op>, same: Same)
    requires o.Obj? && forall op :: op in a + b ==> OpClean(op)
    ensures Run(o, a + b, same) == match Run(o, a, same) case None => None case Some(m) => Run(m, b, same)
    decreases |a|
  {
    hide Exec, OpClean;
    if a == [] {
      assert a + b == b;
    } else {
      assert (a + b)[0] == a[0] && (a + b)[1..] == a[1..] + b && a[0] in a + b;
      assert forall op :: op in a[1..] + b ==> op in a + b;
      var m := Exec(o, a[0], same);
      if m.Some? { RunSplit(m.value, a[1..], b, same); }
    }
  }

  /** The update that is sensitive comes before the clash. */
  lemma {:induction false} ShownFirst(o: Value, x: Op, rest: seq<Op>, same: Same)
    requires o.Obj? && AllApart([x] + rest) && Sensitive(x) && GetAt(o, x.path) == Null && Run(o, [x] + rest, same).Some?
    ensures GetAt(Run(o, [x] + rest, same).value, Shows(x)) == Shown(x, false)
  {
    hide GetAt, OpsApart, Run, NullAbove, Plan, Exec, OpClean;
    var ops := [x] + rest;
    assert ops[0] == x && ops[1..] == rest && x in ops;
    ApartFrom(x, ops, rest);
    RunFirst(o, ops, same);
    SensitiveShows(o, x, same);
    RunFrame(Exec(o, x, same).value, rest, Shows(x), same);
  }

  /** It comes after it, whatever is between them. */
  lemma {:induction false} ShownAfter(o: Value, y: Op, mid: seq<Op>, x: Op, rest: seq<Op>, same: Same)
    requires o.Obj? && AllApart([y] + mid + [x] + rest) && x != y && Clash(o, x, y) && Run(o, [y] + mid + [x] + rest, same).Some?
    ensures GetAt(Run(o, [y] + mid + [x] + rest, same).value, Shows(x)) == Shown(x, true)
  {
    hide GetAt, OpsApart, Run, NullAbove, NullShared, Plan, Exec, OpClean, Clash, Sensitive, Creates, Paths, Apart;
    var ops := [y] + mid + [x] + rest;
    MiddleOnce(ops, [y] + mid, x, rest);
    ClashMeans(o, x, y);
    ApartFrom(x, ops, [y] + mid);
    ApartFrom(x, ops, rest);
    assert y in [y] + mid && y in ops;
    assert ops == ([y] + mid) + ([x] + rest);
    RunSplit(o, [y] + mid, [x] + rest, same);
    RunFirst(o, [y] + mid, same);
    assert ([y] + mid)[0] == y && ([y] + mid)[1..] == mid;
    ClashReads(o, y, x.path, same);
    var m := Exec(o, y, same).value;
    MissingStays(m, mid, x.path, same);
    var n := Run(m, mid, same).value;
    RunFirst(n, [x] + rest, same);
    assert ([x] + rest)[0] == x && ([x] + rest)[1..] == rest;
    SensitiveShows(n, x, same);
    RunFrame(Exec(n, x, same).value, rest, Shows(x), same);
  }

  lemma ClashMeans(o: Value, x: Op, y: Op)
    requires o.Obj? && OpClean(x) && OpClean(y) && Clash(o, x, y)
    ensures Sensitive(x) && Creates(y).Some? && NullShared(o, Creates(y).value, x.path)
    ensures Clean(x.path) && Clean(Shows(x)) && GetAt(o, x.path) == Null
  {
    hide GetAt, NullShared;
    CreatesClean(y);
    SharedReadsNull(o, Creates(y).value, x.path);
  }

  /** An update of an operation stands in one place of it. */
  lemma MiddleOnce(ops: seq<Op>, before: seq<Op>, x: Op, after: seq<Op>)
    requires AllApart(ops) && ops == before + [x] + after
    ensures x !in before && x !in after && x in ops
    ensures forall op :: op in before || op in after ==> op in ops
    ensures forall op :: op in ops ==> OpClean(op)
  {
    hide OpsApart, OpClean;
    assert multiset(ops) == multiset(before) + multiset{x} + multiset(after);
    assert x in ops && multiset(ops)[x] == 1;
  }

  lemma ApartFrom(x: Op, ops: seq<Op>, some: seq<Op>)
    requires AllApart(ops) && x in ops && Sensitive(x) && forall op :: op in some ==> op in ops && op != x
    ensures OpClean(x) && Clean(x.path) && Clean(Shows(x))
    ensures forall op :: op in some ==> OpClean(op) && forall q :: q in Paths(op) ==> Apart(q, Shows(x)) && Apart(q, x.path)
  {
    hide OpsApart, Paths, Shows, Apart;
    ShowsClean(x);
    forall op | op in some
      ensures OpClean(op) && forall q :: q in Paths(op) ==> Apart(q, Shows(x)) && Apart(q, x.path)
    {
      ApartFromOne(op, x);
    }
  }

  lemma ShowsClean(x: Op)
    requires OpClean(x) && Sensitive(x)
    ensures Clean(x.path) && Clean(Shows(x))
  {
  }

  lemma ApartFromOne(op: Op, x: Op)
    requires OpsApart(op, x) && Sensitive(x)
    ensures forall q :: q in Paths(op) ==> Apart(q, Shows(x)) && Apart(q, x.path)
  {
    hide Apart;
    assert Shows(x) in Paths(x) && x.path in Paths(x);
  }

  /** After a clash two orders, one with each of the two updates first, differ in what they leave where the sensitive one shows
      what it has read. */
  lemma {:induction false} ClashShows(o: Value, x: Op, y: Op, first: seq<Op>, second: seq<Op>, same: Same)
    requires o.Obj? && AllApart(first) && AllApart(second) && multiset(first) == multiset(second) && x != y && Clash(o, x, y)
    requires first != [] && first[0] == x && second != [] && second[0] == y
    requires Run(o, first, same).Some? && Run(o, second, same).Some?
    ensures GetAt(Run(o, first, same).value, Shows(x)) == Shown(x, false)
    ensures GetAt(Run(o, second, same).value, Shows(x)) == Shown(x, true)
  {
    hide GetAt, OpsApart, Run, Clash, OpClean, Sensitive, Shows, Shown, AllApart, NullShared, Creates;
    assert first == [x] + first[1..];
    assert x in multiset(first) && x in second;
    assert y in multiset(second) && y in first;
    CleanOf(first, x);
    CleanOf(second, y);
    ClashMeans(o, x, y);
    ShownFirst(o, x, first[1..], same);
    var k :| 0 <= k < |second| && second[k] == x;
    assert second == [y] + second[1..k] + [x] + second[k + 1..];
    ShownAfter(o, y, second[1..k], x, second[k + 1..], same);
  }

  lemma CleanOf(ops: seq<Op>, x: Op)
    requires AllApart(ops) && x in ops
    ensures OpClean(x)
  {
  }

  // ---------------------------------------------------------------- the orders an operation can have

  datatype Operator = OpSet | OpUnset | OpInc | OpPush | OpPushAll | OpPop | OpAddToSet | OpRename

  function OperatorOf(op: Op): Operator {
    match op
    case SetField(_, _) => OpSet
    case Unset(_) => OpUnset
    case Inc(_, _) => OpInc
    case Push(_, _) => OpPush
    case PushAll(_, _) => OpPushAll
    case Pop(_) => OpPop
    case AddToSet(_, _) => OpAddToSet
    case Rename(_, _) => OpRename
  }

  /** `applyTo` goes through the operators, and for each through all of its fields: these stand together. */
  ghost predicate Grouped(ops: seq<Op>) {
    forall i, j, k :: 0 <= i < j < k < |ops| && OperatorOf(ops[i]) == OperatorOf(ops[k]) ==> OperatorOf(ops[j]) == OperatorOf(ops[i])
  }

  /** The fields of an operator, or all the others. */
  function Fields(ops: seq<Op>, t: Operator, own: bool): (r: seq<Op>)
    ensures forall op :: op in r ==> op in ops && (OperatorOf(op) == t <==> own)
    ensures |r| <= |ops|
  {
    if ops == [] then []
    else (if (OperatorOf(ops[0]) == t) == own then [ops[0]] else []) + Fields(ops[1..], t, own)
  }

  /** The same updates, operator by operator in the order in which these come first. */
  function Regroup(ops: seq<Op>): (r: seq<Op>)
    ensures |r| > 0 <==> |ops| > 0
    ensures ops != [] ==> r[0] == ops[0]
    ensures forall op :: op in r ==> op in ops
    decreases |ops|
  {
    if ops == [] then []
    else [ops[0]] + Fields(ops[1..], OperatorOf(ops[0]), true) + Regroup(Fields(ops[1..], OperatorOf(ops[0]), false))
  }

  lemma {:induction false} FieldsCount(ops: seq<Op>, t: Operator)
    ensures multiset(Fields(ops, t, true)) + multiset(Fields(ops, t, false)) == multiset(ops)
    decreases |ops|
  {
    if ops != [] {
      assert ops == [ops[0]] + ops[1..];
      FieldsCount(ops[1..], t);
    }
  }

  lemma {:induction false} RegroupCount(ops: seq<Op>)
    ensures multiset(Regroup(ops)) == multiset(ops)
    decreases |ops|
  {
    if ops != [] {
      var t := OperatorOf(ops[0]);
      assert ops == [ops[0]] + ops[1..];
      FieldsCount(ops[1..], t);
      RegroupCount(Fields(ops[1..], t, false));
      hide Regroup, Fields;
      RegroupParts(ops);
    }
  }

  lemma RegroupParts(ops: seq<Op>)
    requires ops != []
    ensures Regroup(ops) == [ops[0]] + Fields(ops[1..], OperatorOf(ops[0]), true) + Regroup(Fields(ops[1..], OperatorOf(ops[0]), false))
  {
  }

  lemma {:induction false} RegroupGroups(ops: seq<Op>)
    ensures Grouped(Regroup(ops))
    decreases |ops|
  {
    if ops != [] {
      hide Regroup, Fields;
      var t := OperatorOf(ops[0]);
      RegroupParts(ops);
      RegroupGroups(Fields(ops[1..], t, false));
      var own, others := [ops[0]] + Fields(ops[1..], t, true), Regroup(Fields(ops[1..], t, false));
      assert forall op :: op in own ==> OperatorOf(op) == t;
      assert forall op :: op in others ==> OperatorOf(op) != t;
      GroupsJoin(own, others, t);
    }
  }

  lemma GroupsJoin(own: seq<Op>, others: seq<Op>, t: Operator)
    requires (forall op :: op in own ==> OperatorOf(op) == t) && (forall op :: op in others ==> OperatorOf(op) != t) && Grouped(others)
    ensures Grouped(own + others)
  {
    hide OperatorOf;
    var all, n := own + others, |own|;
    forall i | 0 <= i < |all| ensures OperatorOf(all[i]) == t <==> i < n {
      if i < n { assert all[i] in own; } else { assert all[i] in others; }
    }
    forall i, j, k | 0 <= i < j < k < |all| && OperatorOf(all[i]) == OperatorOf(all[k])
      ensures OperatorOf(all[j]) == OperatorOf(all[i])
    {
      if i >= n { assert all[i] == others[i - n] && all[j] == others[j - n] && all[k] == others[k - n]; }
    }
  }

  /** An order that the operation can have and that begins with a given update. */
  lemma GroupedFirst(ops: seq<Op>, x: Op) returns (r: seq<Op>)
    requires x in ops
    ensures multiset(r) == multiset(ops) && Grouped(r) && r != [] && r[0] == x
  {
    var rest := WithoutOne(ops, x);
    assert multiset([x] + rest) == multiset{x} + multiset(rest);
    r := Regroup([x] + rest);
    RegroupCount([x] + rest);
    RegroupGroups([x] + rest);
  }

  ghost predicate SameOutcome(o: Value, ops: seq<Op>, others: seq<Op>, same: Same) {
    o.Obj? && AllApart(ops) && AllApart(others) && Run(o, ops, same) == Run(o, others, same)
  }

  /** An operation whose paths are apart and which succeeds leaves the same document in every order it can have exactly when no
      update increments or renames what lies behind a null that another update replaces. */
  lemma {:induction false} OrderIrrelevantIff(o: Value, ops: seq<Op>, same: Same)
    requires o.Obj? && AllApart(ops) && Run(o, ops, same).Some?
    ensures NoClash(o, ops) <==> forall others :: multiset(others) == multiset(ops) && Grouped(others) ==> SameOutcome(o, ops, others, same)
  {
    hide AllApart, Run, NoClash, Grouped;
    if NoClash(o, ops) {
      forall others | multiset(others) == multiset(ops) ensures SameOutcome(o, ops, others, same) {
        AnyOrder(o, ops, others, same);
      }
    } else {
      var others := ClashBreaks(o, ops, same);
      assert multiset(others) == multiset(ops) && Grouped(others) && !SameOutcome(o, ops, others, same);
    }
  }

  lemma ClashBreaks(o: Value, ops: seq<Op>, same: Same) returns (others: seq<Op>)
    requires o.Obj? && AllApart(ops) && Run(o, ops, same).Some? && !NoClash(o, ops)
    ensures multiset(others) == multiset(ops) && Grouped(others) && !SameOutcome(o, ops, others, same)
  {
    hide AllApart, Run, Clash, Exec, SameOutcome, Grouped;
    var x, y :| x in ops && y in ops && x != y && Clash(o, x, y);
    var first := GroupedFirst(ops, x);
    others := first;
    if SameOutcome(o, ops, first, same) {
      others := GroupedFirst(ops, y);
      ClashDiffers(o, ops, x, y, first, others, same);
    }
  }

  lemma ClashDiffers(o: Value, ops: seq<Op>, x: Op, y: Op, first: seq<Op>, second: seq<Op>, same: Same)
    requires o.Obj? && AllApart(ops) && x != y && Clash(o, x, y) && Run(o, ops, same).Some?
    requires multiset(first) == multiset(second) && first != [] && first[0] == x && second != [] && second[0] == y
    requires SameOutcome(o, ops, first, same)
    ensures !SameOutcome(o, ops, second, same)
  {
    assert Clash(o, x, y) ==> Shown(x, false) != Shown(x, true);
    hide Run, Clash, Exec, GetAt, AllApart;
    if SameOutcome(o, ops, second, same) {
      ClashShows(o, x, y, first, second, same);
    }
  }

  lemma WithoutOne(ops: seq<Op>, x: Op) returns (rest: seq<Op>)
    requires x in ops
    ensures multiset(ops) == multiset{x} + multiset(rest)
  {
    var k :| 0 <= k < |ops| && ops[k] == x;
    rest := ops[..k] + ops[k + 1..];
    assert ops == ops[..k] + [x] + ops[k + 1..];
  }

  const A_NULL := Obj(None, map[Name("a") := Null])
  const INC_A_X := Inc([Name("a"), Name("x")], 1)
  const SET_A_Y := SetField([Name("a"), Name("y")], Num(2))

  /** `$inc: {"a.x": 1}` and `$set: {"a.y": 2}` on a document whose `a` is null leave 1 in `a.x`, or no number. */
  lemma NullDecides(same: Same)
    ensures AllApart([INC_A_X, SET_A_Y]) && Clash(A_NULL, INC_A_X, SET_A_Y) && !NoClash(A_NULL, [INC_A_X, SET_A_Y])
    ensures Run(A_NULL, [INC_A_X, SET_A_Y], same).Some?
    ensures exists others :: multiset(others) == multiset([INC_A_X, SET_A_Y]) && Grouped(others) && !SameOutcome(A_NULL, [INC_A_X, SET_A_Y], others, same)
  {
    hide Steps, GetAt, Run, Exec;
    ExampleApart();
    ExampleRuns(same);
    var ops := [INC_A_X, SET_A_Y];
    assert ops[0] in ops && ops[1] in ops && INC_A_X != SET_A_Y && Clash(A_NULL, INC_A_X, SET_A_Y);
    RunSucceeds(A_NULL, ops, same);
    var others := ClashBreaks(A_NULL, [INC_A_X, SET_A_Y], same);
  }

  lemma ExampleApart()
    ensures Clean(INC_A_X.path) && Clean(SET_A_Y.path) && AllApart([INC_A_X, SET_A_Y])
    ensures NullShared(A_NULL, SET_A_Y.path, INC_A_X.path)
  {
    var x, y := INC_A_X, SET_A_Y;
    assert |"a"| == 1 && |"x"| == 1 && |"y"| == 1 && |""| == 0;
    assert "x"[0] != "y"[0];
    assert x.path[1] != y.path[1];
    assert !(x.path <= y.path) && !(y.path <= x.path);
    assert multiset([x, y])[x] == 1 && multiset([x, y])[y] == 1;
  }

  lemma ExampleRuns(same: Same)
    requires Clean(INC_A_X.path) && Clean(SET_A_Y.path)
    requires NullShared(A_NULL, SET_A_Y.path, INC_A_X.path)
    ensures Exec(A_NULL, INC_A_X, same).Some? && Exec(A_NULL, SET_A_Y, same).Some?
  {
    var x, y := INC_A_X, SET_A_Y;
    assert !BlockedAt(A_NULL, x.path) && !BlockedAt(A_NULL, y.path);
    hide Step, Steps, GetAt;
    StepFails(A_NULL, x.path, Assign(Num(1)));
    StepFails(A_NULL, y.path, Assign(Num(2)));
    OneStep(A_NULL, x.path, Assign(Num(1)));
    OneStep(A_NULL, y.path, Assign(Num(2)));
    SharedReadsNull(A_NULL, y.path, x.path);
  }
}
