/** Which functions run in a session: those that the other side calls, in the order of its calls. */
module DnodeStarts {
  import opened JsArray
  import opened DnodeProtocol

  /** The net as one of the two sessions sees it: itself first. */
  function Side(n: Net, first: bool): Net {
    if first then n else Swap(n)
  }

  /** The ids of the functions started, in order. */
  function StartsOf(log: seq<Event>): seq<Id> {
    if log == [] then []
    else
      var last := log[|log| - 1];
      StartsOf(log[..|log| - 1]) + if last.Started? then [last.id] else []
  }

  lemma StartsPush(log: seq<Event>, e: Event)
    ensures StartsOf(log + [e]) == if e.Started? then StartsOf(log) + [e.id] else StartsOf(log)
  {
    assert (log + [e])[..|log|] == log;
  }

  /** The id that the next message to a session calls, if it is live there. */
  function Called(n: Net): Option<Id> {
    if n.ba < |n.b.sent| && n.b.sent[n.ba].Call? && n.b.sent[n.ba].target.Callback?
       && At(n.a.local, n.b.sent[n.ba].target.id).Some?
    then Some(n.b.sent[n.ba].target.id)
    else None
  }

  /** The live ids that the messages handled by a session call, in the order in which they are handled. */
  function Calls(steps: seq<(bool, Action)>, first: bool): seq<Id>
    requires Run(START, steps).Some?
    decreases |steps|
  {
    if steps == [] then []
    else
      var init, last := steps[..|steps| - 1], steps[|steps| - 1];
      var called := Called(Side(Run(START, init).value, first));
      Calls(init, first) + if last == (first, Receiving) && called.Some? then [called.value] else []
  }

  /** Handling a message starts the function of the id it calls, if that is live, and else none. */
  lemma {:induction false} HandledStarts(n: Net, first: bool)
    requires NetOk(n) && Act(n, first, Receiving).Some?
    ensures var p, q, called := Side(n, first).a, Side(Act(n, first, Receiving).value, first).a, Called(Side(n, first));
            && p.running.None? && q.local == p.local && q.given == p.given && q.sent == p.sent
            && q.running == called
            && q.log == (if called.Some? then p.log + [Started(called.value)] else p.log)
            && (called.Some? ==> called.value < |p.local| == |p.given| && p.local[called.value] == Some(p.given[called.value]))
  {
    hide Count;
  }

  /** No other action of either session starts one. */
  lemma {:induction false} OthersStartNone(n: Net, first: bool, actor: bool, act: Action)
    requires NetOk(n) && Act(n, actor, act).Some? && (actor, act) != (first, Receiving)
    ensures StartsOf(Side(Act(n, actor, act).value, first).a.log) == StartsOf(Side(n, first).a.log)
  {
    hide Count, StartsOf;
    var p := Side(n, actor).a;
    match act
    case Sending(target, fns) => ScrubKeeps(p, fns);
    case Finishing => FinishKeeps(p); StartsPush(p.log, Finished(p.running.value));
    case Throwing => StartsPush(p.log, Threw(p.running.value));
    case Receiving =>
  }

  /** Over a whole run the functions started in a session are exactly those of the live ids that its messages called, in that order. */
  lemma {:induction false} StartsAreCalls(steps: seq<(bool, Action)>, first: bool)
    requires Run(START, steps).Some?
    ensures StartsOf(Side(Run(START, steps).value, first).a.log) == Calls(steps, first)
    decreases |steps|
  {
    if steps != [] {
      var init, last := steps[..|steps| - 1], steps[|steps| - 1];
      hide Act, NetOk, Called, StartsOf;
      StartsAreCalls(init, first);
      Reachable(init);
      var n := Run(START, init).value;
      if last == (first, Receiving) {
        HandledStarts(n, first);
        var called := Called(Side(n, first));
        if called.Some? { StartsPush(Side(n, first).a.log, Started(called.value)); }
      } else {
        OthersStartNone(n, first, last.0, last.1);
      }
    }
  }

  /** A function that returns culls the very id it was started under. */
  lemma {:induction false} ReturnCulls(n: Net, first: bool)
    requires NetOk(n) && Act(n, first, Finishing).Some?
    ensures var p, q := Side(n, first).a, Side(Act(n, first, Finishing).value, first).a;
            && p.running.Some? && p.running.value < |p.local|
            && q.running.None? && q.local == p.local[p.running.value := None] && q.given == p.given
            && q.sent == p.sent + [Cull(p.running.value)] && q.log == p.log + [Finished(p.running.value)]
  {
    hide Count;
    FinishKeeps(Side(n, first).a);
  }

  /** The ids in a message that is sent are given to the functions passed on. */
  lemma {:induction false} SentGiven(n: Net, first: bool, target: Target, fns: seq<Fn>)
    requires NetOk(n)
    ensures Act(n, first, Sending(target, fns)).Some?
    ensures var q := Side(Act(n, first, Sending(target, fns)).value, first).a;
            && q.sent != [] && q.sent[|q.sent| - 1].Call? && q.sent[|q.sent| - 1].target == target
            && |q.sent[|q.sent| - 1].callbacks| == |fns|
            && StandFor(q, q.sent[|q.sent| - 1].callbacks, fns)
  {
    hide Count, SentOk, LogOk;
    var p := Side(n, first).a;
    ScrubKeeps(p, fns);
    var (r, ids) := ScrubAll(p, fns);
    forall k | 0 <= k < |fns| ensures ids[k] < |r.given| && r.given[ids[k]] == fns[k] {
      assert r.local[ids[k]] == Some(fns[k]);
    }
  }

  /** The ids were given to these functions. */
  ghost predicate StandFor(p: Peer, ids: seq<Id>, fns: seq<Fn>)
    requires |ids| == |fns|
  {
    forall k :: 0 <= k < |fns| ==> ids[k] < |p.given| && p.given[ids[k]] == fns[k]
  }

  /** Calling the proxy made for an occurrence of a function runs that function: whatever happens between the message that
      passes it on and the call, if the id is still live when the call is handled. */
  lemma {:induction false} PassedFunctionRuns(steps: seq<(bool, Action)>, first: bool, i: nat, j: nat, k: nat)
    requires Run(START, steps).Some? && i < j < |steps| && steps[i].0 == first && steps[i].1.Sending? && k < |steps[i].1.fns|
    requires steps[j] == (first, Receiving)
    ensures Run(START, steps[..i + 1]).Some? && Run(START, steps[..j]).Some? && Run(START, steps[..j + 1]).Some?
    ensures var sent := Side(Run(START, steps[..i + 1]).value, first).a.sent;
            && sent != [] && sent[|sent| - 1].Call? && k < |sent[|sent| - 1].callbacks|
            && (Called(Side(Run(START, steps[..j]).value, first)) == Some(sent[|sent| - 1].callbacks[k]) ==>
                  var q := Side(Run(START, steps[..j + 1]).value, first).a;
                  && q.running == Some(sent[|sent| - 1].callbacks[k])
                  && At(q.local, q.running.value) == Some(steps[i].1.fns[k]))
  {
    hide Act, NetOk, Called, Run;
    RunTo(steps, i);
    RunTo(steps, j);
    var n, m := Run(START, steps[..i]).value, Run(START, steps[..j]).value;
    SentGiven(n, first, steps[i].1.target, steps[i].1.fns);
    HandledStarts(m, first);
    Given(steps, i + 1, j, first);
    assert steps[i].1 == Sending(steps[i].1.target, steps[i].1.fns);
    var p, q := Side(Run(START, steps[..i + 1]).value, first).a, Side(m, first).a;
    var id := p.sent[|p.sent| - 1].callbacks[k];
    assert StandFor(p, p.sent[|p.sent| - 1].callbacks, steps[i].1.fns);
    assert id == p.sent[|p.sent| - 1].callbacks[k] && q.given[id] == p.given[id];
  }

  lemma RunTo(steps: seq<(bool, Action)>, i: nat)
    requires Run(START, steps).Some? && i < |steps|
    ensures Run(START, steps[..i]).Some? && NetOk(Run(START, steps[..i]).value)
    ensures Run(START, steps[..i + 1]) == Act(Run(START, steps[..i]).value, steps[i].0, steps[i].1)
    ensures Run(START, steps[..i + 1]).Some?
  {
    hide Act, NetOk;
    RunGrows(steps, i);
    RunGrows(steps, i + 1);
    Reachable(steps[..i]);
    assert steps[..i + 1][..i] == steps[..i];
  }

  /** What has been given stays so. */
  lemma Given(steps: seq<(bool, Action)>, i: nat, j: nat, first: bool)
    requires Run(START, steps).Some? && i <= j <= |steps|
    ensures Run(START, steps[..i]).Some? && Run(START, steps[..j]).Some?
    ensures Side(Run(START, steps[..i]).value, first).a.given <= Side(Run(START, steps[..j]).value, first).a.given
  {
    hide Act, NetOk, Run;
    RunGrows(steps, j);
    RunGrows(steps[..j], i);
    assert steps[..j][..i] == steps[..i];
  }
}
