/** Callbacks between two dnode sessions as a state machine: functions are passed as ids into a store of
    their owner, and an id is culled once its function has run. */
module DnodeProtocol {
  import opened JsArray

  /** The identity of a function object. */
  type Fn = nat
  type Id = nat

  datatype Target = Named | Callback(id: Id)

  /** What a session emits: a call with the ids of the functions among its arguments, in the order in
      which they are met, or the news that an id is culled. */
  datatype Msg = Call(target: Target, callbacks: seq<Id>) | Cull(id: Id)

  /** What happened to the functions of a session. */
  datatype Event = Started(id: Id) | Finished(id: Id) | Threw(id: Id)

  /** One session. `local` are the functions it has passed on, by id, with holes where an id is culled;
      `given` remembers the function of every id ever given; `remote` are the ids of the other side
      it holds proxies for; `sent` is all it has ever emitted. */
  datatype Peer = Peer(
    local: seq<Option<Fn>>,
    times: map<Fn, int>,
    given: seq<Fn>,
    remote: set<Id>,
    running: Option<Id>,
    sent: seq<Msg>,
    log: seq<Event>)

  const INITIAL := Peer([], map[], [], {}, None, [], [])

  // ---------------------------------------------------------------- scrubbing

  /** `items.indexOf(fn)`: the first id under which a function is stored, or the length. */
  function IndexOf(local: seq<Option<Fn>>, f: Fn): (i: nat)
    ensures i <= |local| && (i < |local| ==> local[i] == Some(f))
    ensures forall k :: 0 <= k < i ==> local[k] != Some(f)
  {
    IndexFrom(local, f, 0)
  }

  function IndexFrom(local: seq<Option<Fn>>, f: Fn, k: nat): (i: nat)
    requires k <= |local| && forall m :: 0 <= m < k ==> local[m] != Some(f)
    ensures k <= i <= |local| && (i < |local| ==> local[i] == Some(f))
    ensures forall m :: 0 <= m < i ==> local[m] != Some(f)
    decreases |local| - k
  {
    if k == |local| || local[k] == Some(f) then k else IndexFrom(local, f, k + 1)
  }

  /** One function met while scrubbing a message that already uses some ids: the id it is stored under, if
      that is not used in this message yet, and otherwise a new one. */
  function ScrubOne(p: Peer, f: Fn, used: seq<Id>): (Peer, Id) {
    var i := IndexOf(p.local, f);
    if i < |p.local| && i !in used then (p, i)
    else (p.(local := p.local + [Some(f)], times := p.times[f := 1], given := p.given + [f]), |p.local|)
  }

  function ScrubAll(p: Peer, fns: seq<Fn>): (r: (Peer, seq<Id>))
    ensures |r.1| == |fns|
  {
    if fns == [] then (p, [])
    else
      var r := ScrubAll(p, fns[..|fns| - 1]);
      var s := ScrubOne(r.0, fns[|fns| - 1], r.1);
      (s.0, r.1 + [s.1])
  }

  // ---------------------------------------------------------------- the steps of a session

  /** `request` */
  function Send(p: Peer, target: Target, fns: seq<Fn>): Peer {
    var r := ScrubAll(p, fns);
    r.0.(sent := r.0.sent + [Call(target, r.1)])
  }

  /** `handle`: proxies are made for the ids of the message; a call of a live id starts its function, a call
      of any other id fails. */
  function Receive(p: Peer, m: Msg): Peer {
    match m
    case Cull(id) => p.(remote := p.remote - {id})
    case Call(target, callbacks) =>
      var q := p.(remote := p.remote + (set id | id in callbacks));
      if target.Callback? && At(p.local, target.id).Some? then
        q.(running := Some(target.id), log := q.log + [Started(target.id)])
      else q
  }

  /** The function that was called returns: `autoCull`. */
  function Finish(p: Peer): Peer
    requires p.running.Some? && At(p.local, p.running.value).Some?
  {
    var id := p.running.value;
    var f := At(p.local, id).value;
    var q := p.(running := None, log := p.log + [Finished(id)]);
    if f !in p.times then q
    else
      var left := p.times[f] - 1;
      var r := q.(times := q.times[f := left]);
      if left > 0 then r else r.(local := r.local[id := None], sent := r.sent + [Cull(id)])
  }

  /** The function that was called throws: nothing is culled. */
  function Throw(p: Peer): Peer
    requires p.running.Some?
  {
    p.(running := None, log := p.log + [Threw(p.running.value)])
  }

  // ---------------------------------------------------------------- what one session keeps

  ghost predicate Live(p: Peer, id: Id) {
    id < |p.local| && p.local[id].Some?
  }

  predicate Mentions(m: Msg, id: Id) {
    m.Call? && id in m.callbacks
  }

  ghost predicate Mentioned(ms: seq<Msg>, id: Id) {
    exists k :: 0 <= k < |ms| && Mentions(ms[k], id)
  }

  /** No message after the news that an id is culled mentions it. */
  ghost predicate CullIsLast(ms: seq<Msg>) {
    forall i, j :: 0 <= i < j < |ms| && ms[i].Cull? ==> !Mentions(ms[j], ms[i].id)
  }

  function Count(log: seq<Event>, e: Event): nat {
    if log == [] then 0 else Count(log[..|log| - 1], e) + (if log[|log| - 1] == e then 1 else 0)
  }

  lemma CountPush(log: seq<Event>, e: Event, x: Event)
    ensures Count(log + [x], e) == Count(log, e) + (if x == e then 1 else 0)
  {
    assert (log + [x])[..|log + [x]| - 1] == log;
  }

  /** Functions are stored under the id they were given, and none of them may run more than once more. */
  ghost predicate StoreOk(p: Peer) {
    && |p.given| == |p.local|
    && (forall id :: 0 <= id < |p.local| && p.local[id].Some? ==>
          p.local[id].value == p.given[id] && p.given[id] in p.times && p.times[p.given[id]] <= 1)
    && (p.running.Some? ==> Live(p, p.running.value))
  }

  /** Exactly the ids that are culled have been announced so, and only ids given have been mentioned. */
  ghost predicate SentOk(p: Peer) {
    && CullIsLast(p.sent)
    && (forall id: Id :: Cull(id) in p.sent <==> id < |p.local| && p.local[id].None?)
    && (forall k, id: Id :: 0 <= k < |p.sent| && Mentions(p.sent[k], id) ==> id < |p.local|)
  }

  /** Every start of a function ends at most once; it has finished exactly when its id is culled, and then once. */
  ghost predicate LogOk(p: Peer) {
    && (forall id: Id :: Count(p.log, Started(id)) ==
          Count(p.log, Finished(id)) + Count(p.log, Threw(id)) + (if p.running == Some(id) then 1 else 0))
    && (forall id: Id :: Count(p.log, Finished(id)) == if id < |p.local| && p.local[id].None? then 1 else 0)
  }

  ghost predicate PeerOk(p: Peer) {
    StoreOk(p) && SentOk(p) && LogOk(p)
  }

  ghost predicate Distinct(ids: seq<Id>) {
    forall i, j :: 0 <= i < j < |ids| ==> ids[i] != ids[j]
  }

  /** Only new ids are given: those given keep their functions. */
  ghost predicate Extends(p: Peer, q: Peer) {
    && |p.local| <= |q.local| && q.local[..|p.local|] == p.local
    && |p.given| <= |q.given| && q.given[..|p.given|] == p.given
    && (forall k :: |p.local| <= k < |q.local| ==> q.local[k].Some?)
    && q.remote == p.remote && q.running == p.running && q.sent == p.sent && q.log == p.log
  }

  /** Every function of a message gets an id of its own, live and standing for that very function, however
      often the function occurs in the message or has been passed before. */
  lemma {:induction false} ScrubKeeps(p: Peer, fns: seq<Fn>)
    requires StoreOk(p)
    ensures var (q, ids) := ScrubAll(p, fns);
            && StoreOk(q) && Extends(p, q)
            && |ids| == |fns| && Distinct(ids)
            && forall k :: 0 <= k < |ids| ==> ids[k] < |q.local| && q.local[ids[k]] == Some(fns[k])
  {
    hide ScrubAll, ScrubOne, StoreOk, Extends, Distinct;
    ScrubStep(p, fns);
    if fns == [] {
      NothingScrubbed(p);
    } else {
      var init, f := fns[..|fns| - 1], fns[|fns| - 1];
      ScrubKeeps(p, init);
      var (r, used) := ScrubAll(p, init);
      var (q, id) := ScrubOne(r, f, used);
      ScrubOneKeeps(r, f, used);
      NewId(used, id, |r.local|);
      ExtendsTrans(p, r, q);
      StillStored(r, q, init, used);
    }
  }

  lemma ScrubStep(p: Peer, fns: seq<Fn>)
    ensures fns == [] ==> ScrubAll(p, fns) == (p, [])
    ensures fns != [] ==>
              var r := ScrubAll(p, fns[..|fns| - 1]);
              var s := ScrubOne(r.0, fns[|fns| - 1], r.1);
              ScrubAll(p, fns) == (s.0, r.1 + [s.1])
  {
    hide ScrubOne;
  }

  lemma NothingScrubbed(p: Peer)
    ensures Extends(p, p) && Distinct([])
  {
  }

  lemma NewId(used: seq<Id>, id: Id, n: nat)
    requires Distinct(used) && (forall k :: 0 <= k < |used| ==> used[k] < n) && (id !in used || id == n)
    ensures Distinct(used + [id])
  {
  }

  lemma StillStored(r: Peer, q: Peer, fns: seq<Fn>, ids: seq<Id>)
    requires Extends(r, q) && |ids| == |fns|
    requires forall k :: 0 <= k < |ids| ==> ids[k] < |r.local| && r.local[ids[k]] == Some(fns[k])
    ensures forall k :: 0 <= k < |ids| ==> ids[k] < |q.local| && q.local[ids[k]] == Some(fns[k])
  {
    forall k | 0 <= k < |ids| ensures q.local[ids[k]] == Some(fns[k]) {
      assert q.local[..|r.local|][ids[k]] == r.local[ids[k]];
    }
  }

  lemma ExtendsTrans(p: Peer, r: Peer, q: Peer)
    requires Extends(p, r) && Extends(r, q)
    ensures Extends(p, q)
  {
    assert q.local[..|p.local|] == q.local[..|r.local|][..|p.local|];
    assert q.given[..|p.given|] == q.given[..|r.given|][..|p.given|];
  }

  lemma ScrubOneKeeps(r: Peer, f: Fn, used: seq<Id>)
    requires StoreOk(r)
    ensures var (q, id) := ScrubOne(r, f, used);
            StoreOk(q) && Extends(r, q) && id < |q.local| && q.local[id] == Some(f) &&
            (id !in used || id == |r.local|)
  {
    hide IndexOf;
    var i := IndexOf(r.local, f);
    if i < |r.local| && i !in used {
    } else {
      var q := ScrubOne(r, f, used).0;
      assert q.local[|r.local|] == Some(f) && q.given[|r.local|] == f;
    }
  }

  lemma {:induction false} SendKeeps(p: Peer, target: Target, fns: seq<Fn>)
    requires PeerOk(p)
    ensures PeerOk(Send(p, target, fns))
  {
    ScrubKeeps(p, fns);
    hide ScrubAll, StoreOk, Count;
    var (q, ids) := ScrubAll(p, fns);
    var m := Call(target, ids);
    var r := Send(p, target, fns);
    NewCallOk(p, q, m);
    StoreOfSent(q, m);
  }

  lemma StoreOfSent(q: Peer, m: Msg)
    requires StoreOk(q)
    ensures StoreOk(q.(sent := q.sent + [m]))
  {
  }

  /** A call that mentions live ids only comes after no news of their culling. */
  lemma {:induction false} NewCallOk(p: Peer, q: Peer, m: Msg)
    requires SentOk(p) && LogOk(p) && Extends(p, q) && m.Call?
    requires forall id :: id in m.callbacks ==> Live(q, id)
    ensures SentOk(q.(sent := q.sent + [m])) && LogOk(q.(sent := q.sent + [m]))
  {
    hide Count;
    var r := q.(sent := q.sent + [m]);
    forall id: Id ensures id < |r.local| && r.local[id].None? <==> id < |p.local| && p.local[id].None? {
      if id < |p.local| { assert q.local[..|p.local|][id] == p.local[id]; }
    }
    assert forall id: Id :: Cull(id) in r.sent <==> Cull(id) in p.sent;
    forall i, j | 0 <= i < j < |r.sent| && r.sent[i].Cull? ensures !Mentions(r.sent[j], r.sent[i].id) {
      assert p.sent[i] == Cull(r.sent[i].id) && Cull(r.sent[i].id) in p.sent;
    }
  }

  lemma {:induction false} ReceiveKeeps(p: Peer, m: Msg)
    requires PeerOk(p) && p.running.None?
    ensures PeerOk(Receive(p, m))
  {
    hide Count;
    var q := Receive(p, m);
    if m.Call? && m.target.Callback? && At(p.local, m.target.id).Some? {
      StartedOk(p, q, m.target.id);
    }
  }

  lemma StartedOk(p: Peer, q: Peer, started: Id)
    requires LogOk(p) && p.running.None? && q.running == Some(started) && q.local == p.local && q.log == p.log + [Started(started)]
    ensures LogOk(q)
  {
    hide Count;
    Counted(p.log, Started(started));
  }

  lemma Counted(log: seq<Event>, x: Event)
    ensures forall e: Event :: Count(log + [x], e) == Count(log, e) + (if e == x then 1 else 0)
  {
    hide Count;
    forall e: Event ensures Count(log + [x], e) == Count(log, e) + (if e == x then 1 else 0) {
      CountPush(log, e, x);
    }
  }

  /** A function that returns is culled: its remaining times were 1 at most. */
  lemma {:induction false} FinishKeeps(p: Peer)
    requires PeerOk(p) && p.running.Some?
    ensures At(p.local, p.running.value).Some? && PeerOk(Finish(p))
    ensures Finish(p).local == p.local[p.running.value := None]
    ensures Finish(p).sent == p.sent + [Cull(p.running.value)]
  {
    hide Count;
    var id := p.running.value;
    var q := Finish(p);
    var f := p.local[id].value;
    assert p.times[f] <= 1;
    Counted(p.log, Finished(id));
    CullOk(p, q, id);
  }

  lemma {:induction false} CullOk(p: Peer, q: Peer, id: Id)
    requires SentOk(p) && Live(p, id) && q.local == p.local[id := None] && q.sent == p.sent + [Cull(id)]
    ensures SentOk(q)
  {
    forall x: Id ensures Cull(x) in q.sent <==> x < |q.local| && q.local[x].None? {
      assert Cull(x) in q.sent <==> Cull(x) in p.sent || x == id;
    }
  }

  lemma {:induction false} ThrowKeeps(p: Peer)
    requires PeerOk(p) && p.running.Some?
    ensures PeerOk(Throw(p))
  {
    hide Count;
    Counted(p.log, Threw(p.running.value));
  }

  // ---------------------------------------------------------------- two sessions

  /** Two sessions and, for each, how many of the other's messages it has handled: the channels are first in, first out. */
  datatype Net = Net(a: Peer, b: Peer, ab: nat, ba: nat)

  /** What a session can do: emit a call at any time, even while one of its functions runs; handle the next
      message when none runs; and end a running function. */
  datatype Action = Sending(target: Target, fns: seq<Fn>) | Receiving | Finishing | Throwing

  function Swap(n: Net): Net {
    Net(n.b, n.a, n.ba, n.ab)
  }

  /** An action of the first session; None when it cannot be taken. */
  function ActFirst(n: Net, act: Action): Option<Net> {
    match act
    case Sending(target, fns) => Some(n.(a := Send(n.a, target, fns)))
    case Receiving =>
      if n.a.running.None? && n.ba < |n.b.sent| then Some(n.(a := Receive(n.a, n.b.sent[n.ba]), ba := n.ba + 1)) else None
    case Finishing =>
      if n.a.running.Some? && At(n.a.local, n.a.running.value).Some? then Some(n.(a := Finish(n.a))) else None
    case Throwing =>
      if n.a.running.Some? then Some(n.(a := Throw(n.a))) else None
  }

  function Act(n: Net, first: bool, act: Action): Option<Net> {
    if first then ActFirst(n, act)
    else
      match ActFirst(Swap(n), act)
      case None => None
      case Some(m) => Some(Swap(m))
  }

  function Run(n: Net, steps: seq<(bool, Action)>): Option<Net>
    decreases |steps|
  {
    if steps == [] then Some(n)
    else
      match Run(n, steps[..|steps| - 1])
      case None => None
      case Some(m) => Act(m, steps[|steps| - 1].0, steps[|steps| - 1].1)
  }

  const START := Net(INITIAL, INITIAL, 0, 0)

  /** q holds proxies for exactly the ids of p that the messages it has handled mention and do not cull. */
  ghost predicate RemoteOk(p: Peer, q: Peer, handled: nat) {
    && handled <= |p.sent|
    && forall id: Id :: id in q.remote <==> Mentioned(p.sent[..handled], id) && Cull(id) !in p.sent[..handled]
  }

  ghost predicate NetOk(n: Net) {
    PeerOk(n.a) && PeerOk(n.b) && RemoteOk(n.a, n.b, n.ab) && RemoteOk(n.b, n.a, n.ba)
  }

  lemma MentionedPush(ms: seq<Msg>, m: Msg, id: Id)
    ensures Mentioned(ms + [m], id) <==> Mentioned(ms, id) || Mentions(m, id)
  {
    if Mentioned(ms, id) {
      var k :| 0 <= k < |ms| && Mentions(ms[k], id);
      assert (ms + [m])[k] == ms[k];
    }
    if Mentions(m, id) { assert (ms + [m])[|ms|] == m; }
  }

  /** Handling the next message keeps the proxies right: it mentions no id already culled. */
  lemma {:induction false} ReceiveRemote(p: Peer, q: Peer, handled: nat)
    requires SentOk(p) && RemoteOk(p, q, handled) && handled < |p.sent|
    ensures RemoteOk(p, Receive(q, p.sent[handled]), handled + 1)
  {
    hide Mentioned;
    var m := p.sent[handled];
    var ms := p.sent[..handled];
    assert p.sent[..handled + 1] == ms + [m];
    forall id: Id
      ensures id in Receive(q, m).remote <==> Mentioned(ms + [m], id) && Cull(id) !in ms + [m]
    {
      MentionedPush(ms, m, id);
    }
  }

  lemma {:induction false} FirstKeeps(n: Net, act: Action)
    requires NetOk(n) && ActFirst(n, act).Some?
    ensures NetOk(ActFirst(n, act).value)
  {
    hide PeerOk, Count, Mentioned;
    var m := ActFirst(n, act).value;
    match act {
      case Sending(target, fns) =>
        SendKeeps(n.a, target, fns);
        SendFrames(n.a, target, fns);
      case Receiving =>
        PeerParts(n.b);
        ReceiveKeeps(n.a, n.b.sent[n.ba]);
        ReceiveRemote(n.b, n.a, n.ba);
      case Finishing =>
        FinishKeeps(n.a);
      case Throwing =>
        ThrowKeeps(n.a);
    }
    assert m.a.sent[..n.ab] == n.a.sent[..n.ab];
  }

  lemma PeerParts(p: Peer)
    requires PeerOk(p)
    ensures StoreOk(p) && SentOk(p) && LogOk(p)
  {
  }

  lemma SendFrames(p: Peer, target: Target, fns: seq<Fn>)
    requires PeerOk(p)
    ensures Send(p, target, fns).remote == p.remote
    ensures |Send(p, target, fns).sent| == |p.sent| + 1 && Send(p, target, fns).sent[..|p.sent|] == p.sent
  {
    ScrubKeeps(p, fns);
  }

  lemma {:induction false} ActKeeps(n: Net, first: bool, act: Action)
    requires NetOk(n) && Act(n, first, act).Some?
    ensures NetOk(Act(n, first, act).value)
  {
    if first { FirstKeeps(n, act); } else { FirstKeeps(Swap(n), act); }
  }

  /** In every reachable state of the two sessions. */
  lemma {:induction false} Reachable(steps: seq<(bool, Action)>)
    requires Run(START, steps).Some?
    ensures NetOk(Run(START, steps).value)
    decreases |steps|
  {
    if steps != [] {
      hide NetOk, Act;
      Reachable(steps[..|steps| - 1]);
      ActKeeps(Run(START, steps[..|steps| - 1]).value, steps[|steps| - 1].0, steps[|steps| - 1].1);
    }
  }

  /** Every id one session holds a proxy for is live at its owner, or the news that it is culled is still on
      its way; and no message sent after that news mentions the id. */
  lemma {:induction false} ProxiesAreLive(steps: seq<(bool, Action)>)
    requires Run(START, steps).Some?
    ensures var n := Run(START, steps).value;
            && n.ab <= |n.a.sent| && n.ba <= |n.b.sent|
            && (forall id: Id :: id in n.b.remote ==> Live(n.a, id) || Cull(id) in n.a.sent[n.ab..])
            && (forall id: Id :: id in n.a.remote ==> Live(n.b, id) || Cull(id) in n.b.sent[n.ba..])
            && CullIsLast(n.a.sent) && CullIsLast(n.b.sent)
  {
    Reachable(steps);
    var n := Run(START, steps).value;
    OneSide(n.a, n.b, n.ab);
    OneSide(n.b, n.a, n.ba);
  }

  lemma {:induction false} OneSide(p: Peer, q: Peer, handled: nat)
    requires SentOk(p) && RemoteOk(p, q, handled)
    ensures handled <= |p.sent| && forall id :: id in q.remote ==> Live(p, id) || Cull(id) in p.sent[handled..]
  {
    forall id | id in q.remote ensures Live(p, id) || Cull(id) in p.sent[handled..] {
      var k :| 0 <= k < handled && Mentions(p.sent[..handled][k], id);
      assert Mentions(p.sent[k], id);
      if !Live(p, id) {
        assert Cull(id) in p.sent;
        var i :| 0 <= i < |p.sent| && p.sent[i] == Cull(id);
        assert p.sent[handled..][i - handled] == Cull(id);
      }
    }
  }

  /** How often the function of an id has started: once for each time it threw, once if it runs now, and once
      if it has run to its end, which happens at most once and culls the id for good. Without a throw it
      is thus started at most once. */
  lemma {:induction false} StartsCounted(steps: seq<(bool, Action)>, id: Id)
    requires Run(START, steps).Some?
    ensures forall p :: p == Run(START, steps).value.a || p == Run(START, steps).value.b ==>
              && Count(p.log, Started(id)) == Count(p.log, Finished(id)) + Count(p.log, Threw(id)) + (if p.running == Some(id) then 1 else 0)
              && Count(p.log, Finished(id)) == (if id < |p.local| && p.local[id].None? then 1 else 0)
              && Count(p.log, Started(id)) <= 1 + Count(p.log, Threw(id))
  {
    Reachable(steps);
    hide Count;
    forall p | p == Run(START, steps).value.a || p == Run(START, steps).value.b
      ensures Count(p.log, Started(id)) == Count(p.log, Finished(id)) + Count(p.log, Threw(id)) + (if p.running == Some(id) then 1 else 0)
      ensures Count(p.log, Finished(id)) == (if id < |p.local| && p.local[id].None? then 1 else 0)
      ensures Count(p.log, Started(id)) <= 1 + Count(p.log, Threw(id))
    {
      assert PeerOk(p);
      assert p.running == Some(id) ==> Live(p, id);
    }
  }

  /** What a session has given and emitted is only ever added to. */
  ghost predicate Grown(p: Peer, q: Peer) {
    p.given <= q.given && p.sent <= q.sent
  }

  lemma {:induction false} ActGrows(n: Net, first: bool, act: Action)
    requires NetOk(n) && Act(n, first, act).Some?
    ensures Grown(n.a, Act(n, first, act).value.a) && Grown(n.b, Act(n, first, act).value.b)
  {
    var m := if first then n else Swap(n);
    if act.Sending? { ScrubKeeps(m.a, act.fns); }
  }

  lemma {:induction false} RunGrows(steps: seq<(bool, Action)>, k: nat)
    requires Run(START, steps).Some? && k <= |steps|
    ensures Run(START, steps[..k]).Some?
    ensures Grown(Run(START, steps[..k]).value.a, Run(START, steps).value.a)
    ensures Grown(Run(START, steps[..k]).value.b, Run(START, steps).value.b)
    decreases |steps|
  {
    hide Act, NetOk;
    if k < |steps| {
      var init := steps[..|steps| - 1];
      assert init[..k] == steps[..k];
      RunGrows(init, k);
      Reachable(init);
      ActGrows(Run(START, init).value, steps[|steps| - 1].0, steps[|steps| - 1].1);
    } else {
      assert steps[..k] == steps;
    }
  }

  /** Once a store holds a function under an id it holds that function there or, for good, none. */
  ghost predicate SameStore(was: seq<Option<Fn>>, now: seq<Option<Fn>>) {
    && |was| <= |now|
    && (forall id :: 0 <= id < |was| && was[id].Some? && now[id].Some? ==> now[id] == was[id])
    && (forall id :: 0 <= id < |was| && was[id].None? ==> now[id].None?)
  }

  lemma {:induction false} StoreKept(p: Peer, q: Peer)
    requires PeerOk(p) && PeerOk(q) && Grown(p, q)
    ensures SameStore(p.local, q.local)
  {
    hide Count, LogOk;
    forall id: nat | id < |p.local| && p.local[id].None? ensures q.local[id].None? {
      assert Cull(id) in p.sent;
      assert Cull(id) in q.sent;
    }
  }

  /** Over a whole run an id is never given to a second function, culled or not. */
  lemma {:induction false} GivenForGood(steps: seq<(bool, Action)>, k: nat)
    requires Run(START, steps).Some? && k <= |steps|
    ensures Run(START, steps[..k]).Some?
    ensures SameStore(Run(START, steps[..k]).value.a.local, Run(START, steps).value.a.local)
    ensures SameStore(Run(START, steps[..k]).value.b.local, Run(START, steps).value.b.local)
  {
    RunGrows(steps, k);
    Reachable(steps[..k]);
    Reachable(steps);
    hide Run, SameStore, PeerOk, Grown;
    StoreKept(Run(START, steps[..k]).value.a, Run(START, steps).value.a);
    StoreKept(Run(START, steps[..k]).value.b, Run(START, steps).value.b);
  }

  // ---------------------------------------------------------------- two things that can go wrong

  /** A function that throws keeps its id, so that it can be started again: here the other side calls it
      twice before it hears of the first call's end. */
  lemma ThrowingStartsTwice(f: Fn)
    ensures var steps := TwoCalls(f) + [(true, Receiving)] + [(true, Throwing)] + [(true, Receiving)];
            Run(START, steps).Some? && Count(Run(START, steps).value.a.log, Started(0)) == 2
  {
    BeforeTwoStarts(f);
    var s, n := TwoCalls(f), Net(Owner(f), Caller(2), 1, 0);
    RunPush(s, (true, Receiving));
    RunPush(s + [(true, Receiving)], (true, Throwing));
    RunPush(s + [(true, Receiving)] + [(true, Throwing)], (true, Receiving));
    hide Run, Count, TwoCalls;
    var p := Owner(f);
    var p1 := p.(running := Some(0), log := [] + [Started(0)]);
    var p2 := p.(log := [] + [Started(0)] + [Threw(0)]);
    var p3 := p.(running := Some(0), log := [] + [Started(0)] + [Threw(0)] + [Started(0)]);
    assert Act(n, true, Receiving) == Some(Net(p1, Caller(2), 1, 1));
    assert Act(Net(p1, Caller(2), 1, 1), true, Throwing) == Some(Net(p2, Caller(2), 1, 1));
    assert Act(Net(p2, Caller(2), 1, 1), true, Receiving) == Some(Net(p3, Caller(2), 1, 2));
    CountPush([] + [Started(0)] + [Threw(0)], Started(0), Started(0));
    CountPush([] + [Started(0)], Started(0), Threw(0));
    CountPush([], Started(0), Started(0));
  }

  function TwoCalls(f: Fn): seq<(bool, Action)> {
    [] + [(true, Sending(Named, [f]))] + [(false, Receiving)]
    + [(false, Sending(Callback(0), []))] + [(false, Sending(Callback(0), []))]
  }

  /** A session that has passed on one function. */
  function Owner(f: Fn): Peer {
    Peer([Some(f)], map[f := 1], [f], {}, None, [Call(Named, [0])], [])
  }

  /** A session that holds the proxy of id 0 and has called it a number of times. */
  function Caller(calls: nat): Peer {
    Peer([], map[], [], {0}, None, seq(calls, _ => Call(Callback(0), [])), [])
  }

  lemma BeforeTwoStarts(f: Fn)
    ensures Run(START, TwoCalls(f)) == Some(Net(Owner(f), Caller(2), 1, 0))
  {
    hide Act, Owner, Caller;
    assert Run(START, []) == Some(START);
    RunPush([], (true, Sending(Named, [f])));
    RunPush([] + [(true, Sending(Named, [f]))], (false, Receiving));
    RunPush([] + [(true, Sending(Named, [f]))] + [(false, Receiving)], (false, Sending(Callback(0), [])));
    RunPush([] + [(true, Sending(Named, [f]))] + [(false, Receiving)] + [(false, Sending(Callback(0), []))],
            (false, Sending(Callback(0), [])));
    hide Run;
    Passed(f);
    Called(f, 0);
    Called(f, 1);
  }

  lemma Passed(f: Fn)
    ensures Act(START, true, Sending(Named, [f])) == Some(Net(Owner(f), INITIAL, 0, 0))
    ensures Act(Net(Owner(f), INITIAL, 0, 0), false, Receiving) == Some(Net(Owner(f), Caller(0), 1, 0))
  {
    OneFunction(INITIAL, f);
    hide ScrubAll;
    assert Send(INITIAL, Named, [f]) == Owner(f);
    assert (set id | id in [0]) == {0};
    assert Receive(INITIAL, Call(Named, [0])) == Caller(0);
  }

  lemma Called(f: Fn, calls: nat)
    ensures Act(Net(Owner(f), Caller(calls), 1, 0), false, Sending(Callback(0), [])) == Some(Net(Owner(f), Caller(calls + 1), 1, 0))
  {
    OneFunction(Caller(calls), f);
    hide ScrubAll;
    assert Caller(calls + 1).sent == Caller(calls).sent + [Call(Callback(0), [])];
  }

  lemma OneFunction(p: Peer, f: Fn)
    ensures ScrubAll(p, [f]) == (ScrubOne(p, f, []).0, [ScrubOne(p, f, []).1])
    ensures ScrubAll(p, []) == (p, [])
  {
    hide ScrubOne;
    assert [f][..|[f]| - 1] == [] && [f][|[f]| - 1] == f;
    assert ScrubAll(p, []) == (p, []);
    var s := ScrubOne(p, f, []);
    assert [] + [s.1] == [s.1];
  }

  lemma RunPush(steps: seq<(bool, Action)>, s: (bool, Action))
    ensures Run(START, steps).Some? ==> Run(START, steps + [s]) == Act(Run(START, steps).value, s.0, s.1)
  {
    hide Act;
    var all := steps + [s];
    assert all != [] && all[|all| - 1] == s && all[..|all| - 1] == steps;
  }

  /** Which of the ids that are live already a message uses: that of each of its functions, but only the first one. */
  lemma {:induction false} WhichIds(p: Peer, fns: seq<Fn>, id: Id)
    requires StoreOk(p) && Live(p, id)
    ensures id in ScrubAll(p, fns).1 <==> p.local[id].value in fns && IndexOf(p.local, p.local[id].value) == id
    decreases |fns|
  {
    if fns != [] {
      var init, f := fns[..|fns| - 1], fns[|fns| - 1];
      assert fns == init + [f];
      WhichIds(p, init, id);
      ScrubKeeps(p, init);
      var (r, used) := ScrubAll(p, init);
      hide StoreOk, ScrubAll;
      FirstStays(p, r, f);
    }
  }

  /** The first place of a function among the ids given before does not change. */
  lemma FirstStays(p: Peer, r: Peer, f: Fn)
    requires Extends(p, r)
    ensures IndexOf(p.local, f) < |p.local| || IndexOf(r.local, f) < |p.local| ==> IndexOf(r.local, f) == IndexOf(p.local, f)
  {
    var i, j := IndexOf(p.local, f), IndexOf(r.local, f);
    assert forall k :: 0 <= k < |p.local| ==> r.local[k] == r.local[..|p.local|][k] == p.local[k];
  }

  /** A message that is sent while a function runs holds ids that are live after the function has returned,
      except when it passes on that very function and the id it runs as is the first it is stored under:
      then that id is culled right behind the message. */
  lemma {:induction false} ResentWhileRunning(p: Peer, target: Target, fns: seq<Fn>)
    requires PeerOk(p) && p.running.Some?
    ensures var id, ids, q := p.running.value, ScrubAll(p, fns).1, Send(p, target, fns);
            && q.running == Some(id) && Live(q, id)
            && Finish(q).sent == p.sent + [Call(target, ids), Cull(id)]
            && ((forall i :: i in ids ==> Live(Finish(q), i)) <==>
                !(p.local[id].value in fns && IndexOf(p.local, p.local[id].value) == id))
  {
    SendKeeps(p, target, fns);
    ScrubKeeps(p, fns);
    WhichIds(p, fns, p.running.value);
    FinishKeeps(Send(p, target, fns));
    hide ScrubAll, StoreOk, PeerOk, Count, IndexOf, Finish;
    OnlyCulled(p, ScrubAll(p, fns).0, ScrubAll(p, fns).1, fns, p.running.value);
  }

  /** Of the ids of a message only the one that is culled is not live afterwards. */
  lemma OnlyCulled(p: Peer, r: Peer, ids: seq<Id>, fns: seq<Fn>, id: Id)
    requires Extends(p, r) && |ids| == |fns| && Live(p, id)
    requires forall k :: 0 <= k < |ids| ==> ids[k] < |r.local| && r.local[ids[k]] == Some(fns[k])
    ensures Live(r, id)
    ensures forall q: Peer :: q.local == r.local[id := None] ==> ((forall i :: i in ids ==> Live(q, i)) <==> id !in ids)
  {
    assert r.local[..|p.local|][id] == p.local[id];
    forall q: Peer | q.local == r.local[id := None] ensures (forall i :: i in ids ==> Live(q, i)) <==> id !in ids {
      forall i | i in ids ensures Live(q, i) <==> i != id {
        var k :| 0 <= k < |ids| && ids[k] == i;
      }
    }
  }

  /** A run that gets there: the function of id 0 is called, passes itself on, and returns. */
  lemma ResentRun(f: Fn)
    ensures var steps := [] + [(true, Sending(Named, [f]))] + [(false, Receiving)] + [(false, Sending(Callback(0), []))]
                         + [(true, Receiving)] + [(true, Sending(Named, [f]))] + [(true, Finishing)];
            && Run(START, steps).Some?
            && Run(START, steps).value.a.sent == [Call(Named, [0]), Call(Named, [0]), Cull(0)]
            && !Live(Run(START, steps).value.a, 0)
  {
    hide Act, Owner, Caller;
    assert Run(START, []) == Some(START);
    var s0 := [] + [(true, Sending(Named, [f]))] + [(false, Receiving)] + [(false, Sending(Callback(0), []))];
    RunPush([], (true, Sending(Named, [f])));
    RunPush([] + [(true, Sending(Named, [f]))], (false, Receiving));
    RunPush([] + [(true, Sending(Named, [f]))] + [(false, Receiving)], (false, Sending(Callback(0), [])));
    RunPush(s0, (true, Receiving));
    RunPush(s0 + [(true, Receiving)], (true, Sending(Named, [f])));
    RunPush(s0 + [(true, Receiving)] + [(true, Sending(Named, [f]))], (true, Finishing));
    hide Run;
    Passed(f);
    Called(f, 0);
    PassedAgain(f);
  }

  /** The owner of a function while it runs, before and after passing it on again, and when it has returned. */
  lemma PassedAgain(f: Fn)
    ensures var p, q := Owner(f), Caller(1);
            var p1 := p.(running := Some(0), log := [] + [Started(0)]);
            var p2 := p1.(sent := p.sent + [Call(Named, [0])]);
            && Act(Net(p, q, 1, 0), true, Receiving) == Some(Net(p1, q, 1, 1))
            && Act(Net(p1, q, 1, 1), true, Sending(Named, [f])) == Some(Net(p2, q, 1, 1))
            && Act(Net(p2, q, 1, 1), true, Finishing).Some?
            && Act(Net(p2, q, 1, 1), true, Finishing).value.a.sent == [Call(Named, [0]), Call(Named, [0]), Cull(0)]
            && !Live(Act(Net(p2, q, 1, 1), true, Finishing).value.a, 0)
  {
    var p, q := Owner(f), Caller(1);
    var p1 := p.(running := Some(0), log := [] + [Started(0)]);
    OneFunction(p1, f);
    hide ScrubAll;
    assert ScrubOne(p1, f, []) == (p1, 0);
    var p2 := p1.(sent := p.sent + [Call(Named, [0])]);
    assert Send(p1, Named, [f]) == p2;
    assert Receive(p, Call(Callback(0), [])) == p1 by { assert p.remote + (set id | id in p.remote - p.remote) == p.remote; }
    assert q.sent[0] == Call(Callback(0), []);
    assert Finish(p2).sent == p2.sent + [Cull(0)];
    assert [Call(Named, [0])] + [Call(Named, [0])] + [Cull(0)] == [Call(Named, [0]), Call(Named, [0]), Cull(0)];
  }
}
