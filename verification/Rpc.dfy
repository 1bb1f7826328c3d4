/**
  The dispatcher of remote calls: a table of pending outbound calls, keyed by
  message ids of 32 bits, and the answers to incoming requests.

  A call is known by its draw, the number of ids drawn before its own by any
  dispatcher of the process; its id is what is left of that in 32 bits.
 */
module Rpc {
  import opened Wrappers

  const ID_LIMIT := 0x1_0000_0000

  newtype u32 = x: int | 0 <= x < 0x1_0000_0000
  type Draw = nat
  type Body = string

  function IdOf(d: Draw): u32 {
    (d % ID_LIMIT) as u32
  }

  // What an incoming message looks like; code is that of its error, if it has one.
  datatype Incoming =
    | Malformed
    | Incoming(id: Option<u32>, name: Option<string>, code: Option<int>, result: bool, body: Body)

  datatype Outcome = Error(code: int) | Success(body: Body)
  datatype Delivery = Delivery(call: Draw, outcome: Outcome)

  // calls and poisoned are the table and its lock; the rest is history: the calls
  // of this dispatcher that have an id and are not in the table yet, those whose
  // continuation was run, replaced in the table, or given up for a poisoned lock.
  datatype State = State(
    drawn: nat,
    own: set<Draw>,
    calls: map<u32, Draw>,
    poisoned: bool,
    drawing: set<Draw>,
    fired: seq<Delivery>,
    lost: set<Draw>,
    failed: set<Draw>)

  const INIT := State(0, {}, map[], false, {}, [], {}, {})

  /* ---- Steps: an id is drawn, a call is put in the table, a message comes in ---- */

  datatype Event = Drawn(own: bool) | Inserted(call: Draw) | Received(message: Incoming)

  predicate IsResponse(m: Incoming) {
    m.Incoming? && m.name.None? && (m.code.Some? || m.result)
  }

  function OutcomeOf(m: Incoming): Outcome
    requires IsResponse(m)
  {
    if m.code.Some? then Error(m.code.value) else Success(m.body)
  }

  function Insert(s: State, d: Draw): State {
    var s' := s.(drawing := s.drawing - {d});
    if s.poisoned then s'.(failed := s.failed + {d})
    else s'.(calls := s.calls[IdOf(d) := d], lost := s.lost + if IdOf(d) in s.calls then {s.calls[IdOf(d)]} else {})
  }

  function Receive(s: State, m: Incoming): State {
    if IsResponse(m) then Deliver(s, m.id, OutcomeOf(m)) else s
  }

  // A response without an id panics while the table is locked, which poisons the lock.
  function Deliver(s: State, id: Option<u32>, outcome: Outcome): State {
    if s.poisoned then s
    else if id.None? then s.(poisoned := true)
    else if id.value !in s.calls then s
    else s.(calls := s.calls - {id.value}, fired := s.fired + [Delivery(s.calls[id.value], outcome)])
  }

  predicate Enabled(s: State, e: Event) {
    e.Inserted? ==> e.call in s.drawing
  }

  function Step(s: State, e: Event): State {
    match e
    case Drawn(own) =>
      if own then s.(drawn := s.drawn + 1, own := s.own + {s.drawn}, drawing := s.drawing + {s.drawn})
      else s.(drawn := s.drawn + 1)
    case Inserted(d) => Insert(s, d)
    case Received(m) => Receive(s, m)
  }

  ghost predicate IsRun(run: seq<State>, events: seq<Event>) {
    && |run| == |events| + 1 && run[0] == INIT
    && (forall i :: 0 <= i < |events| ==> Enabled(run[i], events[i]) && run[i + 1] == Step(run[i], events[i]))
  }

  /* ---- Where a call is ---- */

  ghost predicate Pending(s: State, d: Draw) {
    IdOf(d) in s.calls && s.calls[IdOf(d)] == d
  }

  function Fired(fired: seq<Delivery>, d: Draw): nat {
    if fired == [] then 0
    else Fired(fired[..|fired| - 1], d) + if fired[|fired| - 1].call == d then 1 else 0
  }

  function One(here: bool): nat {
    if here then 1 else 0
  }

  ghost function Places(s: State, d: Draw): nat {
    One(d in s.drawing) + One(Pending(s, d)) + Fired(s.fired, d) + One(d in s.lost) + One(d in s.failed)
  }

  ghost predicate Inv(s: State) {
    && (forall d: Draw :: Places(s, d) == One(d in s.own))
    && (forall id :: id in s.calls ==> IdOf(s.calls[id]) == id)
    && (forall d :: d in s.own ==> d < s.drawn)
    && (forall d :: d in s.lost ==> exists e :: e in s.own && e != d && IdOf(e) == IdOf(d))
  }

  lemma FiredAppend(fired: seq<Delivery>, x: Delivery, d: Draw)
    ensures Fired(fired + [x], d) == Fired(fired, d) + One(x.call == d)
  {
    assert (fired + [x])[..|fired|] == fired;
  }

  lemma InsertPlaces(s: State, c: Draw, d: Draw)
    requires Inv(s) && c in s.drawing
    ensures Places(Insert(s, c), d) == Places(s, d)
  {
    assert Places(s, c) == One(c in s.own) && Places(s, d) == One(d in s.own);
    if Pending(s, d) && IdOf(d) == IdOf(c) && !s.poisoned {
      assert s.calls[IdOf(c)] == d;
    }
  }

  lemma ReceivePlaces(s: State, m: Incoming, d: Draw)
    requires Inv(s)
    ensures Places(Receive(s, m), d) == Places(s, d)
  {
    if Receive(s, m).fired != s.fired {
      FiredAppend(s.fired, Delivery(s.calls[m.id.value], OutcomeOf(m)), d);
    }
  }

  lemma StepPlaces(s: State, e: Event, d: Draw)
    requires Inv(s) && Enabled(s, e)
    ensures Places(Step(s, e), d) == One(d in Step(s, e).own)
  {
    assert Places(s, d) == One(d in s.own);
    match e {
      case Drawn(own) => assert Places(s, s.drawn) == One(s.drawn in s.own);
      case Inserted(c) => InsertPlaces(s, c, d);
      case Received(m) => ReceivePlaces(s, m, d);
    }
  }

  lemma StepKeeps(s: State, e: Event)
    requires Inv(s) && Enabled(s, e)
    ensures Inv(Step(s, e))
  {
    var s' := Step(s, e);
    forall d: Draw
      ensures Places(s', d) == One(d in s'.own)
    {
      StepPlaces(s, e, d);
    }
    forall d | d in s'.lost
      ensures exists c :: c in s'.own && c != d && IdOf(c) == IdOf(d)
    {
      if d in s.lost {
        var c :| c in s.own && c != d && IdOf(c) == IdOf(d);
        assert c in s'.own;
      } else {
        assert Places(s, e.call) == One(e.call in s.own) && Places(s, d) == One(d in s.own);
        assert e.call in s'.own && e.call != d && IdOf(e.call) == IdOf(d);
      }
    }
  }

  lemma {:induction false} RunInv(run: seq<State>, events: seq<Event>, i: nat)
    requires IsRun(run, events) && i < |run|
    ensures Inv(run[i])
  {
    if i > 0 {
      RunInv(run, events, i - 1);
      StepKeeps(run[i - 1], events[i - 1]);
    }
  }

  ghost predicate EndsRun(x: Sealed, s: State) {
    exists run, events :: IsRun(run, events) && run[|run| - 1] == s
  }

  // Some run ends in s.
  ghost predicate Reachable(s: State) {
    forall x: Sealed :: EndsRun(x, s)
  }

  lemma ReachableInv(s: State)
    requires Reachable(s)
    ensures Inv(s)
  {
    assert EndsRun(Sealed, s);
    var run, events :| IsRun(run, events) && run[|run| - 1] == s;
    RunInv(run, events, |run| - 1);
  }

  /* ---- What every run does ---- */

  // Every call that drew an id is in one place, once: on its way to the table, in
  // it, answered, replaced, or given up.  So no continuation runs twice.
  lemma OnePlaceEach(s: State, d: Draw)
    requires Reachable(s)
    ensures Places(s, d) == One(d in s.own)
    ensures Fired(s.fired, d) <= 1
  {
    ReachableInv(s);
  }

  // A call is lost exactly if, while it was pending, another one of the same id
  // was put in the table.
  lemma {:induction false} LostExactly(run: seq<State>, events: seq<Event>, d: Draw)
    requires IsRun(run, events)
    ensures d in run[|events|].lost <==> exists i :: 0 <= i < |events| && Replaces(run[i], events[i], d)
  {
    if events != [] {
      var k := |events| - 1;
      var run', events' := run[..k + 1], events[..k];
      assert IsRun(run', events') && run'[k] == run[k];
      LostExactly(run', events', d);
      RunInv(run, events, k);
      assert run[k + 1] == Step(run[k], events[k]);
      ReplacedStep(run[k], events[k], d);
      forall i | 0 <= i < k
        ensures Replaces(run[i], events[i], d) <==> Replaces(run'[i], events'[i], d)
      {
      }
    }
  }

  ghost predicate Replaces(s: State, e: Event, d: Draw) {
    e.Inserted? && !s.poisoned && e.call != d && IdOf(e.call) == IdOf(d) && Pending(s, d)
  }

  lemma ReplacedStep(s: State, e: Event, d: Draw)
    requires Inv(s) && Enabled(s, e)
    ensures d in Step(s, e).lost <==> d in s.lost || Replaces(s, e, d)
  {
    if e.Inserted? {
      assert Places(s, e.call) == One(e.call in s.own);
    }
  }

  lemma SameId(c: Draw, d: Draw)
    requires c < ID_LIMIT && d < ID_LIMIT && IdOf(c) == IdOf(d)
    ensures c == d
  {
  }

  // With at most 2^32 ids drawn no call is lost: those that reached the table and
  // have not been answered are the ones in it, as long as the lock is not poisoned.
  lemma NoneLost(s: State)
    requires Reachable(s) && s.drawn <= ID_LIMIT
    ensures s.lost == {}
    ensures forall d ::
      Pending(s, d) <==> d in s.own && d !in s.drawing && d !in s.failed && Fired(s.fired, d) == 0
  {
    ReachableInv(s);
    forall d
      ensures d !in s.lost
    {
      assert Places(s, d) == One(d in s.own);
      if d in s.own {
        forall c | c in s.own && IdOf(c) == IdOf(d)
          ensures c == d
        {
          SameId(c, d);
        }
      }
    }
    forall d: Draw
      ensures Pending(s, d) <==> d in s.own && d !in s.drawing && d !in s.failed && Fired(s.fired, d) == 0
    {
      assert Places(s, d) == One(d in s.own);
    }
  }

  // One more continuation has been run, that of call d: with the error code of the
  // message if it has one, and with its body if it has a result and no error.
  ghost predicate Delivers(before: seq<Delivery>, after: seq<Delivery>, d: Draw, m: Incoming) {
    && m.Incoming? && |after| == |before| + 1 && before <= after && after[|before|].call == d
    && (m.code.Some? ==> after[|before|].outcome == Error(m.code.value))
    && (m.code.None? && m.result ==> after[|before|].outcome == Success(m.body))
  }

  // At any time a response runs the continuation of the pending call with its id -
  // there is at most one - and no other; as long as at most 2^32 ids have been drawn
  // that is the call the response is for, or none.
  lemma AnswerArrives(s: State, m: Incoming, d: Draw)
    requires Reachable(s) && IsResponse(m) && m.id == Some(IdOf(d))
    ensures Pending(s, d) && !s.poisoned ==> Delivers(s.fired, Receive(s, m).fired, d, m)
    ensures !Pending(s, d) ==> Fired(Receive(s, m).fired, d) == Fired(s.fired, d)
    ensures !Pending(s, d) && d in s.own && s.drawn <= ID_LIMIT ==> Receive(s, m).fired == s.fired
    ensures (forall c: Draw :: Pending(s, c) ==> IdOf(c) != IdOf(d)) || s.poisoned ==> Receive(s, m) == s
    ensures forall c: Draw :: Pending(Receive(s, m), c) <==> Pending(s, c) && (IdOf(c) != IdOf(d) || s.poisoned)
  {
    ReachableInv(s);
    var id := IdOf(d);
    if id in s.calls {
      var c := s.calls[id];
      assert Places(s, c) == One(c in s.own) && Pending(s, c);
      if d in s.own && s.drawn <= ID_LIMIT {
        SameId(c, d);
      }
      FiredAppend(s.fired, Delivery(c, OutcomeOf(m)), d);
    }
  }

  // After a replacement the response goes to the call that replaced.
  lemma AnswersReplacement(s: State, c: Draw, d: Draw, m: Incoming)
    requires Reachable(s) && Enabled(s, Inserted(c)) && Replaces(s, Inserted(c), d)
    requires IsResponse(m) && m.id == Some(IdOf(d))
    ensures var t := Receive(Insert(s, c), m);
      Delivers(s.fired, t.fired, c, m) && d in t.lost && Fired(t.fired, d) == 0
  {
    ReachableInv(s);
    assert Places(s, d) == One(d in s.own);
    FiredAppend(s.fired, Delivery(c, OutcomeOf(m)), d);
  }

  // The call enters the table; and what takes a call with its id out of it.
  ghost predicate Enters(s: State, e: Event, c: Draw) {
    e == Inserted(c) && !s.poisoned
  }

  ghost predicate Leaves(s: State, e: Event, c: Draw) {
    && !s.poisoned
    && ((e.Inserted? && IdOf(e.call) == IdOf(c))
        || (e.Received? && IsResponse(e.message) && e.message.id == Some(IdOf(c))))
  }

  lemma PendingStep(s: State, e: Event, c: Draw)
    requires Inv(s) && Enabled(s, e)
    ensures Pending(Step(s, e), c) <==> Enters(s, e, c) || (Pending(s, c) && !Leaves(s, e, c))
  {
  }

  // A call is pending exactly if it entered the table and since then no call of its
  // id has entered and no response with its id has come in.
  lemma {:induction false} PendingExactly(run: seq<State>, events: seq<Event>, c: Draw)
    requires IsRun(run, events)
    ensures Pending(run[|events|], c) <==>
      exists i :: 0 <= i < |events| && Enters(run[i], events[i], c) && StaysSince(run, events, i, c)
  {
    if events != [] {
      var k := |events| - 1;
      var run', events' := run[..k + 1], events[..k];
      assert IsRun(run', events') && run'[k] == run[k];
      PendingExactly(run', events', c);
      RunInv(run, events, k);
      assert run[k + 1] == Step(run[k], events[k]);
      PendingStep(run[k], events[k], c);
      forall i | 0 <= i < k
        ensures Enters(run[i], events[i], c) == Enters(run'[i], events'[i], c)
        ensures StaysSince(run, events, i, c) <==> StaysSince(run', events', i, c) && !Leaves(run[k], events[k], c)
      {
        assert forall j :: i < j < k ==> run'[j] == run[j] && events'[j] == events[j];
      }
    }
  }

  ghost predicate StaysSince(run: seq<State>, events: seq<Event>, i: nat, c: Draw)
    requires |run| == |events| + 1 && i < |events|
  {
    forall j :: i < j < |events| ==> !Leaves(run[j], events[j], c)
  }

  // A lost call is never answered: a response with its id goes to another call, or to none.
  lemma {:induction false} LostForever(run: seq<State>, events: seq<Event>, i: nat, j: nat, d: Draw)
    requires IsRun(run, events) && i <= j < |run| && d in run[i].lost
    ensures d in run[j].lost && Fired(run[j].fired, d) == 0
  {
    RunInv(run, events, j);
    if i < j {
      LostForever(run, events, i, j - 1, d);
      assert run[j] == Step(run[j - 1], events[j - 1]);
    }
    assert Places(run[j], d) == One(d in run[j].own);
  }

  // After one response without an id nothing pending is ever answered.
  lemma {:induction false} PoisonedForever(run: seq<State>, events: seq<Event>, i: nat, j: nat)
    requires IsRun(run, events) && i <= j < |run| && run[i].poisoned
    ensures run[j].poisoned && run[j].calls == run[i].calls && run[j].fired == run[i].fired
  {
    if i < j {
      PoisonedForever(run, events, i, j - 1);
      assert run[j] == Step(run[j - 1], events[j - 1]);
    }
  }

  // The lock is poisoned exactly if a response without an id has come in.
  lemma {:induction false} PoisonedExactly(run: seq<State>, events: seq<Event>)
    requires IsRun(run, events)
    ensures run[|events|].poisoned <==> exists i :: 0 <= i < |events| && Poisons(events[i])
  {
    if events != [] {
      var k := |events| - 1;
      assert IsRun(run[..k + 1], events[..k]);
      PoisonedExactly(run[..k + 1], events[..k]);
      assert run[k + 1] == Step(run[k], events[k]);
      assert forall i :: 0 <= i < k ==> events[..k][i] == events[i];
    }
  }

  predicate Poisons(e: Event) {
    e.Received? && IsResponse(e.message) && e.message.id.None?
  }

  /* ---- The dispatcher ---- */

  datatype Handled = BadParams | Failed | Returned(value: Body)
  datatype Method = Method(sync: bool, run: Body -> Handled)

  datatype Reply = ErrorReply(id: u32, code: int) | SuccessReply(id: u32, value: Body)

  // What dispatch returns: a reply at once, or when the handler has finished.
  datatype Reaction = Sync(reply: Option<Reply>) | Future(reply: Option<Reply>) | Panic

  // The counter that all dispatchers share.
  class MessageIds {
    var counter: u32
    var drawn: Draw    // in place of the continuation of the call

    ghost predicate Valid()
      reads this
    {
      counter == IdOf(drawn)
    }

    constructor ()
      ensures Valid() && drawn == 0
    {
      counter, drawn := 0, 0;
    }

    method NextMessageId() returns (id: u32, d: Draw)
      requires Valid()
      modifies this
      ensures Valid() && d == old(drawn) && drawn == d + 1 && id == IdOf(d)
      ensures id == old(counter) && counter as int == (id as int + 1) % 0x1_0000_0000
    {
      id, d := counter, drawn;
      counter := if counter == 0xFFFF_FFFF then 0 else counter + 1;
      drawn := drawn + 1;
    }
  }

  // A call draws an id and puts itself in the table, with nothing in between.
  function CallStep(s: State): State {
    Insert(Step(s, Drawn(true)), s.drawn)
  }

  lemma CallKeeps(s: State)
    requires Inv(s)
    ensures Inv(CallStep(s)) && CallStep(s).drawing == s.drawing
  {
    StepKeeps(s, Drawn(true));
    StepKeeps(Step(s, Drawn(true)), Inserted(s.drawn));
    assert Places(s, s.drawn) == One(s.drawn in s.own);
  }

  class RpcDispatcher {
    const ids: MessageIds
    const methods: map<string, Method>
    var calls: map<u32, Draw>
    var poisoned: bool

    ghost var own: set<Draw>
    ghost var drawing: set<Draw>
    ghost var fired: seq<Delivery>
    ghost var lost: set<Draw>
    ghost var failed: set<Draw>

    ghost function View(): State
      reads this, ids
    {
      State(ids.drawn, own, calls, poisoned, drawing, fired, lost, failed)
    }

    ghost predicate Valid()
      reads this, ids
    {
      ids.Valid() && Inv(View())
    }

    constructor (ids: MessageIds, methods: map<string, Method>)
      requires ids.Valid()
      ensures Valid() && View() == INIT.(drawn := ids.drawn)
      ensures this.ids == ids && this.methods == methods
    {
      this.ids, this.methods, calls, poisoned := ids, methods, map[], false;
      own, drawing, fired, lost, failed := {}, {}, [], {}, {};
    }

    // The id to send, unless the lock is poisoned.
    method Call() returns (id: Option<u32>)
      requires Valid()
      modifies this, ids
      ensures Valid() && View() == CallStep(old(View()))
      ensures id == if old(poisoned) then None else Some(IdOf(old(ids.drawn)))
    {
      CallKeeps(View());
      var next, d := ids.NextMessageId();
      own := own + {d};
      if poisoned {
        failed := failed + {d};
        assert View() == CallStep(old(View()));
        return None;
      }
      lost := lost + if next in calls then {calls[next]} else {};
      calls := calls[next := d];
      assert View() == CallStep(old(View()));
      return Some(next);
    }

    method Dispatch(message: Incoming) returns (reaction: Reaction)
      requires Valid()
      modifies this
      ensures Valid() && View() == Receive(old(View()), message)
      ensures reaction.Panic? <==> IsResponse(message) && (message.id.None? || old(poisoned))
      // A continuation is run exactly for a response to a pending call, and leaves the table.
      ensures if message.Incoming? && message.name.None? && (message.code.Some? || message.result) && message.id.Some?
                && message.id.value in old(calls) && !old(poisoned)
              then Delivers(old(fired), fired, old(calls)[message.id.value], message)
                && calls == old(calls) - {message.id.value}
              else fired == old(fired) && calls == old(calls)
      // A reply is owed exactly to a request with an id, and carries that id.
      ensures !reaction.Panic? ==> (reaction.reply.Some? <==> message.Incoming? && message.name.Some? && message.id.Some?)
      ensures !reaction.Panic? && reaction.reply.Some? ==>
        Replies(methods, message.name.value, message.body, message.id.value, reaction)
    {
      StepKeeps(View(), Received(message));
      if message.Malformed? {
        return Sync(None);
      }
      if message.name.Some? {
        if message.name.value !in methods {
          return Sync(if message.id.Some? then Some(ErrorReply(message.id.value, -1)) else None);
        }
        var handler := methods[message.name.value];
        var reply := Answer(handler, message.id, message.body);
        return if handler.sync then Sync(reply) else Future(reply);
      }
      var panicked := false;
      if message.code.Some? {
        panicked := RunContinuation(message.id, Error(message.code.value));
      } else if message.result {
        panicked := RunContinuation(message.id, Success(message.body));
      }
      return if panicked then Panic else Sync(None);
    }

    // Takes the continuation out of the table and runs it.
    method RunContinuation(id: Option<u32>, outcome: Outcome) returns (panicked: bool)
      modifies this`calls, this`poisoned, this`fired
      ensures View() == Deliver(old(View()), id, outcome)
      ensures panicked <==> id.None? || old(poisoned)
    {
      if poisoned {
        return true;
      }
      if id.None? {
        poisoned := true;
        return true;
      }
      if id.value in calls {
        fired := fired + [Delivery(calls[id.value], outcome)];
        calls := calls - {id.value};
      }
      return false;
    }
  }

  // The reply is to id, and says what the method did; an unknown method is an error.
  predicate Replies(methods: map<string, Method>, name: string, body: Body, id: u32, reaction: Reaction)
    requires !reaction.Panic? && reaction.reply.Some?
  {
    var reply := reaction.reply.value;
    && reply.id == id
    && (name !in methods ==> reaction.Sync? && reply == ErrorReply(id, -1))
    && (name in methods ==> (reaction.Sync? <==> methods[name].sync))
    && (name in methods && methods[name].run(body).Returned? <==> reply.SuccessReply?)
    && (name in methods && methods[name].run(body).BadParams? ==> reply.code == 0)
    && (name in methods && methods[name].run(body).Failed? ==> reply.code == -1)
    && (reply.SuccessReply? ==> reply.value == methods[name].run(body).value)
  }

  // What a registered method gives back for a request.
  function Answer(handler: Method, id: Option<u32>, body: Body): Option<Reply> {
    var handled := handler.run(body);
    if id.None? then None
    else Some(match handled
      case BadParams => ErrorReply(id.value, 0)
      case Failed => ErrorReply(id.value, -1)
      case Returned(value) => SuccessReply(id.value, value))
  }
}
