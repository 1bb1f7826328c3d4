/**
  Loading each script only once, however often it is asked for.

  A request is known by its number.  The callbacks of a settled load are run one
  by one; between two of them anything may happen: a callback may ask for a
  script, its own included, and the script loader may settle another load before
  the callback returns.
 */
module OnlyOnce {
  import opened Wrappers

  type Source = string
  type Ticket = nat

  // A running loop over the callbacks of a settled load: those that are left.
  datatype Trigger = Trigger(todo: seq<Ticket>, ok: bool)

  // asked, called and errored are history: the source of every request, and the
  // requests whose callback or error callback was run.
  datatype State = State(
    waiting: map<Source, seq<Ticket>>,
    inFlight: multiset<Source>,    // loads given to the script loader and not settled
    triggers: seq<Trigger>,        // innermost last
    asked: seq<Source>,
    called: seq<Ticket>,
    errored: seq<Ticket>)

  const INIT := State(map[], multiset{}, [], [], [], [])

  /* ---- Steps ---- */

  function Ask(s: State, src: Source): State {
    var t := |s.asked|;
    if src in s.waiting
    then s.(asked := s.asked + [src], waiting := s.waiting[src := s.waiting[src] + [t]])
    else s.(asked := s.asked + [src], waiting := s.waiting[src := [t]], inFlight := s.inFlight + multiset{src})
  }

  // The script loader settles a load: the source is forgotten and its callbacks will run.
  function Settle(s: State, src: Source, ok: bool): State {
    var todo := if src in s.waiting then s.waiting[src] else [];
    s.(waiting := s.waiting - {src}, inFlight := s.inFlight - multiset{src}, triggers := s.triggers + [Trigger(todo, ok)])
  }

  // The innermost loop runs its next callback, or ends.
  function Fire(s: State): State
    requires s.triggers != []
  {
    var last := |s.triggers| - 1;
    var Trigger(todo, ok) := s.triggers[last];
    if todo == [] then
      s.(triggers := s.triggers[..last])
    else
      s.(triggers := s.triggers[..last] + [Trigger(todo[1..], ok)],
         called := if ok then s.called + [todo[0]] else s.called,
         errored := if ok then s.errored else s.errored + [todo[0]])
  }

  datatype Event = Asked(src: Source) | Settled(src: Source, ok: bool) | Fired

  // The script loader settles each load that it was given once.
  predicate Enabled(s: State, e: Event) {
    match e
    case Asked(_) => true
    case Settled(src, _) => s.inFlight[src] > 0
    case Fired => s.triggers != []
  }

  function Step(s: State, e: Event): State
    requires Enabled(s, e)
  {
    match e
    case Asked(src) => Ask(s, src)
    case Settled(src, ok) => Settle(s, src, ok)
    case Fired => Fire(s)
  }

  ghost predicate IsRun(run: seq<State>, events: seq<Event>) {
    && |run| == |events| + 1 && run[0] == INIT
    && (forall i :: 0 <= i < |events| ==> Enabled(run[i], events[i]) && run[i + 1] == Step(run[i], events[i]))
  }

  /* ---- Where a request is ---- */

  function WaitingPlaces(s: State, t: Ticket): nat {
    if t < |s.asked| && s.asked[t] in s.waiting then multiset(s.waiting[s.asked[t]])[t] else 0
  }

  function TriggerPlaces(triggers: seq<Trigger>, t: Ticket): nat {
    if triggers == [] then 0
    else TriggerPlaces(triggers[..|triggers| - 1], t) + multiset(triggers[|triggers| - 1].todo)[t]
  }

  function Answers(s: State, t: Ticket): nat {
    multiset(s.called)[t] + multiset(s.errored)[t]
  }

  // Every request made is in one place, once: waiting for its source, about to be
  // called, or called.
  ghost predicate OnePlaceEach(s: State) {
    forall t: Ticket :: WaitingPlaces(s, t) + TriggerPlaces(s.triggers, t) + Answers(s, t) == if t < |s.asked| then 1 else 0
  }

  // A load is in flight for each source with waiting requests, and for no other.
  ghost predicate OneLoadEach(s: State) {
    forall src :: s.inFlight[src] == if src in s.waiting then 1 else 0
  }

  ghost predicate Increasing(q: seq<Ticket>) {
    forall i, j :: 0 <= i < j < |q| ==> q[i] < q[j]
  }

  ghost predicate WaitingOwn(s: State) {
    forall src, i :: src in s.waiting && 0 <= i < |s.waiting[src]| ==>
      s.waiting[src][i] < |s.asked| && s.asked[s.waiting[src][i]] == src
  }

  // The callbacks of one load run in the order of the requests.
  ghost predicate InOrder(s: State) {
    && (forall src :: src in s.waiting ==> Increasing(s.waiting[src]))
    && (forall i :: 0 <= i < |s.triggers| ==> Increasing(s.triggers[i].todo))
  }

  ghost predicate Inv(s: State) {
    OnePlaceEach(s) && OneLoadEach(s) && WaitingOwn(s) && InOrder(s)
  }

  lemma AskPlaces(s: State, src: Source, t: Ticket)
    requires Inv(s)
    ensures WaitingPlaces(Ask(s, src), t) == WaitingPlaces(s, t) + if t == |s.asked| then 1 else 0
  {
    var n := |s.asked|;
    var s' := Ask(s, src);
    if t == n {
      if src in s.waiting {
        assert forall i :: 0 <= i < |s.waiting[src]| ==> s.waiting[src][i] < n;
        assert n !in s.waiting[src];
      }
    } else if t < n {
      assert s'.asked[t] == s.asked[t];
      if s.asked[t] == src && src !in s.waiting {
        assert s'.waiting[src] == [n];
      }
    }
  }

  lemma SettlePlaces(s: State, src: Source, ok: bool, t: Ticket)
    requires Inv(s) && src in s.waiting
    ensures var s' := Settle(s, src, ok);
      WaitingPlaces(s', t) + TriggerPlaces(s'.triggers, t) == WaitingPlaces(s, t) + TriggerPlaces(s.triggers, t)
  {
    var s' := Settle(s, src, ok);
    assert s'.triggers[..|s'.triggers| - 1] == s.triggers;
    if t in s.waiting[src] {
      var i :| 0 <= i < |s.waiting[src]| && s.waiting[src][i] == t;
      assert s.asked[t] == src;
    } else {
      assert multiset(s.waiting[src])[t] == 0;
    }
  }

  lemma FirePlaces(s: State, t: Ticket)
    requires s.triggers != []
    ensures var s' := Fire(s);
      TriggerPlaces(s'.triggers, t) + Answers(s', t) == TriggerPlaces(s.triggers, t) + Answers(s, t)
  {
    var last := |s.triggers| - 1;
    var todo := s.triggers[last].todo;
    if todo != [] {
      assert Fire(s).triggers[..last] == s.triggers[..last];
      assert todo == [todo[0]] + todo[1..];
    }
  }

  lemma StepPlaces(s: State, e: Event)
    requires Inv(s) && Enabled(s, e)
    ensures OnePlaceEach(Step(s, e))
  {
    var s' := Step(s, e);
    forall t: Ticket
      ensures WaitingPlaces(s', t) + TriggerPlaces(s'.triggers, t) + Answers(s', t) == if t < |s'.asked| then 1 else 0
    {
      match e {
        case Asked(src) => AskPlaces(s, src, t);
        case Settled(src, ok) => SettlePlaces(s, src, ok, t);
        case Fired => FirePlaces(s, t);
      }
    }
  }

  lemma StepOrder(s: State, e: Event)
    requires Inv(s) && Enabled(s, e)
    ensures InOrder(Step(s, e))
  {
    var s' := Step(s, e);
    forall i | 0 <= i < |s'.triggers|
      ensures Increasing(s'.triggers[i].todo)
    {
      if i < |s.triggers| {
        assert Increasing(s.triggers[i].todo);
      }
    }
  }

  lemma StepLoads(s: State, e: Event)
    requires OneLoadEach(s) && Enabled(s, e)
    ensures OneLoadEach(Step(s, e))
  {
  }

  lemma StepOwn(s: State, e: Event)
    requires WaitingOwn(s) && Enabled(s, e)
    ensures WaitingOwn(Step(s, e))
  {
    var s' := Step(s, e);
    forall src, i | src in s'.waiting && 0 <= i < |s'.waiting[src]|
      ensures s'.waiting[src][i] < |s'.asked| && s'.asked[s'.waiting[src][i]] == src
    {
      if src in s.waiting && i < |s.waiting[src]| {
        assert s'.waiting[src][i] == s.waiting[src][i];
      }
    }
  }

  lemma StepKeeps(s: State, e: Event)
    requires Inv(s) && Enabled(s, e)
    ensures Inv(Step(s, e))
  {
    StepPlaces(s, e);
    StepLoads(s, e);
    StepOwn(s, e);
    StepOrder(s, e);
  }

  lemma {:induction false} RunInv(run: seq<State>, events: seq<Event>, i: nat)
    requires IsRun(run, events) && i < |run|
    ensures Inv(run[i])
  {
    if i > 0 {
      RunInv(run, events, i - 1);
      StepKeeps(run[i - 1], events[i - 1]);
    }
  }

  ghost predicate EndsRun(x: Sealed, s: State) {
    exists run, events :: IsRun(run, events) && run[|run| - 1] == s
  }

  // Some run ends in s.
  ghost predicate Reachable(s: State) {
    forall x: Sealed :: EndsRun(x, s)
  }

  lemma ReachableInit()
    ensures Reachable(INIT)
  {
    assert IsRun([INIT], []);
  }

  lemma ReachableStep(s: State, e: Event)
    requires Reachable(s) && Enabled(s, e)
    ensures Reachable(Step(s, e))
  {
    assert EndsRun(Sealed, s);
    var run, events :| IsRun(run, events) && run[|run| - 1] == s;
    assert IsRun(run + [Step(s, e)], events + [e]);
  }

  lemma ReachableInv(s: State)
    requires Reachable(s)
    ensures Inv(s)
  {
    assert EndsRun(Sealed, s);
    var run, events :| IsRun(run, events) && run[|run| - 1] == s;
    RunInv(run, events, |run| - 1);
  }

  /* ---- What every run does ---- */

  // Never two loads of one source at a time; the list of a settled load is
  // there; and each request is in exactly one place.
  lemma OnceOnly(s: State)
    requires Reachable(s)
    ensures forall src :: s.inFlight[src] <= 1 && (s.inFlight[src] == 1 <==> src in s.waiting)
    ensures OnePlaceEach(s) && InOrder(s)
  {
    ReachableInv(s);
  }

  // When no load is in flight and no callback is running, every request has had
  // exactly one of its callbacks run, exactly once.
  lemma AllAnswered(s: State, t: Ticket)
    requires Reachable(s) && s.inFlight == multiset{} && s.triggers == []
    ensures Answers(s, t) == if t < |s.asked| then 1 else 0
  {
    ReachableInv(s);
    if t < |s.asked| {
      assert s.inFlight[s.asked[t]] == 0;
    }
  }

  // Request t will be answered, or has been, as ok says.
  ghost predicate Fated(s: State, t: Ticket, ok: bool) {
    || t in (if ok then s.called else s.errored)
    || exists i :: 0 <= i < |s.triggers| && s.triggers[i].ok == ok && t in s.triggers[i].todo
  }

  lemma FatedStays(s: State, e: Event, t: Ticket, ok: bool)
    requires Enabled(s, e) && Fated(s, t, ok)
    ensures Fated(Step(s, e), t, ok)
  {
    var s' := Step(s, e);
    if t !in (if ok then s.called else s.errored) {
      var i :| 0 <= i < |s.triggers| && s.triggers[i].ok == ok && t in s.triggers[i].todo;
      if e.Fired? && i == |s.triggers| - 1 {
        var todo := s.triggers[i].todo;
        assert todo == [todo[0]] + todo[1..];
        if t == todo[0] {
          assert (if ok then s'.called else s'.errored)[|if ok then s.called else s.errored|] == t;
        } else {
          assert t in s'.triggers[i].todo;
        }
      } else {
        assert s'.triggers[i] == s.triggers[i];
      }
    }
  }

  lemma {:induction false} FatedForever(run: seq<State>, events: seq<Event>, i: nat, j: nat, t: Ticket, ok: bool)
    requires IsRun(run, events) && i <= j < |run| && Fated(run[i], t, ok)
    ensures Fated(run[j], t, ok)
  {
    if i < j {
      FatedForever(run, events, i, j - 1, t, ok);
      FatedStays(run[j - 1], events[j - 1], t, ok);
    }
  }

  // The load that a request waits for decides its answer: once that load is
  // settled, the request is never called the other way.
  lemma AnsweredByItsLoad(run: seq<State>, events: seq<Event>, i: nat, j: nat, t: Ticket)
    requires IsRun(run, events) && i < j < |run|
    requires events[i].Settled? && events[i].src in run[i].waiting && t in run[i].waiting[events[i].src]
    ensures Fated(run[j], t, events[i].ok)
    ensures t !in (if events[i].ok then run[j].errored else run[j].called)
  {
    var ok := events[i].ok;
    var s := run[i + 1];
    assert s == Step(run[i], events[i]);
    assert s.triggers[|s.triggers| - 1] == Trigger(run[i].waiting[events[i].src], ok);
    FatedForever(run, events, i + 1, j, t, ok);
    RunInv(run, events, j);
    FatedOnce(run[j], t, ok);
  }

  lemma FatedOnce(s: State, t: Ticket, ok: bool)
    requires Inv(s) && Fated(s, t, ok)
    ensures t !in (if ok then s.errored else s.called)
  {
    if t !in (if ok then s.called else s.errored) {
      var i :| 0 <= i < |s.triggers| && s.triggers[i].ok == ok && t in s.triggers[i].todo;
      InSomeTrigger(s.triggers, i, t);
      assert Answers(s, t) == 0;
    } else {
      assert Answers(s, t) <= 1;
    }
  }

  lemma {:induction false} InSomeTrigger(triggers: seq<Trigger>, i: nat, t: Ticket)
    requires i < |triggers| && t in triggers[i].todo
    ensures TriggerPlaces(triggers, t) > 0
  {
    if i < |triggers| - 1 {
      InSomeTrigger(triggers[..|triggers| - 1], i, t);
    }
  }

  /* ---- The loader ---- */

  function AskAll(s: State, sources: seq<Source>): State
    decreases |sources|
  {
    if sources == [] then s else AskAll(Ask(s, sources[0]), sources[1..])
  }

  // The innermost loop runs to its end; asks gives what each callback asks for.
  function RunCallbacks(s: State, asks: Ticket -> seq<Source>): State
    requires s.triggers != []
    decreases |s.triggers[|s.triggers| - 1].todo|
  {
    var todo := s.triggers[|s.triggers| - 1].todo;
    if todo == [] then Fire(s)
    else
      AskAllTriggers(Fire(s), asks(todo[0]));
      RunCallbacks(AskAll(Fire(s), asks(todo[0])), asks)
  }

  lemma {:induction false} AskAllTriggers(s: State, sources: seq<Source>)
    ensures AskAll(s, sources).triggers == s.triggers
    decreases |sources|
  {
    if sources != [] {
      AskAllTriggers(Ask(s, sources[0]), sources[1..]);
    }
  }

  class OnlyOnceScriptLoader {
    var callbackMap: map<Source, seq<Ticket>>

    // The number of the next request, in place of the pair of callbacks it brings.
    var next: Ticket

    // The state of the run so far.
    ghost var view: State

    ghost predicate Valid()
      reads this
    {
      callbackMap == view.waiting && next == |view.asked| && Reachable(view)
    }

    constructor ()
      ensures Valid() && view == INIT
    {
      ReachableInit();
      callbackMap, next := map[], 0;
      view := INIT;
    }

    // started says whether the script loader is given a load.
    method Load(src: Source) returns (started: bool)
      requires Valid()
      modifies this
      ensures Valid() && view == Ask(old(view), src)
      ensures started <==> view.inFlight != old(view).inFlight
    {
      ReachableStep(view, Asked(src));
      view := Ask(view, src);
      var ticket := next;
      next := next + 1;
      if src in callbackMap {
        callbackMap := callbackMap[src := callbackMap[src] + [ticket]];
        return false;
      }
      callbackMap := callbackMap[src := [ticket]];
      assert view.inFlight[src] == old(view).inFlight[src] + 1;
      return true;
    }

    // Both triggerCallback (ok) and triggerErrorback: the source is forgotten
    // before the first callback runs.
    method Trigger(src: Source, ok: bool, asks: Ticket -> seq<Source>)
      requires Valid() && view.inFlight[src] > 0
      modifies this
      ensures Valid() && view == RunCallbacks(Settle(old(view), src, ok), asks)
      ensures src in old(callbackMap)
      ensures Called(old(view), view, old(callbackMap)[src], ok, asks) && view.triggers == old(view).triggers
    {
      assert src in callbackMap by {
        ReachableInv(view);
      }
      SettledAnswers(view, src, ok, asks);
      TriggerAll(src, ok, asks);
    }

    method TriggerAll(src: Source, ok: bool, asks: Ticket -> seq<Source>)
      requires Valid() && view.inFlight[src] > 0
      modifies this
      ensures Valid() && view == RunCallbacks(Settle(old(view), src, ok), asks)
    {
      var scriptCallbacks := Take(src, ok);
      ghost var settled := view;
      for i := 0 to |scriptCallbacks|
        invariant Valid() && Left(view, scriptCallbacks[i..])
        invariant RunCallbacks(view, asks) == RunCallbacks(settled, asks)
      {
        RunOne(view, asks);
        RunNext(scriptCallbacks[i], asks);
      }
      RunOne(view, asks);
      FireNext();
    }

    method Take(src: Source, ok: bool) returns (scriptCallbacks: seq<Ticket>)
      requires Valid() && view.inFlight[src] > 0
      modifies this
      ensures Valid() && view == Settle(old(view), src, ok) && Left(view, scriptCallbacks)
    {
      ReachableInv(view);
      ReachableStep(view, Settled(src, ok));
      scriptCallbacks := callbackMap[src];
      callbackMap := callbackMap - {src};
      view := Settle(view, src, ok);
    }

    // The next callback is called and asks for what it asks for.
    method RunNext(callback: Ticket, asks: Ticket -> seq<Source>)
      requires Valid() && view.triggers != []
      modifies this
      ensures Valid() && view == AskAll(Fire(old(view)), asks(callback))
    {
      FireNext();
      LoadAll(asks(callback));
    }

    ghost method FireNext()
      requires Valid() && view.triggers != []
      modifies this`view
      ensures Valid() && view == Fire(old(view))
    {
      ReachableStep(view, Fired);
      view := Fire(view);
    }

    // What a callback asks for.
    method LoadAll(sources: seq<Source>)
      requires Valid()
      modifies this
      ensures Valid() && view == AskAll(old(view), sources)
    {
      for i := 0 to |sources|
        invariant Valid() && AskAll(view, sources[i..]) == AskAll(old(view), sources)
      {
        var _ := Load(sources[i]);
      }
    }
  }

  // What the callbacks ask for, one after the other.
  function AllAsked(todo: seq<Ticket>, asks: Ticket -> seq<Source>): seq<Source> {
    if todo == [] then [] else asks(todo[0]) + AllAsked(todo[1..], asks)
  }

  lemma {:induction false} AskAllHistory(s: State, sources: seq<Source>)
    ensures var t := AskAll(s, sources);
      t.asked == s.asked + sources && t.called == s.called && t.errored == s.errored
    decreases |sources|
  {
    if sources != [] {
      AskAllHistory(Ask(s, sources[0]), sources[1..]);
      assert s.asked + [sources[0]] + sources[1..] == s.asked + sources;
    }
  }

  // From s to t these callbacks have been called, in order and as ok says, and all
  // that they ask for has been asked for.
  ghost predicate Called(s: State, t: State, todo: seq<Ticket>, ok: bool, asks: Ticket -> seq<Source>) {
    && t.asked == s.asked + AllAsked(todo, asks)
    && t.called == s.called + (if ok then todo else [])
    && t.errored == s.errored + (if ok then [] else todo)
  }

  // One callback, and what it asks for.
  lemma CallOne(s: State, asks: Ticket -> seq<Source>) returns (u: State)
    requires s.triggers != [] && s.triggers[|s.triggers| - 1].todo != []
    ensures var last := |s.triggers| - 1;
      var Trigger(todo, ok) := s.triggers[last];
      && u.triggers != [] && RunCallbacks(u, asks) == RunCallbacks(s, asks)
      && u.triggers == s.triggers[..last] + [Trigger(todo[1..], ok)]
      && u.asked == s.asked + asks(todo[0])
      && u.called == s.called + (if ok then [todo[0]] else []) && u.errored == s.errored + (if ok then [] else [todo[0]])
  {
    var todo := s.triggers[|s.triggers| - 1].todo;
    u := AskAll(Fire(s), asks(todo[0]));
    AskAllTriggers(Fire(s), asks(todo[0]));
    AskAllHistory(Fire(s), asks(todo[0]));
    RunOne(s, asks);
  }

  lemma CalledThen(s: State, u: State, t: State, todo: seq<Ticket>, ok: bool, asks: Ticket -> seq<Source>)
    requires todo != [] && Called(u, t, todo[1..], ok, asks)
    requires u.asked == s.asked + asks(todo[0])
    requires u.called == s.called + (if ok then [todo[0]] else []) && u.errored == s.errored + (if ok then [] else [todo[0]])
    ensures Called(s, t, todo, ok, asks)
  {
    assert todo == [todo[0]] + todo[1..];
  }

  lemma {:induction false} RunAnswers(s: State, asks: Ticket -> seq<Source>)
    requires s.triggers != []
    ensures var Trigger(todo, ok) := s.triggers[|s.triggers| - 1];
      Called(s, RunCallbacks(s, asks), todo, ok, asks)
    ensures RunCallbacks(s, asks).triggers == s.triggers[..|s.triggers| - 1]
    decreases |s.triggers[|s.triggers| - 1].todo|
  {
    var Trigger(todo, ok) := s.triggers[|s.triggers| - 1];
    if todo != [] {
      var u := CallOne(s, asks);
      RunAnswers(u, asks);
      CalledThen(s, u, RunCallbacks(u, asks), todo, ok, asks);
    }
  }

  lemma SettledAnswers(s: State, src: Source, ok: bool, asks: Ticket -> seq<Source>)
    requires src in s.waiting
    ensures var t := RunCallbacks(Settle(s, src, ok), asks);
      Called(s, t, s.waiting[src], ok, asks) && t.triggers == s.triggers
  {
    RunAnswers(Settle(s, src, ok), asks);
  }

  // Of the callbacks that a loop has left, the one of the oldest request runs next.
  lemma OldestFirst(s: State)
    requires Reachable(s) && s.triggers != [] && s.triggers[|s.triggers| - 1].todo != []
    ensures var Trigger(todo, ok) := s.triggers[|s.triggers| - 1];
      exists t :: t in todo && (forall u :: u in todo ==> t <= u)
        && Fire(s).called == (if ok then s.called + [t] else s.called)
        && Fire(s).errored == (if ok then s.errored else s.errored + [t])
  {
    ReachableInv(s);
    var todo := s.triggers[|s.triggers| - 1].todo;
    assert Increasing(todo);
    assert todo[0] in todo;
  }

  // The innermost loop has these callbacks left.
  ghost predicate Left(s: State, callbacks: seq<Ticket>) {
    s.triggers != [] && s.triggers[|s.triggers| - 1].todo == callbacks
  }

  lemma RunOne(s: State, asks: Ticket -> seq<Source>)
    requires s.triggers != []
    ensures var todo := s.triggers[|s.triggers| - 1].todo;
      if todo == [] then RunCallbacks(s, asks) == Fire(s)
      else var s' := AskAll(Fire(s), asks(todo[0]));
        Left(s', todo[1..]) && RunCallbacks(s', asks) == RunCallbacks(s, asks)
  {
    var todo := s.triggers[|s.triggers| - 1].todo;
    if todo != [] {
      AskAllTriggers(Fire(s), asks(todo[0]));
    }
  }
}
