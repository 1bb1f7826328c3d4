/** Socket ids that are attached while something still uses them. */
module BridgeReuse {
  import opened Bridges
  import opened BridgeInvariant
  import opened BridgeRuns
  import opened Wrappers

  // The next message for id is accepted for bridge b.
  predicate Serves(s: State, id: SocketId, b: BridgeId) {
    var recs := Records(s);
    Find(recs, id) < |recs| && recs[Find(recs, id)].origin == b
  }

  // What bridge b has handled - written, or lost in a failed write - are the first
  // messages accepted for it, in order.
  ghost predicate HandlesOwn(s: State, b: BridgeId) {
    b in s.accepted && b in s.outcome && Messages(s.outcome[b]) <= s.accepted[b]
  }

  // From here on ids are attached only when nothing uses them.
  ghost predicate Careful(s: State, events: seq<Event>)
    decreases |events|
  {
    events == [] ||
      (Enabled(s, events[0]) && (events[0].Attach? ==> Unused(s, events[0].id)) && Careful(Step(s, events[0]), events[1..]))
  }

  lemma {:induction false} CarefulRuns(s: State, events: seq<Event>)
    requires Careful(s, events)
    ensures CanRun(s, events)
    ensures Inv(s) ==> Inv(RunAll(s, events))
    decreases |events|
  {
    if events != [] {
      CarefulRuns(Step(s, events[0]), events[1..]);
      if Inv(s) {
        StepKeeps(s, events[0]);
      }
    }
  }

  // No bridge ever handles what was not accepted for it, however the run goes on.
  ghost predicate Safe(s: State) {
    forall events, b: BridgeId :: Careful(s, events) && CanRun(s, events) && b < RunAll(s, events).next ==>
      HandlesOwn(RunAll(s, events), b)
  }

  /* ---- A writer whose record is gone ---- */

  // The writer of bridge b looks for id and will find the record of bridge n.
  ghost predicate Stale(s: State, id: SocketId, b: BridgeId, n: BridgeId) {
    var recs := Records(s);
    && Find(recs, id) < |recs| && recs[Find(recs, id)] == Record(id, Some(n), [], n)
    && b in s.writers && s.writers[b].id == id && !s.writers[b].closing && b in s.outcome && b in s.accepted
    && b != n && n !in s.writers && n in s.accepted && s.accepted[n] == []
  }

  lemma {:induction false} FindUpdated(recs: seq<Record>, id: SocketId, r: Record)
    requires Find(recs, id) < |recs| && r.id == id
    ensures Find(recs[Find(recs, id) := r], id) == Find(recs, id)
  {
    if recs[0].id != id {
      var i := Find(recs[1..], id);
      FindUpdated(recs[1..], id, r);
      assert recs[i + 1 := r][1..] == recs[1..][i := r];
    } else {
      assert recs[0 := r][0] == r;
    }
  }

  // The message is queued at the record of bridge n, and n gets a writer of its own.
  lemma StaleHandles(s: State, id: SocketId, b: BridgeId, n: BridgeId, m: Message)
    requires Stale(s, id, b, n)
    ensures Enabled(s, Handle(id, m))
    ensures var t, k := Step(s, Handle(id, m)), Find(Records(s), id);
      && Find(Records(t), id) == k < |Records(t)| && Records(t)[k] == Record(id, None, [m], n)
      && b in t.writers && t.writers[b] == s.writers[b] && t.outcome == s.outcome && t.next == s.next
      && t.accepted == s.accepted[n := [m]]
  {
    var k := Find(Records(s), id);
    FindUpdated(Records(s), id, Record(id, None, [m], n));
    assert [] + [m] == [m];
    assert Records(Step(s, Handle(id, m))) == Records(s)[k := Record(id, None, [m], n)];
  }

  // The writer of b takes the message from the record of n and writes it to b.
  lemma StaleTakes(s: State, b: BridgeId, m: Message)
    requires b in s.writers && s.writers[b].items == [] && !s.writers[b].closing && b in s.outcome
    requires var k := Find(Records(s), s.writers[b].id); k < |Records(s)| && Records(s)[k].queue == [m]
    ensures Enabled(s, Lock(b)) && Enabled(Step(s, Lock(b)), Write(b, true))
    ensures var t := Step(Step(s, Lock(b)), Write(b, true));
      t.outcome == s.outcome[b := s.outcome[b] + [Sent(m)]] && t.accepted == s.accepted && t.next == s.next
  {
    assert Step(s, Lock(b)).writers[b].items == [m];
  }

  // The writer finishes its batch, takes the message accepted for bridge n, and writes it to b.
  lemma {:induction false} StaleWrites(s: State, id: SocketId, b: BridgeId, n: BridgeId, m: Message)
    returns (events: seq<Event>)
    requires Stale(s, id, b, n)
    ensures Careful(s, events) && CanRun(s, events)
    ensures Misdelivered(s, RunAll(s, events), b, n, m)
    decreases |s.writers[b].items|
  {
    var items := s.writers[b].items;
    if items != [] {
      var t := Step(s, Write(b, true));
      assert items == [items[0]] + items[1..];
      events := StaleWrites(t, id, b, n, m);
      MoreCareful(s, Write(b, true), events);
      SentCons(items[0], items[1..], s.outcome[b]);
      events := [Write(b, true)] + events;
    } else {
      StaleHandles(s, id, b, n, m);
      var t := Step(s, Handle(id, m));
      StaleTakes(t, b, m);
      var u := Step(t, Lock(b));
      MoreCareful(u, Write(b, true), []);
      MoreCareful(t, Lock(b), [Write(b, true)]);
      MoreCareful(s, Handle(id, m), [Lock(b), Write(b, true)]);
      events := [Handle(id, m)] + [Lock(b), Write(b, true)];
    }
  }

  lemma MoreCareful(s: State, e: Event, events: seq<Event>)
    requires Enabled(s, e) && !e.Attach? && Careful(Step(s, e), events)
    ensures Careful(s, [e] + events) && CanRun(Step(s, e), events) && CanRun(s, [e] + events)
    ensures RunAll(s, [e] + events) == RunAll(Step(s, e), events)
  {
    CarefulRuns(Step(s, e), events);
    assert ([e] + events)[1..] == events;
  }

  // From s to t message m, the only one accepted for n, has been written to b.
  ghost predicate Misdelivered(s: State, t: State, b: BridgeId, n: BridgeId, m: Message)
    requires b in s.outcome && b in s.accepted
  {
    && b in t.outcome && t.outcome[b] == s.outcome[b] + AllSent(Items(s, b)) + [Sent(m)]
    && b in t.accepted && t.accepted[b] == s.accepted[b] && n in t.accepted && t.accepted[n] == [m] && t.next >= s.next
  }

  // The writer of b has not noticed yet that its record is gone.
  ghost predicate Orphan(s: State, id: SocketId, b: BridgeId) {
    WriterFor(s, b, id) && Find(Records(s), id) == |Records(s)|
  }

  lemma {:induction false} FindNone(recs: seq<Record>, r: Record)
    requires Find(recs, r.id) == |recs|
    ensures Find(recs + [r], r.id) == |recs|
  {
    if recs == [] {
      assert recs + [r] == [r];
    } else {
      assert (recs + [r])[1..] == recs[1..] + [r];
      FindNone(recs[1..], r);
    }
  }

  // Whenever an id is attached that an orphaned writer still looks for, the run can
  // go on so that any message, accepted for the new bridge, is written to the old one.
  lemma MessageToWrongBridge(s: State, id: SocketId, b: BridgeId, m: Message) returns (events: seq<Event>)
    requires Inv(s) && Orphan(s, id, b)
    ensures b in s.outcome && b in s.accepted
    ensures Careful(DoAttach(s, id), events) && CanRun(DoAttach(s, id), events)
    ensures Misdelivered(s, RunAll(DoAttach(s, id), events), b, s.next, m)
  {
    assert InOrderSoFar(s, b);
    FindNone(Records(s), Record(id, Some(s.next), [], s.next));
    assert s.next !in s.writers;
    events := StaleWrites(DoAttach(s, id), id, b, s.next, m);
  }

  // A message that makes the old bridge handle something not accepted for it.
  lemma OrphanUnsafe(s: State, id: SocketId, b: BridgeId)
    requires Inv(s) && Orphan(s, id, b)
    ensures !Safe(DoAttach(s, id))
  {
    assert InOrderSoFar(s, b);
    var handled := Messages(s.outcome[b]) + Items(s, b);
    var m := if |handled| < |s.accepted[b]| then s.accepted[b][|handled|] + [0] else [];
    var events := MessageToWrongBridge(s, id, b, m);
    var t := RunAll(DoAttach(s, id), events);
    MessagesAppend(s.outcome[b] + AllSent(Items(s, b)), [Sent(m)]);
    MessagesAppend(s.outcome[b], AllSent(Items(s, b)));
    MessagesSent(Items(s, b));
    assert Messages([Sent(m)]) == [m];
    assert Messages(t.outcome[b]) == handled + [m];
    assert (handled + [m])[|handled|] == m;
    assert !HandlesOwn(t, b);
  }

  lemma {:induction false} MessagesSent(items: seq<Message>)
    ensures Messages(AllSent(items)) == items
  {
    if items != [] {
      MessagesSent(items[1..]);
    }
  }

  /* ---- The exact condition ---- */

  lemma CarefulSafe(s: State)
    requires Inv(s)
    ensures Safe(s)
  {
    forall events, b: BridgeId | Careful(s, events) && CanRun(s, events) && b < RunAll(s, events).next
      ensures HandlesOwn(RunAll(s, events), b)
    {
      CarefulRuns(s, events);
      var t := RunAll(s, events);
      assert InOrderSoFar(t, b);
      assert Messages(t.outcome[b]) <= Messages(t.outcome[b]) + Items(t, b);
    }
  }

  // Attaching works - the new bridge gets the messages sent to the id, and no
  // bridge ever handles another one's messages, however the run goes on - exactly
  // if no record and no write loop that still looks for its record uses the id.
  lemma AttachExactly(s: State, id: SocketId)
    requires Inv(s)
    ensures Serves(DoAttach(s, id), id, s.next) && Safe(DoAttach(s, id)) <==> Unused(s, id)
  {
    var recs, added := Records(s), Record(id, Some(s.next), [], s.next);
    if Unused(s, id) {
      FindNone(recs, added);
      AttachKeeps(s, id);
      CarefulSafe(DoAttach(s, id));
    } else if Find(recs, id) < |recs| {
      FindAppended(recs, added);
    } else {
      var b :| b in s.writers && !s.writers[b].closing && s.writers[b].id == id;
      OrphanUnsafe(s, id, b);
    }
  }

  lemma {:induction false} FindAppended(recs: seq<Record>, r: Record)
    requires Find(recs, r.id) < |recs|
    ensures Find(recs + [r], r.id) == Find(recs, r.id)
  {
    assert (recs + [r])[1..] == recs[1..] + [r];
    if recs[0].id != r.id {
      FindAppended(recs[1..], r);
    }
  }

  /* ---- An id that a live record still uses ---- */

  // Every record of bridge n stands behind another one with the same id (seen: one came before).
  predicate Behind(recs: seq<Record>, id: SocketId, n: BridgeId, seen: bool) {
    recs == [] ||
      if recs[0].origin == n then recs[0].id == id && seen && Behind(recs[1..], id, n, seen)
      else Behind(recs[1..], id, n, seen || recs[0].id == id)
  }

  lemma {:induction false} BehindFirst(recs: seq<Record>, id: SocketId, n: BridgeId, other: SocketId)
    requires Behind(recs, id, n, false) && Find(recs, other) < |recs|
    ensures recs[Find(recs, other)].origin != n
  {
    if recs[0].id != other {
      if recs[0].id == id {
        BehindSeen(recs[1..], id, n, other);
      } else {
        BehindFirst(recs[1..], id, n, other);
      }
    }
  }

  // Another id never leads to a record of n, which has the id.
  lemma {:induction false} BehindSeen(recs: seq<Record>, id: SocketId, n: BridgeId, other: SocketId)
    requires Behind(recs, id, n, true) && Find(recs, other) < |recs| && other != id
    ensures recs[Find(recs, other)].origin != n
  {
    if recs[0].id != other {
      BehindSeen(recs[1..], id, n, other);
    }
  }

  lemma {:induction false} BehindMore(recs: seq<Record>, id: SocketId, n: BridgeId, seen: bool)
    requires Behind(recs, id, n, seen)
    ensures Behind(recs, id, n, true)
  {
    if recs != [] {
      BehindMore(recs[1..], id, n, seen || (recs[0].origin != n && recs[0].id == id));
    }
  }

  lemma {:induction false} BehindAppend(recs: seq<Record>, id: SocketId, n: BridgeId, seen: bool, r: Record)
    requires Behind(recs, id, n, seen)
    requires r.origin == n ==> r.id == id && (seen || Find(recs, id) < |recs|)
    requires r.origin == n ==> forall i :: 0 <= i < |recs| ==> recs[i].origin != n
    ensures Behind(recs + [r], id, n, seen)
  {
    if recs == [] {
      assert recs + [r] == [r] && [r][1..] == [];
    } else {
      assert (recs + [r])[1..] == recs[1..] + [r];
      BehindAppend(recs[1..], id, n, seen || (recs[0].origin != n && recs[0].id == id), r);
    }
  }

  lemma {:induction false} BehindUpdate(recs: seq<Record>, id: SocketId, n: BridgeId, seen: bool, i: nat, r: Record)
    requires Behind(recs, id, n, seen) && i < |recs| && r.id == recs[i].id && r.origin == recs[i].origin
    ensures Behind(recs[i := r], id, n, seen)
  {
    if i > 0 {
      assert recs[i := r][1..] == recs[1..][i - 1 := r];
      BehindUpdate(recs[1..], id, n, seen || (recs[0].origin != n && recs[0].id == id), i - 1, r);
    }
  }

  lemma {:induction false} BehindRetained(recs: seq<Record>, id: SocketId, n: BridgeId, seen: bool, other: SocketId)
    requires Behind(recs, id, n, seen) && other != id
    ensures Behind(Retained(recs, other), id, n, seen)
  {
    if recs != [] {
      var rest := Retained(recs[1..], other);
      assert ([recs[0]] + rest)[1..] == rest;
      assert Retained(recs, other) == if recs[0].id != other then [recs[0]] + rest else rest;
      BehindRetained(recs[1..], id, n, seen || (recs[0].origin != n && recs[0].id == id), other);
    }
  }

  lemma {:induction false} NoneRetained(recs: seq<Record>, id: SocketId, n: BridgeId, seen: bool, after: bool)
    requires Behind(recs, id, n, seen)
    ensures Behind(Retained(recs, id), id, n, after)
  {
    if recs != [] {
      var rest := Retained(recs[1..], id);
      assert ([recs[0]] + rest)[1..] == rest;
      assert Retained(recs, id) == if recs[0].id != id then [recs[0]] + rest else rest;
      NoneRetained(recs[1..], id, n, seen || (recs[0].origin != n && recs[0].id == id), after);
    }
  }

  // Nothing has been accepted for bridge n, and no message will find its record.
  ghost predicate Shadowed(s: State, id: SocketId, n: BridgeId) {
    n < s.next && n in s.accepted && s.accepted[n] == [] && Behind(Records(s), id, n, false)
  }

  lemma ShadowedStep(s: State, e: Event, id: SocketId, n: BridgeId)
    requires Shadowed(s, id, n) && Enabled(s, e)
    ensures Shadowed(Step(s, e), id, n)
  {
    var t, recs := Step(s, e), Records(s);
    match e
    case Attach(other) => BehindAppend(recs, id, n, false, Record(other, Some(s.next), [], s.next));
    case Handle(other, m) =>
      var i := Find(recs, other);
      if i < |recs| {
        BehindFirst(recs, id, n, other);
        BehindUpdate(recs, id, n, false, i, Records(t)[i]);
      }
    case Lock(b) =>
      var i := Find(recs, s.writers[b].id);
      if i < |recs| {
        BehindUpdate(recs, id, n, false, i, Records(t)[i]);
      }
    case Remove(other) =>
      if other == id {
        NoneRetained(recs, id, n, false, false);
      } else {
        BehindRetained(recs, id, n, false, other);
      }
    case _ =>
  }

  lemma {:induction false} ShadowedForever(s: State, events: seq<Event>, id: SocketId, n: BridgeId)
    requires Shadowed(s, id, n) && CanRun(s, events)
    ensures Shadowed(RunAll(s, events), id, n)
    decreases |events|
  {
    if events != [] {
      ShadowedStep(s, events[0], id, n);
      ShadowedForever(Step(s, events[0]), events[1..], id, n);
    }
  }

  lemma {:induction false} BehindOthers(recs: seq<Record>, id: SocketId, n: BridgeId, seen: bool)
    requires forall i :: 0 <= i < |recs| ==> recs[i].origin != n
    ensures Behind(recs, id, n, seen)
  {
    if recs != [] {
      BehindOthers(recs[1..], id, n, seen || recs[0].id == id);
    }
  }

  // While a record has the id, a bridge attached under it never gets a message,
  // whatever happens afterwards - not even when that record is removed.
  lemma NeverServed(s: State, id: SocketId, events: seq<Event>)
    requires Inv(s) && Find(Records(s), id) < |Records(s)| && CanRun(DoAttach(s, id), events)
    ensures var t := RunAll(DoAttach(s, id), events); s.next in t.accepted && t.accepted[s.next] == []
  {
    var recs := Records(s);
    BehindOthers(recs, id, s.next, false);
    BehindAppend(recs, id, s.next, false, Record(id, Some(s.next), [], s.next));
    ShadowedForever(DoAttach(s, id), events, id, s.next);
  }

  /* ---- Such a writer occurs ---- */

  const MESSAGE: Message := [1]
  const LOOKING := Writer(7, [], false)
  const ATTACHED := INIT.(list := Some([Record(7, Some(0), [], 0)]), next := 1,
                          accepted := map[0 := []], outcome := map[0 := []])
  const HANDLED := ATTACHED.(list := Some([Record(7, None, [MESSAGE], 0)]),
                             writers := map[0 := LOOKING], accepted := map[0 := [MESSAGE]])
  const REMOVED := HANDLED.(list := Some([]))

  // The event e takes s to t; maps and lists are compared element by element.
  lemma Leads(s: State, e: Event, t: State)
    requires Enabled(s, e) && t.list.Some? && Step(s, e).list.Some?
    requires Step(s, e).list.value == t.list.value
    requires Step(s, e).writers == t.writers && Step(s, e).accepted == t.accepted && Step(s, e).outcome == t.outcome
    requires Step(s, e).dropped == t.dropped && Step(s, e).dying == t.dying && Step(s, e).closed == t.closed
    requires Step(s, e).next == t.next
    ensures Step(s, e) == t
  {
  }

  lemma Attaches()
    ensures Step(INIT, Attach(7)) == ATTACHED
  {
    Leads(INIT, Attach(7), ATTACHED);
  }

  lemma Handles()
    ensures Enabled(ATTACHED, Handle(7, MESSAGE)) && Step(ATTACHED, Handle(7, MESSAGE)) == HANDLED
  {
    var none: seq<Message> := [];
    assert none + [MESSAGE] == [MESSAGE];
    Leads(ATTACHED, Handle(7, MESSAGE), HANDLED);
  }

  lemma Removes()
    ensures Step(HANDLED, Remove(7)) == REMOVED
  {
    assert HANDLED.list.value[1..] == [];
    assert Removed(HANDLED.list.value, 7) == [Record(7, None, [MESSAGE], 0)] && Retained(HANDLED.list.value, 7) == [];
    assert Idle(Removed(HANDLED.list.value, 7)) == [];
    Leads(HANDLED, Remove(7), REMOVED);
  }

  // The client closes its side while the write loop is about to take a message.
  lemma OrphanOccurs()
    ensures Reachable(REMOVED) && Orphan(REMOVED, 7, 0)
  {
    Attaches();
    Handles();
    Removes();
    var run := [INIT, ATTACHED, HANDLED, REMOVED];
    assert Follows(INIT, ATTACHED);
    assert Follows(ATTACHED, HANDLED);
    assert Follows(HANDLED, REMOVED);
    assert IsRun(run);
  }
}
