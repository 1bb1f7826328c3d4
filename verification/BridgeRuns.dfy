/** Whole runs of the bridge protocol. */
module BridgeRuns {
  import opened Bridges
  import opened BridgeInvariant
  import opened Wrappers

  lemma {:induction false} RunInv(run: seq<State>, i: nat)
    requires IsRun(run) && i < |run|
    ensures Inv(run[i])
  {
    if i == 0 {
      InitInv();
    } else {
      RunInv(run, i - 1);
      assert Follows(run[i - 1], run[i]);
      var e :| Enabled(run[i - 1], e) && (e.Attach? ==> Unused(run[i - 1], e.id)) && run[i] == Step(run[i - 1], e);
      StepKeeps(run[i - 1], e);
    }
  }

  ghost predicate EndsRun(x: Sealed, s: State) {
    exists run :: IsRun(run) && run[|run| - 1] == s
  }

  // Some run ends in s.
  ghost predicate Reachable(s: State) {
    forall x: Sealed :: EndsRun(x, s)
  }

  ghost predicate EndsFreeRun(x: Sealed, s: State) {
    exists run :: IsFreeRun(run) && run[|run| - 1] == s
  }

  // Some run ends in s, in which ids may be attached at any time.
  ghost predicate Occurs(s: State) {
    forall x: Sealed :: EndsFreeRun(x, s)
  }

  lemma {:induction false} RunBooked(run: seq<State>, i: nat)
    requires IsFreeRun(run) && i < |run|
    ensures Booked(run[i])
  {
    if i > 0 {
      RunBooked(run, i - 1);
      assert Happens(run[i - 1], run[i]);
      var e :| Enabled(run[i - 1], e) && run[i] == Step(run[i - 1], e);
      StepBooked(run[i - 1], e);
    }
  }

  lemma OccursBooked(s: State)
    requires Occurs(s)
    ensures Booked(s)
  {
    assert EndsFreeRun(Sealed, s);
    var run :| IsFreeRun(run) && run[|run| - 1] == s;
    RunBooked(run, |run| - 1);
  }

  lemma ReachableInv(s: State)
    requires Reachable(s)
    ensures Inv(s)
  {
    assert EndsRun(Sealed, s);
    var run :| IsRun(run) && run[|run| - 1] == s;
    RunInv(run, |run| - 1);
  }

  /* ---- Order ---- */

  function Written(outcome: seq<Outcome>): seq<Message> {
    if outcome == [] then []
    else (if outcome[0].Sent? then [outcome[0].message] else []) + Written(outcome[1..])
  }

  // p is what remains of q when some messages are left out.
  ghost predicate Subsequence(p: seq<Message>, q: seq<Message>) {
    p == [] || (q != [] && ((p[0] == q[0] && Subsequence(p[1..], q[1..])) || Subsequence(p, q[1..])))
  }

  lemma {:induction false} WrittenSubsequence(outcome: seq<Outcome>, accepted: seq<Message>)
    requires Messages(outcome) <= accepted
    ensures Subsequence(Written(outcome), accepted)
  {
    if outcome != [] {
      var p, rest := outcome[0], outcome[1..];
      assert Messages(outcome) == [p.message] + Messages(rest);
      assert accepted[0] == p.message && Messages(rest) <= accepted[1..];
      WrittenSubsequence(rest, accepted[1..]);
      if p.Sent? {
        assert Written(outcome) == [p.message] + Written(rest);
        assert ([p.message] + Written(rest))[1..] == Written(rest);
      } else {
        assert Written(outcome) == Written(rest);
      }
    }
  }

  lemma {:induction false} WrittenAll(outcome: seq<Outcome>)
    requires forall o :: o in outcome ==> o.Sent?
    ensures Written(outcome) == Messages(outcome)
  {
    if outcome != [] {
      assert outcome[0] in outcome && forall o :: o in outcome[1..] ==> o in outcome;
      WrittenAll(outcome[1..]);
    }
  }

  // What has been written to a bridge is a subsequence of what was accepted for
  // it, in the order of acceptance; if no write has failed, it is a beginning.
  lemma WritesInOrder(s: State, b: BridgeId)
    requires Reachable(s) && b < s.next
    ensures InOrderSoFar(s, b)
    ensures Subsequence(Written(s.outcome[b]), s.accepted[b])
    ensures (forall o :: o in s.outcome[b] ==> o.Sent?) ==> Written(s.outcome[b]) <= s.accepted[b]
  {
    ReachableInv(s);
    assert InOrderSoFar(s, b);
    var outcome, accepted := s.outcome[b], s.accepted[b];
    assert Messages(outcome) <= accepted by {
      assert Messages(outcome) <= Messages(outcome) + Items(s, b);
    }
    WrittenSubsequence(outcome, accepted);
    if forall o :: o in outcome ==> o.Sent? {
      WrittenAll(outcome);
    }
  }

  // For a live record: handled, then held by the writer, then queued, is what was accepted.
  lemma NothingReordered(s: State, i: nat)
    requires Reachable(s) && i < |Records(s)|
    ensures InOrder(s, Records(s)[i])
  {
    ReachableInv(s);
    assert Records(s)[i] in Records(s);
  }

  /* ---- Ownership ---- */

  // Whatever ids are attached, every bridge ever created is in exactly one place:
  // held by a record, held by a writer, waiting to be closed, closed, or dropped.
  lemma SingleOwner(s: State, b: BridgeId)
    requires Occurs(s)
    ensures Places(s, b) == if b < s.next then 1 else 0
  {
    OccursBooked(s);
  }

  // A non-empty queue has a writer that will come for it.
  lemma NoLostWakeup(s: State, i: nat)
    requires Reachable(s) && i < |Records(s)|
    ensures Records(s)[i].bridge.Some? ==> Records(s)[i].queue == [] && Records(s)[i].bridge.value !in s.writers
    ensures Records(s)[i].bridge.None? ==> WriterFor(s, Records(s)[i].origin, Records(s)[i].id)
  {
    NothingReordered(s, i);
    ReachableInv(s);
    if s.list.Some? {
      OwnedBefore(s, i);
    }
  }

  // When the connection is gone and every task has come to its end, each bridge
  // has been closed once, or was dropped with the record that held it.
  lemma ClosedOnce(s: State, b: BridgeId)
    requires Occurs(s) && s.list.None? && s.writers == map[] && s.dying == [] && b < s.next
    ensures multiset(s.closed)[b] == if b in s.dropped then 0 else 1
  {
    SingleOwner(s, b);
  }

  /* ---- Progress of a writer ---- */

  ghost predicate CanRun(s: State, events: seq<Event>)
    decreases |events|
  {
    events == [] || (Enabled(s, events[0]) && CanRun(Step(s, events[0]), events[1..]))
  }

  ghost function RunAll(s: State, events: seq<Event>): State
    requires CanRun(s, events)
    decreases |events|
  {
    if events == [] then s else RunAll(Step(s, events[0]), events[1..])
  }

  lemma RunOne(s: State, e: Event, t: State, events: seq<Event>)
    requires Enabled(s, e) && Step(s, e) == t && CanRun(t, events)
    ensures CanRun(s, [e] + events) && RunAll(s, [e] + events) == RunAll(t, events)
  {
    assert ([e] + events)[1..] == events;
  }

  // The steps of the write loop of b, when no write fails.
  predicate OfWriter(b: BridgeId, e: Event) {
    e == Lock(b) || e == Write(b, true) || e == Close(b)
  }

  // Without a record to find, a writer finishes its batch and closes the bridge.
  lemma {:induction false} WriterCloses(s: State, b: BridgeId) returns (events: seq<Event>)
    requires Inv(s) && s.list.None? && b in s.writers
    ensures CanRun(s, events) && forall e :: e in events ==> OfWriter(b, e)
    ensures b !in RunAll(s, events).writers && RunAll(s, events).closed == s.closed + [b]
    decreases !s.writers[b].closing, |s.writers[b].items|
  {
    assert s.writers[b].closing ==> s.writers[b].items == [];
    assert InOrderSoFar(s, b);
    var e := if s.writers[b].closing then Close(b) else if s.writers[b].items == [] then Lock(b) else Write(b, true);
    var t := Step(s, e);
    if s.writers[b].closing {
      events := [];
    } else {
      StepKeeps(s, e);
      events := WriterCloses(t, b);
    }
    RunOne(s, e, t, events);
    events := [e] + events;
  }

  // Record i has given its bridge b to a writer.
  ghost predicate Busy(s: State, i: nat, b: BridgeId) {
    && Inv(s) && i < |Records(s)| && Records(s)[i].bridge.None? && Records(s)[i].origin == b
    && b in s.outcome && b in s.accepted && b in s.writers
  }

  lemma BusyRecord(s: State, i: nat)
    requires Inv(s) && i < |Records(s)| && Records(s)[i].bridge.None?
    ensures Busy(s, i, Records(s)[i].origin)
  {
    assert InOrder(s, Records(s)[i]) by {
      assert Records(s)[i] in Records(s);
    }
  }

  // What the writer still has to write.
  ghost function ToWrite(s: State, i: nat, b: BridgeId): seq<Message>
    requires i < |Records(s)|
  {
    Items(s, b) + Records(s)[i].queue
  }

  lemma DrainWrite(s: State, i: nat, b: BridgeId)
    requires Busy(s, i, b) && s.writers[b].items != []
    ensures var t, m := Step(s, Write(b, true)), s.writers[b].items[0];
            && Busy(t, i, b) && Records(t) == Records(s) && t.accepted == s.accepted
            && t.outcome[b] == s.outcome[b] + [Sent(m)] && ToWrite(s, i, b) == [m] + ToWrite(t, i, b)
  {
    StepKeeps(s, Write(b, true));
  }

  lemma DrainTake(s: State, i: nat, b: BridgeId)
    requires Busy(s, i, b) && s.writers[b].items == [] && Records(s)[i].queue != []
    ensures var t := Step(s, Lock(b));
            && Busy(t, i, b) && Records(t)[i] == Records(s)[i].(queue := []) && t.accepted == s.accepted
            && t.outcome == s.outcome && ToWrite(t, i, b) == ToWrite(s, i, b)
  {
    FindOwn(Records(s), i);
    StepKeeps(s, Lock(b));
  }

  lemma DrainEnd(s: State, i: nat, b: BridgeId)
    requires Busy(s, i, b) && s.writers[b].items == [] && Records(s)[i].queue == []
    ensures var t := Step(s, Lock(b));
            && i < |Records(t)| && Records(t)[i] == Records(s)[i].(bridge := Some(b)) && b !in t.writers
            && t.outcome == s.outcome && Messages(s.outcome[b]) == s.accepted[b]
  {
    FindOwn(Records(s), i);
    assert Records(s)[i] in Records(s) && InOrder(s, Records(s)[i]);
  }

  // Left to itself, the writer of a live record writes everything that was
  // accepted, in order, and gives the bridge back.
  lemma WriterDrains(s: State, i: nat) returns (events: seq<Event>)
    requires Reachable(s) && i < |Records(s)| && Records(s)[i].bridge.None?
    ensures var b := Records(s)[i].origin;
      && b in s.outcome && b in s.accepted
      && CanRun(s, events) && (forall e :: e in events ==> OfWriter(b, e))
      && Drained(s, RunAll(s, events), i, b)
  {
    ReachableInv(s);
    BusyRecord(s, i);
    events := DrainAll(s, i, Records(s)[i].origin);
  }

  // From s to t the writer of record i has written all there was and given bridge b back.
  ghost predicate Drained(s: State, t: State, i: nat, b: BridgeId)
    requires i < |Records(s)| && b in s.outcome && b in s.accepted
  {
    && i < |Records(t)| && Records(t)[i] == Records(s)[i].(bridge := Some(b), queue := []) && b !in t.writers
    && b in t.outcome && t.outcome[b] == s.outcome[b] + AllSent(ToWrite(s, i, b))
    && Messages(t.outcome[b]) == s.accepted[b]
  }

  lemma {:induction false} DrainAll(s: State, i: nat, b: BridgeId) returns (events: seq<Event>)
    requires Busy(s, i, b)
    ensures CanRun(s, events) && forall e :: e in events ==> OfWriter(b, e)
    ensures Drained(s, RunAll(s, events), i, b)
    decreases |ToWrite(s, i, b)|, |Records(s)[i].queue|
  {
    var e := if s.writers[b].items != [] then Write(b, true) else Lock(b);
    var t := Step(s, e);
    if s.writers[b].items != [] {
      DrainWrite(s, i, b);
      events := DrainAll(t, i, b);
      SentCons(s.writers[b].items[0], ToWrite(t, i, b), s.outcome[b]);
    } else if Records(s)[i].queue != [] {
      DrainTake(s, i, b);
      events := DrainAll(t, i, b);
    } else {
      DrainEnd(s, i, b);
      events := [];
    }
    RunOne(s, e, t, events);
    events := [e] + events;
  }

  lemma SentCons(m: Message, rest: seq<Message>, done: seq<Outcome>)
    ensures done + [Sent(m)] + AllSent(rest) == done + AllSent([m] + rest)
  {
    assert ([m] + rest)[1..] == rest;
  }

  function AllSent(items: seq<Message>): seq<Outcome> {
    if items == [] then [] else [Sent(items[0])] + AllSent(items[1..])
  }

  lemma FindOwn(recs: seq<Record>, i: nat)
    requires Distinct(recs) && i < |recs|
    ensures Find(recs, recs[i].id) == i
  {
  }
}
