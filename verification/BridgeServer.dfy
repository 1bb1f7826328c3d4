/**
  The lock-protected blocks of the control server, on the list of records they
  update.  Each is one step of the protocol.
 */
module BridgeServer {
  import opened Bridges
  import opened BridgeInvariant
  import opened BridgeRuns
  import opened Wrappers

  datatype Reply = Queued | NoAttachedServer

  // What the write loop learns under the lock.
  datatype Turn = RecordGone | GivenBack | Batch(items: seq<Message>)

  class ServerBridgeList {
    var list: Option<seq<Record>>

    // The whole system, of which the list is the part under the lock.
    ghost var view: State

    ghost predicate Valid()
      reads this
    {
      list == view.list && Occurs(view)
    }

    constructor ()
      ensures Valid() && view == INIT
    {
      list := Some([]);
      view := INIT;
      new;
      assert IsFreeRun([INIT]);
    }

    static method FindRecord(recs: seq<Record>, id: SocketId) returns (i: nat)
      ensures i == Find(recs, id)
    {
      i := 0;
      while i < |recs| && recs[i].id != id
        invariant i <= |recs| && forall j :: 0 <= j < i ==> recs[j].id != id
      {
        i := i + 1;
      }
    }

    // A new record at the end of the list, which is created anew after a dispose.
    method AttachServerBridge(id: SocketId, bridge: BridgeId)
      requires Valid() && bridge == view.next
      modifies this
      ensures Valid() && view == Step(old(view), Attach(id))
      ensures list == Some((if old(list).Some? then old(list).value else []) + [Record(id, Some(bridge), [], bridge)])
    {
      NextOccurs(view, Attach(id));
      var rec := Record(id, Some(bridge), [], bridge);
      match list {
        case Some(recs) => list := Some(recs + [rec]);
        case None =>
          list := Some([rec]);
          assert [] + [rec] == [rec];
      }
      view := Step(view, Attach(id));
    }

    // Queues the message; hands out the bridge when a write loop has to be started.
    method HandleServerMessage(id: SocketId, body: Message) returns (reply: Reply, started: Option<BridgeId>)
      requires Valid()
      modifies this
      ensures Valid() && Enabled(old(view), Handle(id, body)) && view == Step(old(view), Handle(id, body))
      ensures reply == NoAttachedServer <==> forall r :: r in Records(old(view)) ==> r.id != id
      ensures reply == NoAttachedServer ==> view == old(view) && started == None
      ensures view.writers.Keys == old(view).writers.Keys + (if started.Some? then {started.value} else {})
      ensures reply == Queued ==> Accepted(old(view), view, id, body, started)
    {
      HandleEnabled(view, id, body);
      NextOccurs(view, Handle(id, body));
      reply, started := NoAttachedServer, None;
      if list.Some? {
        var recs := list.value;
        var i := FindRecord(recs, id);
        if i < |recs| {
          reply, started := Queued, recs[i].bridge;
          assert recs[i] in Records(view);
          list := Some(recs[i := recs[i].(queue := recs[i].queue + [body], bridge := None)]);
        }
      }
      view := Step(view, Handle(id, body));
    }

    // The block at the top of the write loop.
    method NextTurn(bridge: BridgeId, id: SocketId) returns (turn: Turn)
      requires Valid() && Enabled(view, Lock(bridge)) && view.writers[bridge].id == id
      modifies this
      ensures Valid() && view == Step(old(view), Lock(bridge))
      ensures match turn
              case RecordGone =>
                bridge in view.writers && view.writers[bridge].closing && forall r :: r in Records(old(view)) ==> r.id != id
              case GivenBack => bridge !in view.writers && Exchanged(old(view), view, id, Some(bridge), [])
              case Batch(items) =>
                && items != [] && WriterFor(view, bridge, id) && Items(view, bridge) == items
                && Exchanged(old(view), view, id, None, items)
    {
      NextOccurs(view, Lock(bridge));
      turn := RecordGone;
      if list.Some? {
        var recs := list.value;
        var i := FindRecord(recs, id);
        if i < |recs| {
          if recs[i].queue == [] {
            list := Some(recs[i := recs[i].(bridge := Some(bridge))]);
            turn := GivenBack;
          } else {
            turn := Batch(recs[i].queue);
            list := Some(recs[i := recs[i].(queue := [])]);
          }
        }
      }
      view := Step(view, Lock(bridge));
    }

    static method Retain(recs: seq<Record>, id: SocketId) returns (kept: seq<Record>)
      ensures kept == Retained(recs, id)
    {
      kept := [];
      for i := 0 to |recs|
        invariant kept + Retained(recs[i..], id) == Retained(recs, id)
      {
        assert recs[i..][1..] == recs[i + 1..];
        if recs[i].id != id {
          kept := kept + [recs[i]];
        }
      }
    }

    static method IdleBridges(recs: seq<Record>) returns (bridges: seq<BridgeId>)
      ensures bridges == Idle(recs)
    {
      bridges := [];
      for i := 0 to |recs|
        invariant bridges + Idle(recs[i..]) == Idle(recs)
      {
        assert recs[i..][1..] == recs[i + 1..];
        if recs[i].bridge.Some? {
          bridges := bridges + [recs[i].bridge.value];
        }
      }
    }

    method CloseServerBridge(id: SocketId)
      requires Valid()
      modifies this
      ensures Valid() && view == Step(old(view), Remove(id))
      ensures forall r :: multiset(Records(view))[r] == if r.id == id then 0 else multiset(Records(old(view)))[r]
      ensures forall b :: b in view.dropped <==> b in old(view).dropped || HeldBy(Records(old(view)), Some(id), b)
    {
      forall r
        ensures multiset(Retained(Records(view), id))[r] == if r.id == id then 0 else multiset(Records(view))[r]
      {
        RetainedCount(Records(view), id, r);
      }
      forall b
        ensures b in Idle(Removed(Records(view), id)) <==> HeldBy(Records(view), Some(id), b)
      {
        RemovedExactly(Records(view), id, b);
      }
      NextOccurs(view, Remove(id));
      if list.Some? {
        var kept := Retain(list.value, id);
        list := Some(kept);
      }
      view := Step(view, Remove(id));
    }

    // Takes the list and hands out the bridges to close.
    method TakeAll() returns (bridges: seq<BridgeId>)
      requires Valid()
      modifies this
      ensures Valid() && view == Step(old(view), Dispose)
      ensures bridges == Idle(Records(old(view))) && list == None
      ensures forall b :: b in bridges <==> HeldBy(Records(old(view)), None, b)
    {
      forall b
        ensures b in Idle(Records(view)) <==> HeldBy(Records(view), None, b)
      {
        IdleExactly(Records(view), b);
      }
      NextOccurs(view, Dispose);
      bridges := [];
      if list.Some? {
        bridges := IdleBridges(list.value);
        list := None;
      }
      view := Step(view, Dispose);
    }
  }

  // From s to t the first record with the id has queued the message behind the others
  // and given its bridge away; the message counts as accepted for that record's bridge.
  ghost predicate Accepted(s: State, t: State, id: SocketId, body: Message, started: Option<BridgeId>) {
    exists i :: 0 <= i < |Records(s)| && FirstOf(Records(s), id, i) && var r := Records(s)[i];
      && Records(t) == Records(s)[i := Record(id, None, r.queue + [body], r.origin)] && started == r.bridge
      && r.origin in s.accepted && t.accepted == s.accepted[r.origin := s.accepted[r.origin] + [body]]
  }

  // From s to t the first record with the id has given its queue away; or it had none, and got the bridge.
  ghost predicate Exchanged(s: State, t: State, id: SocketId, bridge: Option<BridgeId>, items: seq<Message>) {
    exists i :: 0 <= i < |Records(s)| && FirstOf(Records(s), id, i) && var r := Records(s)[i];
      && r.queue == items
      && Records(t) == Records(s)[i := r.(queue := [], bridge := if bridge.Some? then bridge else r.bridge)]
  }

  predicate FirstOf(recs: seq<Record>, id: SocketId, i: nat) {
    i < |recs| && recs[i].id == id && forall j :: 0 <= j < i ==> recs[j].id != id
  }

  lemma HandleEnabled(s: State, id: SocketId, body: Message)
    requires Occurs(s)
    ensures Enabled(s, Handle(id, body))
  {
    OccursBooked(s);
  }

  lemma NextOccurs(s: State, e: Event)
    requires Occurs(s) && Enabled(s, e)
    ensures Occurs(Step(s, e))
  {
    assert EndsFreeRun(Sealed, s);
    var run :| IsFreeRun(run) && run[|run| - 1] == s;
    var t := Step(s, e);
    var longer := run + [t];
    assert Happens(s, t);
    forall i {:trigger longer[i]} | 0 < i < |longer|
      ensures Happens(longer[i - 1], longer[i])
    {
      assert i < |run| ==> longer[i] == run[i];
      assert longer[i - 1] == run[i - 1];
    }
    assert IsFreeRun(longer);
  }
}
