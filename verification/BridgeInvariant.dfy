/** What every step of the bridge protocol keeps. */
module BridgeInvariant {
  import opened Bridges
  import opened Wrappers

  function Messages(outcome: seq<Outcome>): seq<Message> {
    if outcome == [] then [] else [outcome[0].message] + Messages(outcome[1..])
  }

  function Items(s: State, b: BridgeId): seq<Message> {
    if b in s.writers then s.writers[b].items else []
  }

  // In how many places bridge b is: in records, with a writer, with a dispose call, closed, dropped.
  function Places(s: State, b: BridgeId): nat {
    multiset(Idle(Records(s)))[b] + (if b in s.writers then 1 else 0) + multiset(s.dying)[b] + multiset(s.closed)[b]
    + (if b in s.dropped then 1 else 0)
  }

  // Ids and bridges of records are their own; a record without its bridge has a writer.
  ghost predicate RecordsSound(s: State) {
    var recs := Records(s);
    && Distinct(recs)
    && (forall i :: 0 <= i < |recs| ==> recs[i].origin < s.next)
    && (forall i :: 0 <= i < |recs| && recs[i].bridge.Some? ==> recs[i].bridge.value == recs[i].origin)
    && (forall i :: 0 <= i < |recs| && recs[i].bridge.None? ==> WriterFor(s, recs[i].origin, recs[i].id))
  }

  ghost predicate WriterFor(s: State, b: BridgeId, id: SocketId) {
    b in s.writers && s.writers[b].id == id && !s.writers[b].closing
  }

  // A writer that looks for its record finds the right one, or none.
  ghost predicate WritersSound(s: State) {
    var recs := Records(s);
    && (forall b :: b in s.writers ==> b < s.next && (s.writers[b].closing ==> s.writers[b].items == []))
    && (forall b, i :: b in s.writers && !s.writers[b].closing && 0 <= i < |recs| && recs[i].id == s.writers[b].id
          ==> recs[i].origin == b)
    && (forall b, i :: b in s.writers && s.writers[b].closing && 0 <= i < |recs| ==> recs[i].origin != b)
  }

  ghost predicate SinglePlace(s: State) {
    forall b: BridgeId :: Places(s, b) == if b < s.next then 1 else 0
  }

  // What the record's bridge has handled, what its writer holds and what is queued
  // make up what was accepted, in order; an idle bridge has nothing queued.
  ghost predicate InOrder(s: State, r: Record) {
    && r.origin in s.accepted && r.origin in s.outcome
    && Messages(s.outcome[r.origin]) + Items(s, r.origin) + r.queue == s.accepted[r.origin]
    && (r.bridge.Some? ==> r.queue == [])
  }

  // Once the record is gone, the end of what was accepted is missing.
  ghost predicate InOrderSoFar(s: State, b: BridgeId) {
    && b in s.accepted && b in s.outcome
    && Messages(s.outcome[b]) + Items(s, b) <= s.accepted[b]
  }

  ghost predicate Fifo(s: State) {
    && (forall r :: r in Records(s) ==> InOrder(s, r))
    && (forall b: BridgeId :: b < s.next ==> InOrderSoFar(s, b))
  }

  ghost predicate Inv(s: State) {
    RecordsSound(s) && WritersSound(s) && SinglePlace(s) && Fifo(s)
  }

  /* ---- Lists of records ---- */

  lemma {:induction false} IdleAppend(p: seq<Record>, q: seq<Record>)
    ensures Idle(p + q) == Idle(p) + Idle(q)
  {
    if p == [] {
      assert p + q == q;
    } else {
      assert (p + q)[1..] == p[1..] + q;
      IdleAppend(p[1..], q);
      var first := if p[0].bridge.Some? then [p[0].bridge.value] else [];
      assert Idle(p + q) == first + (Idle(p[1..]) + Idle(q));
    }
  }

  function Holds(r: Record, b: BridgeId): nat {
    if r.bridge == Some(b) then 1 else 0
  }

  lemma {:induction false} IdleUpdate(recs: seq<Record>, i: nat, r: Record, b: BridgeId)
    requires i < |recs|
    ensures multiset(Idle(recs[i := r]))[b] + Holds(recs[i], b) == multiset(Idle(recs))[b] + Holds(r, b)
  {
    if i == 0 {
      assert recs[0 := r][1..] == recs[1..];
    } else {
      assert recs[i := r][1..] == recs[1..][i - 1 := r];
      IdleUpdate(recs[1..], i - 1, r, b);
    }
  }

  lemma {:induction false} IdleSplit(recs: seq<Record>, id: SocketId, b: BridgeId)
    ensures multiset(Idle(recs))[b] == multiset(Idle(Retained(recs, id)))[b] + multiset(Idle(Removed(recs, id)))[b]
  {
    if recs != [] {
      IdleSplit(recs[1..], id, b);
      var kept, gone := Retained(recs[1..], id), Removed(recs[1..], id);
      assert ([recs[0]] + kept)[1..] == kept && ([recs[0]] + gone)[1..] == gone;
      if recs[0].id != id {
        assert Retained(recs, id) == [recs[0]] + kept && Removed(recs, id) == gone;
      } else {
        assert Retained(recs, id) == kept && Removed(recs, id) == [recs[0]] + gone;
      }
    }
  }

  lemma {:induction false} IdleHas(recs: seq<Record>, i: nat)
    requires i < |recs| && recs[i].bridge.Some?
    ensures recs[i].bridge.value in Idle(recs)
  {
    if i > 0 {
      IdleHas(recs[1..], i - 1);
    }
  }

  // Retaining keeps the other records, in order.
  lemma {:induction false} RetainedFrom(recs: seq<Record>, id: SocketId, i: nat) returns (k: nat)
    requires i < |Retained(recs, id)|
    ensures k < |recs| && k >= i && Retained(recs, id)[i] == recs[k] && recs[k].id != id
  {
    if recs[0].id == id {
      k := RetainedFrom(recs[1..], id, i);
      k := k + 1;
    } else if i == 0 {
      k := 0;
    } else {
      k := RetainedFrom(recs[1..], id, i - 1);
      k := k + 1;
    }
  }

  // Retaining drops the records with the id and no others.
  lemma {:induction false} RetainedCount(recs: seq<Record>, id: SocketId, r: Record)
    ensures multiset(Retained(recs, id))[r] == if r.id == id then 0 else multiset(recs)[r]
  {
    if recs != [] {
      RetainedCount(recs[1..], id, r);
      assert recs == [recs[0]] + recs[1..];
    }
  }

  // The records kept stay in order.
  lemma {:induction false} RetainedOrder(recs: seq<Record>, id: SocketId, i: nat, j: nat) returns (k: nat, l: nat)
    requires i < j < |Retained(recs, id)|
    ensures k < l < |recs| && recs[k] == Retained(recs, id)[i] && recs[l] == Retained(recs, id)[j]
  {
    if recs[0].id == id {
      k, l := RetainedOrder(recs[1..], id, i, j);
      k, l := k + 1, l + 1;
    } else if i == 0 {
      k := 0;
      l := RetainedFrom(recs[1..], id, j - 1);
      l := l + 1;
    } else {
      k, l := RetainedOrder(recs[1..], id, i - 1, j - 1);
      k, l := k + 1, l + 1;
    }
  }

  // Some record, of the given id if there is one, holds bridge b.
  ghost predicate HeldBy(recs: seq<Record>, id: Option<SocketId>, b: BridgeId) {
    exists i :: 0 <= i < |recs| && (id.Some? ==> recs[i].id == id.value) && recs[i].bridge == Some(b)
  }

  lemma {:induction false} IdleExactly(recs: seq<Record>, b: BridgeId)
    ensures b in Idle(recs) <==> HeldBy(recs, None, b)
  {
    if recs != [] {
      IdleExactly(recs[1..], b);
      assert HeldBy(recs[1..], None, b) ==> HeldBy(recs, None, b) by {
        if HeldBy(recs[1..], None, b) {
          var i :| 0 <= i < |recs[1..]| && recs[1..][i].bridge == Some(b);
          assert recs[i + 1].bridge == Some(b);
        }
      }
      assert HeldBy(recs, None, b) ==> recs[0].bridge == Some(b) || HeldBy(recs[1..], None, b) by {
        if HeldBy(recs, None, b) {
          var i :| 0 <= i < |recs| && recs[i].bridge == Some(b);
          assert i > 0 ==> recs[1..][i - 1].bridge == Some(b);
        }
      }
    }
  }

  lemma {:induction false} RemovedExactly(recs: seq<Record>, id: SocketId, b: BridgeId)
    ensures b in Idle(Removed(recs, id)) <==> HeldBy(recs, Some(id), b)
  {
    if recs != [] {
      RemovedExactly(recs[1..], id, b);
      var rest := Removed(recs[1..], id);
      assert ([recs[0]] + rest)[1..] == rest;
      assert Removed(recs, id) == if recs[0].id == id then [recs[0]] + rest else rest;
      if HeldBy(recs[1..], Some(id), b) {
        var i :| 0 <= i < |recs[1..]| && recs[1..][i].id == id && recs[1..][i].bridge == Some(b);
        assert recs[i + 1].id == id && recs[i + 1].bridge == Some(b);
      }
      if HeldBy(recs, Some(id), b) {
        var i :| 0 <= i < |recs| && recs[i].id == id && recs[i].bridge == Some(b);
        assert i > 0 ==> recs[1..][i - 1].id == id && recs[1..][i - 1].bridge == Some(b);
      }
    }
  }

  ghost predicate Distinct(recs: seq<Record>) {
    forall i, j :: 0 <= i < j < |recs| ==> recs[i].id != recs[j].id && recs[i].origin != recs[j].origin
  }

  lemma {:induction false} RetainedDistinct(recs: seq<Record>, id: SocketId)
    requires Distinct(recs)
    ensures Distinct(Retained(recs, id))
  {
    if recs != [] {
      RetainedDistinct(recs[1..], id);
      var rest := Retained(recs[1..], id);
      forall j | 0 <= j < |rest|
        ensures rest[j].id != recs[0].id && rest[j].origin != recs[0].origin
      {
        var k := RetainedFrom(recs[1..], id, j);
      }
      assert recs[0].id != id ==> Retained(recs, id) == [recs[0]] + rest;
      assert recs[0].id == id ==> Retained(recs, id) == rest;
    }
  }

  lemma {:induction false} MessagesAppend(p: seq<Outcome>, q: seq<Outcome>)
    ensures Messages(p + q) == Messages(p) + Messages(q)
  {
    if p == [] {
      assert p + q == q;
    } else {
      assert (p + q)[1..] == p[1..] + q;
      MessagesAppend(p[1..], q);
    }
  }

  lemma {:induction false} MessagesLost(items: seq<Message>)
    ensures Messages(AllLost(items)) == items
  {
    if items != [] {
      MessagesLost(items[1..]);
    }
  }

  /* ---- Steps ---- */

  lemma InitInv()
    ensures Inv(INIT)
  {
  }

  lemma AttachPlaces(s: State, id: SocketId)
    requires SinglePlace(s)
    ensures SinglePlace(DoAttach(s, id))
  {
    var t := DoAttach(s, id);
    IdleAppend(Records(s), [Record(id, Some(s.next), [], s.next)]);
    forall b: BridgeId
      ensures Places(t, b) == Places(s, b) + (if b == s.next then 1 else 0)
    {
    }
  }

  // A bridge that a record holds is nowhere else.
  lemma HeldOnce(s: State, i: nat)
    requires SinglePlace(s) && i < |Records(s)| && Records(s)[i].bridge.Some?
    ensures var b := Records(s)[i].bridge.value;
      && multiset(Idle(Records(s)))[b] == 1 && b !in s.writers && b !in s.dropped
      && multiset(s.dying)[b] == 0 && multiset(s.closed)[b] == 0
  {
    IdleHas(Records(s), i);
    assert Places(s, Records(s)[i].bridge.value) <= 1;
  }

  // A bridge that a writer holds is nowhere else.
  lemma WrittenOnce(s: State, b: BridgeId)
    requires SinglePlace(s) && b in s.writers
    ensures multiset(Idle(Records(s)))[b] == 0 && b !in s.dropped
    ensures multiset(s.dying)[b] == 0 && multiset(s.closed)[b] == 0
  {
    assert Places(s, b) <= 1;
  }

  lemma HandlePlaces(s: State, id: SocketId, message: Message)
    requires SinglePlace(s) && Enabled(s, Handle(id, message))
    ensures SinglePlace(DoHandle(s, id, message))
  {
    var recs, i := Records(s), Find(Records(s), id);
    forall b: BridgeId
      ensures Places(DoHandle(s, id, message), b) == Places(s, b)
    {
      if i < |recs| {
        if recs[i].bridge.Some? {
          HeldOnce(s, i);
        }
        HandlePlace(s, id, message, b);
      }
    }
  }

  lemma HandlePlace(s: State, id: SocketId, message: Message, b: BridgeId)
    requires Enabled(s, Handle(id, message)) && Find(Records(s), id) < |Records(s)|
    requires var r := Records(s)[Find(Records(s), id)]; r.bridge.Some? ==> r.bridge.value !in s.writers
    ensures Places(DoHandle(s, id, message), b) == Places(s, b)
  {
    var recs, i := Records(s), Find(Records(s), id);
    var r := recs[i].(queue := recs[i].queue + [message], bridge := None);
    assert Records(DoHandle(s, id, message)) == recs[i := r];
    IdleUpdate(recs, i, r, b);
  }

  // Bridge b goes back into record i, in place of what the record holds.
  lemma GiveBackPlaces(s: State, b: BridgeId, c: BridgeId)
    requires SinglePlace(s) && Enabled(s, Lock(b))
    requires var i := Find(Records(s), s.writers[b].id); i < |Records(s)| && Records(s)[i].queue == []
    ensures Places(DoLock(s, b), c) == Places(s, c)
  {
    var recs, i := Records(s), Find(Records(s), s.writers[b].id);
    WrittenOnce(s, b);
    if recs[i].bridge.Some? {
      HeldOnce(s, i);
    }
    var t := DoLock(s, b);
    assert Records(t) == recs[i := recs[i].(bridge := Some(b))];
    IdleUpdate(recs, i, recs[i].(bridge := Some(b)), c);
    assert c in t.writers <==> c in s.writers && c != b;
    assert c in t.dropped <==> c in s.dropped || recs[i].bridge == Some(c);
  }

  lemma TakePlaces(s: State, b: BridgeId, c: BridgeId)
    requires Enabled(s, Lock(b))
    requires var i := Find(Records(s), s.writers[b].id); i < |Records(s)| && Records(s)[i].queue != []
    ensures Places(DoLock(s, b), c) == Places(s, c)
  {
    var t, recs, i := DoLock(s, b), Records(s), Find(Records(s), s.writers[b].id);
    assert Records(t) == recs[i := recs[i].(queue := s.writers[b].items)];
    IdleUpdate(recs, i, recs[i].(queue := s.writers[b].items), c);
  }

  lemma LockPlaces(s: State, b: BridgeId)
    requires SinglePlace(s) && Enabled(s, Lock(b))
    ensures SinglePlace(DoLock(s, b))
  {
    var recs, i := Records(s), Find(Records(s), s.writers[b].id);
    forall c: BridgeId
      ensures Places(DoLock(s, b), c) == Places(s, c)
    {
      if i < |recs| && recs[i].queue == [] {
        GiveBackPlaces(s, b, c);
      } else if i < |recs| {
        TakePlaces(s, b, c);
      }
    }
  }

  // Whatever ids are attached, a step moves bridges from place to place.
  lemma StepPlaces(s: State, e: Event)
    requires SinglePlace(s) && Enabled(s, e)
    ensures SinglePlace(Step(s, e))
  {
    match e
    case Attach(id) => AttachPlaces(s, id);
    case Handle(id, message) => HandlePlaces(s, id, message);
    case Lock(b) => LockPlaces(s, b);
    case Remove(id) => RemovePlaces(s, id);
    case _ => OtherPlaces(s, e);
  }

  lemma OtherPlaces(s: State, e: Event)
    requires SinglePlace(s) && Enabled(s, e) && (e.Write? || e.Close? || e.Dispose? || e.DisposeClose?)
    ensures SinglePlace(Step(s, e))
  {
    var t := Step(s, e);
    forall c: BridgeId
      ensures Places(t, c) == Places(s, c)
    {
      match e
      case Write(b, ok) => WritePlaces(s, b, ok, c);
      case DisposeClose => assert s.dying == [s.dying[0]] + s.dying[1..];
      case _ =>
    }
  }

  lemma WritePlaces(s: State, b: BridgeId, ok: bool, c: BridgeId)
    requires Enabled(s, Write(b, ok))
    ensures Places(Step(s, Write(b, ok)), c) == Places(s, c)
  {
    assert c in Step(s, Write(b, ok)).writers <==> c in s.writers;
  }

  // What every free run keeps: places, and an entry in the books for every bridge.
  ghost predicate Booked(s: State) {
    && SinglePlace(s)
    && (forall b: BridgeId :: b < s.next ==> b in s.accepted && b in s.outcome)
    && (forall i :: 0 <= i < |Records(s)| ==> Records(s)[i].origin < s.next)
    && (forall b :: b in s.writers && s.writers[b].closing ==> s.writers[b].items == [])
  }

  lemma StepOrigins(s: State, e: Event, i: nat)
    requires Booked(s) && Enabled(s, e) && i < |Records(Step(s, e))|
    ensures Records(Step(s, e))[i].origin < Step(s, e).next
  {
    var recs := Records(s);
    match e
    case Attach(_) => assert i < |recs| ==> Records(Step(s, e))[i] == recs[i];
    case Handle(_, _) => assert Records(Step(s, e))[i].origin == recs[i].origin;
    case Lock(_) => assert Records(Step(s, e))[i].origin == recs[i].origin;
    case Remove(id) =>
      if s.list.Some? {
        var k := RetainedFrom(s.list.value, id, i);
      }
    case _ =>
  }

  lemma StepBooked(s: State, e: Event)
    requires Booked(s) && Enabled(s, e)
    ensures Booked(Step(s, e))
  {
    StepPlaces(s, e);
    forall i | 0 <= i < |Records(Step(s, e))|
      ensures Records(Step(s, e))[i].origin < Step(s, e).next
    {
      StepOrigins(s, e, i);
    }
  }

  lemma AttachRecords(s: State, id: SocketId)
    requires RecordsSound(s) && Unused(s, id) && forall b :: b in s.writers ==> b < s.next
    ensures RecordsSound(DoAttach(s, id))
  {
    var t, recs := DoAttach(s, id), Records(s);
    assert forall i :: 0 <= i < |recs| ==> Records(t)[i] == recs[i] && recs[i] in recs;
    assert Records(t)[|recs|] == Record(id, Some(s.next), [], s.next);
  }

  lemma AttachWriters(s: State, id: SocketId)
    requires WritersSound(s) && Unused(s, id)
    ensures WritersSound(DoAttach(s, id))
  {
    var t, recs := DoAttach(s, id), Records(s);
    assert forall i :: 0 <= i < |recs| ==> Records(t)[i] == recs[i];
    assert Records(t)[|recs|] == Record(id, Some(s.next), [], s.next);
  }

  // Bridge b is as it was.
  ghost predicate SameBridge(s: State, t: State, b: BridgeId) {
    && b in s.accepted && b in s.outcome && b in t.accepted && b in t.outcome
    && t.accepted[b] == s.accepted[b] && t.outcome[b] == s.outcome[b] && Items(t, b) == Items(s, b)
  }

  lemma AttachFifo(s: State, id: SocketId)
    requires RecordsSound(s) && WritersSound(s) && Fifo(s)
    ensures Fifo(DoAttach(s, id))
  {
    var t, added := DoAttach(s, id), Record(id, Some(s.next), [], s.next);
    assert s.next !in s.writers;
    forall b: BridgeId | b < s.next
      ensures SameBridge(s, t, b) && InOrderSoFar(t, b)
    {
      assert InOrderSoFar(s, b);
    }
    forall r | r in Records(t)
      ensures InOrder(t, r)
    {
      if r in Records(s) {
        assert InOrder(s, r) && r.origin < s.next;
        assert SameBridge(s, t, r.origin);
      } else {
        assert r == added;
      }
    }
  }

  lemma AttachKeeps(s: State, id: SocketId)
    requires Inv(s) && Unused(s, id)
    ensures Inv(DoAttach(s, id))
  {
    AttachPlaces(s, id);
    AttachRecords(s, id);
    AttachWriters(s, id);
    AttachFifo(s, id);
  }

  // One record changes, and with it what its bridge has to do.
  ghost predicate Updated(s: State, t: State, i: nat, r: Record) {
    && s.list.Some? && i < |s.list.value|
    && t.list == Some(s.list.value[i := r])
    && r.id == s.list.value[i].id && r.origin == s.list.value[i].origin
    && t.next == s.next && t.dying == s.dying && t.closed == s.closed && t.dropped == s.dropped
    && (forall b: BridgeId :: b < s.next && b != r.origin ==> SameBridge(s, t, b))
    && (forall b: BridgeId :: b != r.origin ==>
          (b in t.writers <==> b in s.writers) && (b in s.writers ==> t.writers[b] == s.writers[b]))
  }

  lemma UpdatedFifo(s: State, t: State, i: nat, r: Record)
    requires Fifo(s) && RecordsSound(s) && Updated(s, t, i, r)
    requires InOrder(t, r)
    ensures Fifo(t)
  {
    var recs := s.list.value;
    forall q | q in Records(t)
      ensures InOrder(t, q)
    {
      var j :| 0 <= j < |recs| && recs[i := r][j] == q;
      if j != i {
        assert recs[j] in Records(s) && InOrder(s, recs[j]);
        assert recs[j].origin != r.origin;
        assert SameBridge(s, t, recs[j].origin);
      }
    }
    forall b: BridgeId | b < t.next
      ensures InOrderSoFar(t, b)
    {
      assert InOrderSoFar(s, b);
      if b != r.origin {
        assert SameBridge(s, t, b);
      }
    }
  }

  // The bridge is with exactly one of the record and a writer that knows the record.
  ghost predicate Owned(t: State, r: Record) {
    if r.bridge.Some? then r.bridge.value == r.origin && r.origin !in t.writers
    else WriterFor(t, r.origin, r.id)
  }

  lemma UpdatedSound(s: State, t: State, i: nat, r: Record)
    requires RecordsSound(s) && WritersSound(s) && Updated(s, t, i, r) && Owned(t, r)
    ensures RecordsSound(t) && WritersSound(t)
  {
  }

  lemma OwnedBefore(s: State, i: nat)
    requires RecordsSound(s) && SinglePlace(s) && s.list.Some? && i < |s.list.value|
    ensures Owned(s, s.list.value[i])
  {
    var r := s.list.value[i];
    if r.bridge.Some? {
      IdleHas(s.list.value, i);
      assert Places(s, r.origin) <= 1;
    }
  }

  lemma UpdatedKeeps(s: State, t: State, i: nat, r: Record)
    requires Inv(s) && Updated(s, t, i, r) && Owned(t, r) && InOrder(t, r) && SinglePlace(t)
    ensures Inv(t)
  {
    UpdatedSound(s, t, i, r);
    UpdatedFifo(s, t, i, r);
  }

  lemma HandleKeeps(s: State, id: SocketId, message: Message)
    requires Inv(s) && Enabled(s, Handle(id, message))
    ensures Inv(DoHandle(s, id, message))
  {
    var t, recs, i := DoHandle(s, id, message), Records(s), Find(Records(s), id);
    if i < |recs| {
      var r := recs[i];
      var r' := r.(queue := r.queue + [message], bridge := None);
      OwnedBefore(s, i);
      HandlePlaces(s, id, message);
      assert r in recs && InOrder(s, r);
      forall c: BridgeId | c < s.next && c != r.origin
        ensures SameBridge(s, t, c)
      {
        assert InOrderSoFar(s, c);
      }
      UpdatedKeeps(s, t, i, r');
    }
  }

  lemma WriterRecord(s: State, b: BridgeId)
    requires WritersSound(s) && Enabled(s, Lock(b)) && Find(Records(s), s.writers[b].id) < |Records(s)|
    ensures Records(s)[Find(Records(s), s.writers[b].id)].origin == b
  {
  }

  lemma LockKeeps(s: State, b: BridgeId)
    requires Inv(s) && Enabled(s, Lock(b))
    ensures Inv(DoLock(s, b))
  {
    var t, w, recs := DoLock(s, b), s.writers[b], Records(s);
    var i := Find(recs, w.id);
    if i == |recs| {
      LockGone(s, b);
    } else {
      WriterRecord(s, b);
      OwnedBefore(s, i);
      LockPlaces(s, b);
      assert recs[i] in recs && InOrder(s, recs[i]);
      forall c: BridgeId | c < s.next && c != b
        ensures SameBridge(s, t, c)
      {
        assert InOrderSoFar(s, c);
      }
      UpdatedKeeps(s, t, i, Records(t)[i]);
    }
  }

  // Only the writer of b changes; the list stays.
  lemma LockGone(s: State, b: BridgeId)
    requires Inv(s) && Enabled(s, Lock(b)) && Find(Records(s), s.writers[b].id) == |Records(s)|
    ensures Inv(DoLock(s, b))
  {
    var t := DoLock(s, b);
    assert forall c: BridgeId :: Places(t, c) == Places(s, c);
    forall r | r in Records(s)
      ensures r.origin != b && r.origin < s.next
    {
      GoneRecord(s, b, r);
    }
    forall c: BridgeId | c < s.next
      ensures SameBridge(s, t, c) && InOrderSoFar(t, c)
    {
      assert InOrderSoFar(s, c);
    }
    SameElsewhere(s, t, b);
  }

  lemma GoneRecord(s: State, b: BridgeId, r: Record)
    requires RecordsSound(s) && SinglePlace(s) && Enabled(s, Lock(b)) && r in Records(s)
    requires Find(Records(s), s.writers[b].id) == |Records(s)|
    ensures r.origin != b && r.origin < s.next
  {
    var i :| 0 <= i < |Records(s)| && Records(s)[i] == r;
    OwnedBefore(s, i);
  }

  // Bridge b has no record and keeps its order; nothing else changes.
  lemma SameElsewhere(s: State, t: State, b: BridgeId)
    requires Fifo(s) && t.list == s.list && t.next == s.next && b < s.next
    requires forall c: BridgeId :: c < s.next && c != b ==> SameBridge(s, t, c)
    requires InOrderSoFar(t, b) && forall r :: r in Records(s) ==> r.origin != b && r.origin < s.next
    ensures Fifo(t)
  {
    forall r | r in Records(t)
      ensures InOrder(t, r)
    {
      assert InOrder(s, r) && SameBridge(s, t, r.origin);
    }
    forall c: BridgeId | c < t.next
      ensures InOrderSoFar(t, c)
    {
      assert InOrderSoFar(s, c) && (c != b ==> SameBridge(s, t, c));
    }
  }

  // The list stays, and every bridge has handled and holds, taken together, what it had before.
  lemma SameTotals(s: State, t: State)
    requires Fifo(s) && t.list == s.list && t.next == s.next && t.accepted == s.accepted
    requires forall b: BridgeId :: b in s.outcome ==>
      (b in t.outcome && Messages(t.outcome[b]) + Items(t, b) == Messages(s.outcome[b]) + Items(s, b))
    ensures Fifo(t)
  {
    forall r | r in Records(t)
      ensures InOrder(t, r)
    {
      assert InOrder(s, r);
    }
    forall b: BridgeId | b < t.next
      ensures InOrderSoFar(t, b)
    {
      assert InOrderSoFar(s, b);
    }
  }

  lemma WriteTotals(s: State, b: BridgeId, ok: bool)
    requires Enabled(s, Write(b, ok))
    ensures var t := DoWrite(s, b, ok);
            Messages(t.outcome[b]) + Items(t, b) == Messages(s.outcome[b]) + Items(s, b)
  {
    var t, w := DoWrite(s, b, ok), s.writers[b];
    if ok {
      MessagesAppend(s.outcome[b], [Sent(w.items[0])]);
      assert Messages([Sent(w.items[0])]) == [w.items[0]];
      assert w.items == [w.items[0]] + w.items[1..];
    } else {
      MessagesAppend(s.outcome[b], AllLost(w.items));
      MessagesLost(w.items);
    }
  }

  lemma WriteKeeps(s: State, b: BridgeId, ok: bool)
    requires Inv(s) && Enabled(s, Write(b, ok))
    ensures Inv(DoWrite(s, b, ok))
  {
    var t := DoWrite(s, b, ok);
    assert t.writers.Keys == s.writers.Keys;
    assert forall c: BridgeId :: Places(t, c) == Places(s, c);
    WriteTotals(s, b, ok);
    SameTotals(s, t);
    WriteSound(s, b, ok);
  }

  lemma WriteSound(s: State, b: BridgeId, ok: bool)
    requires RecordsSound(s) && WritersSound(s) && Enabled(s, Write(b, ok))
    ensures RecordsSound(DoWrite(s, b, ok)) && WritersSound(DoWrite(s, b, ok))
  {
    var t := DoWrite(s, b, ok);
    assert forall c, id :: WriterFor(s, c, id) ==> WriterFor(t, c, id);
  }

  lemma CloseKeeps(s: State, b: BridgeId)
    requires Inv(s) && Enabled(s, Close(b))
    ensures Inv(Step(s, Close(b)))
  {
    var t := Step(s, Close(b));
    assert forall c: BridgeId :: Places(t, c) == Places(s, c);
    SameTotals(s, t);
    CloseSound(s, b);
  }

  lemma CloseSound(s: State, b: BridgeId)
    requires RecordsSound(s) && WritersSound(s) && Enabled(s, Close(b))
    ensures RecordsSound(Step(s, Close(b))) && WritersSound(Step(s, Close(b)))
  {
    var t := Step(s, Close(b));
    assert forall c, id :: WriterFor(s, c, id) ==> WriterFor(t, c, id);
  }

  // The list loses records, nothing else that the writers see changes.
  lemma FewerRecords(s: State, t: State)
    requires RecordsSound(s) && WritersSound(s) && Fifo(s)
    requires t.writers == s.writers && t.next == s.next && t.accepted == s.accepted && t.outcome == s.outcome
    requires Distinct(Records(t)) && forall r :: r in Records(t) ==> r in Records(s)
    ensures RecordsSound(t) && WritersSound(t) && Fifo(t)
  {
    forall i | 0 <= i < |Records(t)|
      ensures exists j :: 0 <= j < |Records(s)| && Records(s)[j] == Records(t)[i]
    {
      assert Records(t)[i] in Records(s);
    }
    assert forall c, id :: WriterFor(s, c, id) ==> WriterFor(t, c, id);
    forall r | r in Records(t)
      ensures InOrder(t, r)
    {
      assert InOrder(s, r);
    }
    forall b: BridgeId | b < t.next
      ensures InOrderSoFar(t, b)
    {
      assert InOrderSoFar(s, b);
    }
  }

  lemma RemovePlaces(s: State, id: SocketId)
    requires SinglePlace(s)
    ensures SinglePlace(DoRemove(s, id))
  {
    if s.list.Some? {
      var t := DoRemove(s, id);
      forall b: BridgeId
        ensures Places(t, b) == Places(s, b)
      {
        IdleSplit(s.list.value, id, b);
        assert Places(s, b) <= 1;
      }
    }
  }

  lemma RemoveKeeps(s: State, id: SocketId)
    requires Inv(s)
    ensures Inv(DoRemove(s, id))
  {
    RemovePlaces(s, id);
    if s.list.Some? {
      var t := DoRemove(s, id);
      RetainedDistinct(s.list.value, id);
      forall r | r in Records(t)
        ensures r in Records(s)
      {
        var i :| 0 <= i < |Records(t)| && Records(t)[i] == r;
        var k := RetainedFrom(s.list.value, id, i);
      }
      FewerRecords(s, t);
    }
  }

  lemma DisposeKeeps(s: State)
    requires Inv(s)
    ensures Inv(Step(s, Dispose))
  {
    var t := Step(s, Dispose);
    FewerRecords(s, t);
    assert forall b: BridgeId :: Places(t, b) == Places(s, b);
  }

  lemma DisposeCloseKeeps(s: State)
    requires Inv(s) && s.dying != []
    ensures Inv(Step(s, DisposeClose))
  {
    var t := Step(s, DisposeClose);
    assert s.dying == [s.dying[0]] + s.dying[1..];
    assert forall b: BridgeId :: Places(t, b) == Places(s, b);
    FewerRecords(s, t);
  }

  lemma StepKeeps(s: State, e: Event)
    requires Inv(s) && Enabled(s, e) && (e.Attach? ==> Unused(s, e.id))
    ensures Inv(Step(s, e))
  {
    match e
    case Attach(id) => AttachKeeps(s, id);
    case Handle(id, message) => HandleKeeps(s, id, message);
    case Lock(b) => LockKeeps(s, b);
    case Write(b, ok) => WriteKeeps(s, b, ok);
    case Close(b) => CloseKeeps(s, b);
    case Remove(id) => RemoveKeeps(s, id);
    case Dispose => DisposeKeeps(s);
    case DisposeClose => DisposeCloseKeeps(s);
  }
}
