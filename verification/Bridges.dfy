/**
  The server bridges of a tunnel connection, as steps of concurrent tasks.  One
  mutex protects the list of records; a task that writes to a bridge has taken
  the bridge out of its record and gives it back when the queue is empty.  A step
  is one lock-protected block, one write or one close.
 */
module Bridges {
  import opened Wrappers

  newtype byte = x: int | 0 <= x < 0x100
  newtype SocketId = x: int | 0 <= x < 0x1_0000

  type Message = seq<byte>
  type BridgeId = nat

  // origin is the bridge the record was created with (history).
  datatype Record = Record(id: SocketId, bridge: Option<BridgeId>, queue: seq<Message>, origin: BridgeId)

  // A running write loop: items is the batch it has taken from the queue.
  datatype Writer = Writer(id: SocketId, items: seq<Message>, closing: bool)

  datatype Outcome = Sent(message: Message) | Lost(message: Message)

  // accepted and outcome are history, one entry a bridge.
  datatype State = State(
    list: Option<seq<Record>>,
    writers: map<BridgeId, Writer>,
    dying: seq<BridgeId>,     // taken by a dispose call that has yet to close them
    closed: seq<BridgeId>,    // calls of close, in order
    dropped: set<BridgeId>,   // dropped with their record, without a call of close
    next: BridgeId,
    accepted: map<BridgeId, seq<Message>>,
    outcome: map<BridgeId, seq<Outcome>>)

  const INIT := State(Some([]), map[], [], [], {}, 0, map[], map[])

  function Records(s: State): seq<Record> {
    if s.list.Some? then s.list.value else []
  }

  // The record that find by id returns: the first, or none.
  function Find(recs: seq<Record>, id: SocketId): (i: nat)
    ensures i <= |recs| && (forall j :: 0 <= j < i ==> recs[j].id != id)
    ensures i < |recs| ==> recs[i].id == id
  {
    if recs == [] || recs[0].id == id then 0 else 1 + Find(recs[1..], id)
  }

  function Retained(recs: seq<Record>, id: SocketId): seq<Record> {
    if recs == [] then [] else (if recs[0].id != id then [recs[0]] else []) + Retained(recs[1..], id)
  }

  function Removed(recs: seq<Record>, id: SocketId): seq<Record> {
    if recs == [] then [] else (if recs[0].id == id then [recs[0]] else []) + Removed(recs[1..], id)
  }

  // The bridges that the records hold.
  function Idle(recs: seq<Record>): seq<BridgeId> {
    if recs == [] then [] else (if recs[0].bridge.Some? then [recs[0].bridge.value] else []) + Idle(recs[1..])
  }

  function AllLost(items: seq<Message>): seq<Outcome> {
    if items == [] then [] else [Lost(items[0])] + AllLost(items[1..])
  }

  /* ---- Steps ---- */

  datatype Event =
    | Attach(id: SocketId)
    | Handle(id: SocketId, message: Message)
    | Lock(bridge: BridgeId)
    | Write(bridge: BridgeId, ok: bool)
    | Close(bridge: BridgeId)
    | Remove(id: SocketId)
    | Dispose
    | DisposeClose

  predicate Enabled(s: State, e: Event) {
    match e
    case Lock(b) => b in s.writers && s.writers[b].items == [] && !s.writers[b].closing
    case Write(b, _) => b in s.writers && s.writers[b].items != [] && b in s.outcome
    case Close(b) => b in s.writers && s.writers[b].closing
    case DisposeClose => s.dying != []
    case Handle(id, _) => Find(Records(s), id) < |Records(s)| ==> Records(s)[Find(Records(s), id)].origin in s.accepted
    case _ => true
  }

  function Step(s: State, e: Event): State
    requires Enabled(s, e)
  {
    match e
    case Attach(id) => DoAttach(s, id)
    case Handle(id, message) => DoHandle(s, id, message)
    case Lock(b) => DoLock(s, b)
    case Write(b, ok) => DoWrite(s, b, ok)
    case Close(b) => s.(closed := s.closed + [b], writers := s.writers - {b})
    case Remove(id) => DoRemove(s, id)
    case Dispose => s.(list := None, dying := s.dying + Idle(Records(s)))
    case DisposeClose => s.(closed := s.closed + [s.dying[0]], dying := s.dying[1..])
  }

  function DoAttach(s: State, id: SocketId): State {
    s.(list := Some(Records(s) + [Record(id, Some(s.next), [], s.next)]),
       next := s.next + 1,
       accepted := s.accepted[s.next := []],
       outcome := s.outcome[s.next := []])
  }

  // A message for an unknown id is refused.  Otherwise it is queued, and a writer
  // starts if the record still holds its bridge.
  function DoHandle(s: State, id: SocketId, message: Message): State
    requires Find(Records(s), id) < |Records(s)| ==> Records(s)[Find(Records(s), id)].origin in s.accepted
  {
    var recs, i := Records(s), Find(Records(s), id);
    if i == |recs| then s
    else
      var r := recs[i];
      s.(list := Some(recs[i := r.(queue := r.queue + [message], bridge := None)]),
         accepted := s.accepted[r.origin := s.accepted[r.origin] + [message]],
         writers := if r.bridge.Some? then s.writers[r.bridge.value := Writer(id, [], false)] else s.writers)
  }

  // The top of the write loop: gives the bridge back, takes the next batch, or
  // finds its record gone.  A bridge that the record still holds is dropped.
  function DoLock(s: State, b: BridgeId): State
    requires b in s.writers
  {
    var w, recs := s.writers[b], Records(s);
    var i := Find(recs, w.id);
    if i == |recs| then
      s.(writers := s.writers[b := w.(closing := true)])
    else if recs[i].queue == [] then
      s.(list := Some(recs[i := recs[i].(bridge := Some(b))]), writers := s.writers - {b},
         dropped := s.dropped + if recs[i].bridge.Some? then {recs[i].bridge.value} else {})
    else
      s.(list := Some(recs[i := recs[i].(queue := w.items)]), writers := s.writers[b := w.(items := recs[i].queue)])
  }

  // One write.  A failed write drops the rest of the batch.
  function DoWrite(s: State, b: BridgeId, ok: bool): State
    requires b in s.writers && s.writers[b].items != [] && b in s.outcome
  {
    var w := s.writers[b];
    if ok then
      s.(outcome := s.outcome[b := s.outcome[b] + [Sent(w.items[0])]],
         writers := s.writers[b := w.(items := w.items[1..])])
    else
      s.(outcome := s.outcome[b := s.outcome[b] + AllLost(w.items)],
         writers := s.writers[b := w.(items := [])])
  }

  // The client closed its side: the records with this id go, with the bridges they hold.
  function DoRemove(s: State, id: SocketId): State {
    if s.list.None? then s
    else
      s.(list := Some(Retained(s.list.value, id)),
         dropped := s.dropped + (set b | b in Idle(Removed(s.list.value, id))))
  }

  // No record and no write loop that still looks for its record uses the id.
  predicate Unused(s: State, id: SocketId) {
    && (forall r :: r in Records(s) ==> r.id != id)
    && (forall b :: b in s.writers && !s.writers[b].closing ==> s.writers[b].id != id)
  }

  // Any run: the steps of the tasks interleave, and ids are attached at any time.
  ghost predicate IsFreeRun(run: seq<State>) {
    && |run| > 0 && run[0] == INIT
    && forall i {:trigger run[i]} :: 0 < i < |run| ==> Happens(run[i - 1], run[i])
  }

  ghost predicate Happens(s: State, t: State) {
    exists e :: Enabled(s, e) && t == Step(s, e)
  }

  // Runs in which an id is attached again only when nothing uses it any more.
  ghost predicate IsRun(run: seq<State>) {
    && |run| > 0 && run[0] == INIT
    && forall i {:trigger run[i]} :: 0 < i < |run| ==> Follows(run[i - 1], run[i])
  }

  ghost predicate Follows(s: State, t: State) {
    exists e :: Enabled(s, e) && (e.Attach? ==> Unused(s, e.id)) && t == Step(s, e)
  }
}
