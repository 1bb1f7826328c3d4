/** What becomes of a batch of messages that a writer has taken from the queue. */
module BridgeBatches {
  import opened Bridges
  import opened BridgeInvariant
  import opened BridgeRuns
  import opened Wrappers

  /* ---- One step of the write loop ---- */

  // A write that succeeds sends the first message of the batch; one that fails loses
  // the whole batch, and the writer holds nothing any more.
  lemma WriteOutcome(s: State, b: BridgeId, ok: bool)
    requires Enabled(s, Write(b, ok))
    ensures var t, batch := Step(s, Write(b, ok)), s.writers[b].items;
      && b in t.writers && b in t.outcome && s.outcome[b] <= t.outcome[b]
      && t.writers[b].items == (if ok then batch[1..] else [])
      && |t.outcome[b]| == |s.outcome[b]| + (if ok then 1 else |batch|)
      && forall k :: |s.outcome[b]| <= k < |t.outcome[b]| ==>
           t.outcome[b][k] == if ok then Sent(batch[k - |s.outcome[b]|]) else Lost(batch[k - |s.outcome[b]|])
  {
    if !ok {
      LostItems(s.writers[b].items);
    }
  }

  lemma {:induction false} LostItems(items: seq<Message>)
    ensures |AllLost(items)| == |items|
    ensures forall k :: 0 <= k < |items| ==> AllLost(items)[k] == Lost(items[k])
  {
    if items != [] {
      LostItems(items[1..]);
    }
  }

  /* ---- The fate of a batch ---- */

  // Behind the outcomes `before`, the batch is being written: what has been handled
  // was sent, and the writer holds the rest; or all of it has been handled, and
  // nothing behind a lost message was sent.
  ghost predicate Fate(s: State, b: BridgeId, before: seq<Outcome>, batch: seq<Message>) {
    && b in s.outcome && b < s.next && before <= s.outcome[b]
    && var done := s.outcome[b][|before|..];
       (|done| < |batch| && AllSentSoFar(done, batch) && b in s.writers && s.writers[b].items == batch[|done|..])
       || (|done| >= |batch| && Broken(done, batch))
  }

  ghost predicate AllSentSoFar(done: seq<Outcome>, batch: seq<Message>)
    requires |done| <= |batch|
  {
    forall k :: 0 <= k < |done| ==> done[k] == Sent(batch[k])
  }

  // In order, and nothing is sent behind a lost message.
  ghost predicate Broken(done: seq<Outcome>, batch: seq<Message>)
    requires |done| >= |batch|
  {
    && (forall k :: 0 <= k < |batch| ==> done[k].message == batch[k])
    && (forall k, l :: 0 <= k < l < |batch| && done[k].Lost? ==> done[l].Lost?)
  }

  lemma FateWrite(s: State, b: BridgeId, ok: bool, before: seq<Outcome>, batch: seq<Message>)
    requires Booked(s) && Enabled(s, Write(b, ok)) && Fate(s, b, before, batch)
    ensures Fate(Step(s, Write(b, ok)), b, before, batch)
  {
    var t := Step(s, Write(b, ok));
    var done, more := s.outcome[b][|before|..], t.outcome[b][|before|..];
    WriteOutcome(s, b, ok);
    assert forall k :: 0 <= k < |more| ==> more[k] == t.outcome[b][|before| + k];
    assert forall k :: 0 <= k < |done| ==> more[k] == done[k];
  }

  // Nobody else touches the outcomes of b, or the batch that its writer holds.
  lemma FateStep(s: State, e: Event, b: BridgeId, before: seq<Outcome>, batch: seq<Message>)
    requires Booked(s) && Enabled(s, e) && Fate(s, b, before, batch)
    ensures Fate(Step(s, e), b, before, batch)
  {
    var t := Step(s, e);
    match e
    case Write(c, ok) =>
      if c == b {
        FateWrite(s, b, ok, before, batch);
      }
    case Handle(id, m) =>
      var i := Find(Records(s), id);
      if i < |Records(s)| && Records(s)[i].bridge.Some? {
        HeldOnce(s, i);
      }
    case _ =>
  }

  lemma {:induction false} FateRun(s: State, events: seq<Event>, b: BridgeId, before: seq<Outcome>, batch: seq<Message>)
    requires Booked(s) && CanRun(s, events) && Fate(s, b, before, batch)
    ensures Fate(RunAll(s, events), b, before, batch)
    decreases |events|
  {
    if events != [] {
      StepBooked(s, events[0]);
      FateStep(s, events[0], b, before, batch);
      FateRun(Step(s, events[0]), events[1..], b, before, batch);
    }
  }

  // Whatever happens after a writer has taken a batch, whatever ids are attached: the
  // messages of the batch are handled in order, and no message behind a lost one is sent.
  lemma BatchFate(s: State, t: State, b: BridgeId, events: seq<Event>)
    requires Occurs(s) && Enabled(s, Lock(b)) && t == Step(s, Lock(b))
    requires b in t.writers && t.writers[b].items != [] && CanRun(t, events)
    ensures b in s.outcome && b in RunAll(t, events).outcome
    ensures var batch, base, out := t.writers[b].items, |s.outcome[b]|, RunAll(t, events).outcome[b];
      && s.outcome[b] <= out
      && (forall k :: base <= k < |out| && k < base + |batch| ==> out[k].message == batch[k - base])
      && (forall k, l :: base <= k < l < |out| && l < base + |batch| && out[k].Lost? ==> out[l].Lost?)
  {
    BatchTaken(s, t, b);
    FateRun(t, events, b, s.outcome[b], t.writers[b].items);
    FateFrom(RunAll(t, events), b, s.outcome[b], t.writers[b].items);
  }

  lemma BatchTaken(s: State, t: State, b: BridgeId)
    requires Occurs(s) && Enabled(s, Lock(b)) && t == Step(s, Lock(b))
    requires b in t.writers && t.writers[b].items != []
    ensures Booked(t) && b in s.outcome && Fate(t, b, s.outcome[b], t.writers[b].items)
  {
    OccursBooked(s);
    StepBooked(s, Lock(b));
    assert Places(t, b) > 0;
    SameOutcomes(s, b);
    assert t.outcome[b][|s.outcome[b]|..] == [];
  }

  lemma SameOutcomes(s: State, b: BridgeId)
    requires Enabled(s, Lock(b))
    ensures Step(s, Lock(b)).outcome == s.outcome && Step(s, Lock(b)).next == s.next
  {
  }

  lemma FateFrom(s: State, b: BridgeId, before: seq<Outcome>, batch: seq<Message>)
    requires Fate(s, b, before, batch)
    ensures var base, out := |before|, s.outcome[b];
      && (forall k :: base <= k < |out| && k < base + |batch| ==> out[k].message == batch[k - base])
      && (forall k, l :: base <= k < l < |out| && l < base + |batch| && out[k].Lost? ==> out[l].Lost?)
  {
    var out := s.outcome[b];
    var done := out[|before|..];
    assert forall k :: |before| <= k < |out| ==> out[k] == done[k - |before|];
  }
}
