/** Credentials in the system keyring, split over entries of limited length. */
module Keyring {
  import opened Wrappers

  const CONTINUE_MARKER := "<MORE>"

  // KEYCHAIN_ENTRY_LIMIT, which depends on the operating system.
  function EntryLimit(windows: bool): nat {
    if windows then 1024 else 128 * 1024
  }

  // The passwords of the entries vscode-cli-0, vscode-cli-1, ...
  type Ring = map<nat, string>

  predicate EndsWith(s: string, suffix: string) {
    |suffix| <= |s| && s[|s| - |suffix|..] == suffix
  }

  predicate Continues(chunk: string) {
    EndsWith(chunk, CONTINUE_MARKER)
  }

  function Content(chunk: string): string
    requires Continues(chunk)
  {
    chunk[..|chunk| - |CONTINUE_MARKER|]
  }

  /* ---- What reading and storing do to the keyring ---- */

  function From(ring: Ring, k: nat): set<nat> {
    set i | i in ring && i >= k
  }

  // Reads entries from k on, as long as they end in the marker.
  function Read(ring: Ring, k: nat): Option<string>
    decreases From(ring, k)
  {
    if k !in ring then None
    else if Continues(ring[k]) then
      assert k in From(ring, k) && k !in From(ring, k + 1);
      Prepend(Content(ring[k]), Read(ring, k + 1))
    else Some(ring[k])
  }

  // How many entries reading from k looks at, a missing one at the end included.
  function Visited(ring: Ring, k: nat): nat
    decreases From(ring, k)
  {
    if k in ring && Continues(ring[k]) then
      assert k in From(ring, k) && k !in From(ring, k + 1);
      1 + Visited(ring, k + 1)
    else 1
  }

  function Max(a: nat, b: nat): nat {
    if a < b then b else a
  }

  // Entry k is among the first n, and all entries up to it are there.
  ghost predicate Gone(ring: Ring, n: nat, k: nat) {
    k < n && forall j :: 0 <= j <= k ==> j in ring
  }

  function Prepend(s: string, r: Option<string>): Option<string> {
    if r.Some? then Some(s + r.value) else None
  }

  // Stores s from entry k on; whatever lies behind stays.
  function Store(ring: Ring, s: string, k: nat, step: nat): Ring
    requires step > 0
    decreases |s|
  {
    if s == "" then ring
    else if step <= |s| then Store(ring[k := s[..step] + CONTINUE_MARKER], s[step..], k + 1, step)
    else ring[k := s]
  }

  class KeyringStorage {
    const limit: nat
    var entries: seq<nat>  // the entries for which there is a handle
    var ring: Ring         // the system keyring

    ghost predicate Valid()
      reads this
    {
      limit > |CONTINUE_MARKER| && forall i :: 0 <= i < |entries| ==> entries[i] == i
    }

    constructor (windows: bool, ring: Ring)
      ensures Valid() && limit == (if windows then 1024 else 131072) && this.ring == ring && entries == []
    {
      limit := EntryLimit(windows);
      this.ring := ring;
      entries := [];
    }

    method NextEntry(i: nat) returns (entry: nat)
      requires Valid() && i <= |entries|
      modifies this`entries
      ensures Valid() && entry == i && |entries| == if i < |old(entries)| then |old(entries)| else i + 1
    {
      if i == |entries| {
        entries := entries + [i];
      }
      entry := entries[i];
    }

    method ReadAll() returns (sealed: Option<string>)
      requires Valid()
      modifies this`entries
      ensures Valid() && sealed == Read(ring, 0)
      ensures |entries| == Max(|old(entries)|, Visited(ring, 0)) && |entries| > 0
      ensures sealed.Some? ==> (forall i :: |old(entries)| <= i < |entries| ==> i in ring) && 0 in ring
      ensures sealed.None? ==> exists i :: 0 <= i < |entries| && i !in ring
    {
      var str := "";
      var i := 0;
      assert Read(ring, 0).Some? ==> "" + Read(ring, 0).value == Read(ring, 0).value;
      while true
        invariant Valid() && i <= |entries| && |entries| == (if i < |old(entries)| then |old(entries)| else i)
        invariant forall j :: 0 <= j < i ==> j in ring
        invariant Read(ring, 0) == Prepend(str, Read(ring, i)) && Visited(ring, 0) == i + Visited(ring, i)
        decreases From(ring, i)
      {
        var entry := NextEntry(i);
        if entry !in ring {
          return None;
        }
        var chunk := ring[entry];
        if Continues(chunk) {
          if Read(ring, i + 1).Some? {
            assert str + (Content(chunk) + Read(ring, i + 1).value) == str + Content(chunk) + Read(ring, i + 1).value;
          }
          assert i in From(ring, i) && i !in From(ring, i + 1);
          str := str + Content(chunk);
        } else {
          return Some(str + chunk);
        }
        i := i + 1;
      }
    }

    method StoreAll(sealed: string)
      requires Valid()
      modifies this
      ensures Valid() && ring == Store(old(ring), sealed, 0, limit - |CONTINUE_MARKER|)
    {
      var step := limit - |CONTINUE_MARKER|;
      var i, k := 0, 0;  // k is i / step
      while i < |sealed|
        invariant Valid() && i == k * step && k <= |entries|
        invariant i <= |sealed| ==> Store(ring, sealed[i..], k, step) == Store(old(ring), sealed, 0, step)
        invariant i > |sealed| ==> ring == Store(old(ring), sealed, 0, step)
        decreases |sealed| - i
      {
        var entry := NextEntry(k);
        var cutoff := i + step;
        assert sealed[i..] != "";
        if cutoff <= |sealed| {
          assert sealed[i..][..step] == sealed[i..cutoff] && sealed[i..][step..] == sealed[cutoff..];
          ring := ring[entry := sealed[i..cutoff] + CONTINUE_MARKER];
        } else {
          ring := ring[entry := sealed[i..]];
        }
        i, k := cutoff, k + 1;
      }
      assert i == |sealed| ==> sealed[i..] == "";
    }

    // Deletes every entry there is a handle for.  A missing entry is an error.
    method Clear() returns (ok: bool)
      requires Valid()
      modifies this
      ensures Valid()
      ensures forall k :: k in ring ==> k in old(ring) && ring[k] == old(ring)[k]
      ensures ok ==> entries == [] && Read(ring, 0) == None
      ensures old(entries) == [] ==> (ok <==> Read(old(ring), 0).Some?)
      ensures ok <==> forall k :: 0 <= k < Max(|old(entries)|, Visited(old(ring), 0)) ==> k in old(ring)
      ensures forall k :: k in ring <==> k in old(ring) && !Gone(old(ring), Max(|old(entries)|, Visited(old(ring), 0)), k)
    {
      var _ := ReadAll();
      ghost var handles := entries;
      for i := 0 to |entries|
        invariant Valid() && entries == handles
        invariant ring == map k | k in old(ring) && k >= i :: old(ring)[k]
        invariant forall j :: 0 <= j < i ==> j in old(ring)
      {
        if entries[i] !in ring {
          return false;
        }
        ring := ring - {entries[i]};
      }
      entries := [];
      return true;
    }
  }

  /* ---- When storing and reading is the identity ---- */

  // What does not fill an entry.
  function LastChunk(s: string, step: nat): string
    requires step > 0
    decreases |s|
  {
    if step <= |s| then LastChunk(s[step..], step) else s
  }

  function Full(s: string, step: nat): nat
    requires step > 0
    decreases |s|
  {
    if step <= |s| then 1 + Full(s[step..], step) else 0
  }

  predicate Clean(s: string, step: nat)
    requires step > 0
  {
    |s| % step != 0 && !Continues(LastChunk(s, step))
  }

  lemma ModStep(a: nat, step: nat)
    requires step > 0 && a >= step
    ensures (a - step) % step == a % step
  {
    var q, r := a / step, a % step;
    var p, t := (a - step) / step, (a - step) % step;
    assert a == q * step + r && a - step == p * step + t;
    SmallMultiple(q - 1 - p, step, t - r);
  }

  lemma AtLeast(x: int, step: nat)
    requires x >= 1
    ensures x * step >= step
  {
    assert (x - 1) * step >= 0;
  }

  lemma SmallMultiple(x: int, step: nat, d: int)
    requires x * step == d && 0 - step < d < step
    ensures d == 0
  {
    if x > 0 {
      AtLeast(x, step);
    } else if x < 0 {
      AtLeast(0 - x, step);
    }
  }

  lemma {:induction false} LastChunkLength(s: string, step: nat)
    requires step > 0
    ensures |LastChunk(s, step)| == |s| % step
    decreases |s|
  {
    if step <= |s| {
      LastChunkLength(s[step..], step);
      ModStep(|s|, step);
    }
  }

  // How many entries s takes.
  function Entries(s: string, step: nat): nat
    requires step > 0
  {
    Full(s, step) + (if LastChunk(s, step) == "" then 0 else 1)
  }

  // Entries before k and behind the stored ones are left alone; the others fit the limit.
  lemma {:induction false} StoreAt(ring: Ring, s: string, k: nat, step: nat, i: nat)
    requires step > 0
    ensures var after := Store(ring, s, k, step);
            if k <= i < k + Entries(s, step) then i in after && |after[i]| <= step + |CONTINUE_MARKER|
            else (i in after <==> i in ring) && (i in ring ==> after[i] == ring[i])
    decreases |s|
  {
    if step <= |s| {
      StoreAt(ring[k := s[..step] + CONTINUE_MARKER], s[step..], k + 1, step, i);
    }
  }

  lemma {:induction false} ReadFrame(ring: Ring, after: Ring, k: nat)
    requires forall i :: i >= k ==> (i in after <==> i in ring) && (i in ring ==> after[i] == ring[i])
    ensures Read(after, k) == Read(ring, k)
    decreases From(ring, k)
  {
    if k in ring {
      assert k in From(ring, k) && k !in From(ring, k + 1);
      ReadFrame(ring, after, k + 1);
    }
  }

  // What reading gives after storing, in every case: a last chunk that is missing
  // or ends in the marker makes it run on into the old entries.
  function Reread(ring: Ring, s: string, k: nat, step: nat): Option<string>
    requires step > 0
    decreases |s|
  {
    if step <= |s| then Prepend(s[..step], Reread(ring, s[step..], k + 1, step))
    else if s == "" then Read(ring, k)
    else if Continues(s) then Prepend(Content(s), Read(ring, k + 1))
    else Some(s)
  }

  lemma MarkedChunk(s: string)
    ensures Continues(s + CONTINUE_MARKER) && Content(s + CONTINUE_MARKER) == s
  {
  }

  lemma {:induction false} ReadStored(ring: Ring, s: string, k: nat, step: nat)
    requires step > 0
    ensures Read(Store(ring, s, k, step), k) == Reread(ring, s, k, step)
    decreases |s|
  {
    var after := Store(ring, s, k, step);
    if step <= |s| {
      var chunk := s[..step] + CONTINUE_MARKER;
      var next := ring[k := chunk];
      MarkedChunk(s[..step]);
      StoreAt(next, s[step..], k + 1, step, k);
      assert after == Store(next, s[step..], k + 1, step) && k in after && after[k] == chunk;
      ReadStored(next, s[step..], k + 1, step);
      RereadFrame(ring, next, s[step..], k + 1, step);
    } else {
      ReadFrame(ring, after, k + 1);
    }
  }

  lemma {:induction false} RereadFrame(ring: Ring, after: Ring, s: string, k: nat, step: nat)
    requires step > 0
    requires forall i :: i >= k ==> (i in after <==> i in ring) && (i in ring ==> after[i] == ring[i])
    ensures Reread(after, s, k, step) == Reread(ring, s, k, step)
    decreases |s|
  {
    ReadFrame(ring, after, k);
    ReadFrame(ring, after, k + 1);
    if step <= |s| {
      RereadFrame(ring, after, s[step..], k + 1, step);
    }
  }

  // Storing and reading gives s back exactly when s is clean, or when the old
  // entries happen to hold just what is missing.
  ghost predicate Lucky(ring: Ring, s: string, k: nat, step: nat)
    requires step > 0
  {
    var last, n := LastChunk(s, step), k + Full(s, step);
    if last == "" then Read(ring, n) == Some("")
    else Continues(last) && Read(ring, n + 1) == Some(CONTINUE_MARKER)
  }

  lemma {:induction false} RereadExactly(ring: Ring, s: string, k: nat, step: nat)
    requires step > 0
    ensures Reread(ring, s, k, step) == Some(s) <==>
            (LastChunk(s, step) != "" && !Continues(LastChunk(s, step))) || Lucky(ring, s, k, step)
    decreases |s|
  {
    if step <= |s| {
      RereadExactly(ring, s[step..], k + 1, step);
      assert s == s[..step] + s[step..];
      if Reread(ring, s[step..], k + 1, step).Some? {
        PrependExactly(s[..step], s[step..], Reread(ring, s[step..], k + 1, step).value);
      }
    } else if s != "" && Continues(s) {
      assert s == Content(s) + CONTINUE_MARKER;
      if Read(ring, k + 1).Some? {
        PrependExactly(Content(s), CONTINUE_MARKER, Read(ring, k + 1).value);
      }
    }
  }

  lemma PrependExactly(p: string, a: string, b: string)
    ensures p + b == p + a <==> a == b
  {
    assert p + b == p + a ==> (p + b)[|p|..] == (p + a)[|p|..];
  }

  lemma RoundTripFor(ring: Ring, s: string, step: nat)
    requires step > 0
    ensures Read(Store(ring, s, 0, step), 0) == Some(s) <==> Clean(s, step) || Lucky(ring, s, 0, step)
  {
    ReadStored(ring, s, 0, step);
    RereadExactly(ring, s, 0, step);
    LastChunkLength(s, step);
  }

  // Whatever the keyring held before, exactly the clean credentials come back.
  lemma RoundTripExactly(s: string, step: nat)
    requires step > 0
    ensures (forall ring: Ring :: Read(Store(ring, s, 0, step), 0) == Some(s)) <==> Clean(s, step)
  {
    var none: Ring := map[];
    RoundTripFor(none, s, step);
    assert !Lucky(none, s, 0, step);
    if Clean(s, step) {
      forall ring: Ring
        ensures Read(Store(ring, s, 0, step), 0) == Some(s)
      {
        RoundTripFor(ring, s, step);
      }
    }
    if forall ring: Ring :: Read(Store(ring, s, 0, step), 0) == Some(s) {
      assert Read(Store(none, s, 0, step), 0) == Some(s);
    }
  }

  // No stored entry is longer than the limit.
  lemma EntriesFit(ring: Ring, s: string, limit: nat, i: nat)
    requires limit > |CONTINUE_MARKER|
    requires i in Store(ring, s, 0, limit - |CONTINUE_MARKER|)
    requires i in ring ==> |ring[i]| <= limit
    ensures |Store(ring, s, 0, limit - |CONTINUE_MARKER|)[i]| <= limit
  {
    StoreAt(ring, s, 0, limit - |CONTINUE_MARKER|, i);
  }

  /* ---- What lies in the keyring ---- */

  // Where the i-th piece starts.
  function Start(i: nat, step: nat): nat {
    if i == 0 then 0 else step + Start(i - 1, step)
  }

  lemma {:induction false} StartTimes(i: nat, step: nat)
    ensures Start(i, step) == i * step
  {
    if i > 0 {
      StartTimes(i - 1, step);
    }
  }

  // The piece of s from place a on: step characters and the marker, or the rest.
  function PieceAt(s: string, a: nat, step: nat): string
    requires a <= |s|
  {
    if a + step <= |s| then s[a..a + step] + "<MORE>" else s[a..]
  }

  lemma PieceBehind(s: string, a: nat, step: nat)
    requires step <= a <= |s|
    ensures PieceAt(s[step..], a - step, step) == PieceAt(s, a, step)
  {
    if a + step <= |s| {
      assert s[step..][a - step..a] == s[a..a + step];
    } else {
      assert s[step..][a - step..] == s[a..];
    }
  }

  predicate Holds(ring: Ring, k: nat, piece: string) {
    k in ring && ring[k] == piece
  }

  lemma {:induction false} PieceStored(ring: Ring, s: string, k: nat, step: nat, i: nat)
    requires step > 0 && Start(i, step) < |s|
    ensures Holds(Store(ring, s, k, step), k + i, PieceAt(s, Start(i, step), step))
    decreases i
  {
    if step > |s| {
      assert i == 0 && s[0..] == s;
    } else {
      var next, rest := ring[k := s[..step] + CONTINUE_MARKER], s[step..];
      assert Store(ring, s, k, step) == Store(next, rest, k + 1, step);
      if i == 0 {
        assert s[0..step] == s[..step];
        StoreAt(next, rest, k + 1, step, k);
      } else {
        PieceStored(next, rest, k + 1, step, i - 1);
        PieceBehind(s, Start(i, step), step);
      }
    }
  }

  // Entry k + i holds the i-th piece of the credential.
  lemma StoredPiece(ring: Ring, s: string, k: nat, step: nat, i: nat)
    requires step > 0 && i * step < |s|
    ensures k + i in Store(ring, s, k, step)
    ensures Store(ring, s, k, step)[k + i] == PieceAt(s, i * step, step)
  {
    StartTimes(i, step);
    PieceStored(ring, s, k, step, i);
  }

  // Reading looks at exactly the entries that a clean credential takes, so clearing
  // with no other handles deletes exactly these.
  lemma {:induction false} StoredVisited(ring: Ring, s: string, k: nat, step: nat)
    requires step > 0 && LastChunk(s, step) != "" && !Continues(LastChunk(s, step))
    ensures Visited(Store(ring, s, k, step), k) == Entries(s, step)
    decreases |s|
  {
    if step <= |s| {
      var chunk := s[..step] + CONTINUE_MARKER;
      var next := ring[k := chunk];
      MarkedChunk(s[..step]);
      StoreAt(next, s[step..], k + 1, step, k);
      StoredVisited(next, s[step..], k + 1, step);
    }
  }
}
