/** Normalising and resolving module ids, as the AMD loader does. */
module ModuleIds {
  import opened Paths

  /* ---- The normal form ---- */

  predicate IsName(piece: string) {
    piece != "./" && piece != "../" && piece != "/"
  }

  // "../" takes back a name; after "../", after an empty segment and at the start it stays.
  function Absorb(pieces: seq<string>, piece: string): seq<string> {
    if piece == "./" then pieces
    else if piece == "../" && pieces != [] && IsName(pieces[|pieces| - 1]) then pieces[..|pieces| - 1]
    else pieces + [piece]
  }

  function AbsorbAll(pieces: seq<string>, more: seq<string>): seq<string>
    decreases |more|
  {
    if more == [] then pieces else AbsorbAll(Absorb(pieces, more[0]), more[1..])
  }

  function Normalized(id: string): string {
    Join(AbsorbAll([], Pieces(id)))
  }

  // No "./", and no name before "../".
  ghost predicate IsNormal(pieces: seq<string>) {
    && "./" !in pieces
    && forall i :: 0 < i < |pieces| && pieces[i] == "../" ==> !IsName(pieces[i - 1])
  }

  /* ---- The rewriting ---- */

  // The first segment, if it is neither empty nor "..", followed by "/../".
  predicate Removable(q: string) {
    var n := FirstSlash(q);
    0 < n && q[..n] != ".." && "/../" <= q[n..]
  }

  function AfterParent(q: string): (r: string)
    requires Removable(q)
    ensures |r| + 4 < |q|
  {
    q[FirstSlash(q) + 4..]
  }

  // The regular expressions /./ and /aa/../ match at i.
  predicate DotAt(r: string, i: nat) {
    i < |r| && r[i] == '/' && "./" <= r[i + 1..]
  }

  predicate ParentAt(r: string, i: nat) {
    i < |r| && r[i] == '/' && Removable(r[i + 1..])
  }

  method FindDot(r: string) returns (i: nat)
    ensures i <= |r| && (forall j :: 0 <= j < i ==> !DotAt(r, j)) && (i < |r| ==> DotAt(r, i))
  {
    i := 0;
    while i < |r| && !DotAt(r, i)
      invariant i <= |r| && forall j :: 0 <= j < i ==> !DotAt(r, j)
    {
      i := i + 1;
    }
  }

  method FindParent(r: string) returns (i: nat)
    ensures i <= |r| && (forall j :: 0 <= j < i ==> !ParentAt(r, j)) && (i < |r| ==> ParentAt(r, i))
  {
    i := 0;
    while i < |r| && !ParentAt(r, i)
      invariant i <= |r| && forall j :: 0 <= j < i ==> !ParentAt(r, j)
    {
      i := i + 1;
    }
  }

  method NormalizeModuleId(moduleId: string) returns (r: string)
    ensures r == Normalized(moduleId)
  {
    r := RemoveDots(moduleId);
    r := RemoveParents(r);
    NormalFixed(Pieces(r));
    JoinPieces(r);
  }

  method RemoveDots(moduleId: string) returns (r: string)
    ensures Normalized(r) == Normalized(moduleId) && "./" !in Pieces(r)
  {
    r := moduleId;
    // "/./" becomes "/", as long as there is one
    var i: nat := FindDot(r);
    while i < |r|
      invariant Normalized(r) == Normalized(moduleId)
      invariant i <= |r| && (forall j :: 0 <= j < i ==> !DotAt(r, j)) && (i < |r| ==> DotAt(r, i))
      decreases |r|
    {
      DotRewrite(r, i);
      r := r[..i + 1] + r[i + 3..];
      i := FindDot(r);
    }
    // one leading "./" goes
    NoDots(r);
    if "./" <= r {
      LeadingDot(r);
      r := r[2..];
    } else {
      NoLeadingDot(r);
    }
  }

  method RemoveParents(id: string) returns (r: string)
    requires "./" !in Pieces(id)
    ensures Normalized(r) == Normalized(id) && IsNormal(Pieces(r))
  {
    r := id;
    // a name and the "../" behind it go, as long as there are such
    var i: nat := FindParent(r);
    while i < |r|
      invariant Normalized(r) == Normalized(id) && "./" !in Pieces(r)
      invariant i <= |r| && (forall j :: 0 <= j < i ==> !ParentAt(r, j)) && (i < |r| ==> ParentAt(r, i))
      decreases |r|
    {
      ParentRewrite(r, i);
      r := r[..i + 1] + AfterParent(r[i + 1..]);
      i := FindParent(r);
    }
    // and so does one leading name with the "../" behind it
    NoParents(r);
    if Removable(r) {
      LeadingParent(r);
      r := AfterParent(r);
    } else {
      NoLeadingParent(r);
    }
  }

  /* ---- The rewrites on lists of pieces ---- */

  lemma {:induction false} AbsorbAppend(pieces: seq<string>, p: seq<string>, q: seq<string>)
    ensures AbsorbAll(pieces, p + q) == AbsorbAll(AbsorbAll(pieces, p), q)
    decreases |p|
  {
    if p == [] {
      assert p + q == q;
    } else {
      assert (p + q)[1..] == p[1..] + q;
      AbsorbAppend(Absorb(pieces, p[0]), p[1..], q);
    }
  }

  // A slash at i cuts the pieces in two.
  lemma CutAt(r: string, i: nat)
    requires i < |r| && r[i] == '/'
    ensures EndsInSlash(r[..i + 1]) && Pieces(r) == Pieces(r[..i + 1]) + Pieces(r[i + 1..])
  {
    var front, back := r[..i + 1], r[i + 1..];
    assert front[|front| - 1] == '/' && EndsInSlash(front);
    assert r == front + back;
    PiecesAppend(front, back);
  }

  // Every piece but the first begins after a slash.
  lemma {:induction false} PieceAt(r: string, k: nat) returns (i: nat)
    requires 0 < k < |Pieces(r)|
    ensures i < |r| && r[i] == '/' && Pieces(r[i + 1..]) == Pieces(r)[k..]
    decreases k
  {
    var n := FirstSlash(r);
    PiecesFirst(r);
    var rest := r[n + 1..];
    if k == 1 {
      i := n;
    } else {
      var j := PieceAt(rest, k - 1);
      i := n + 1 + j;
      assert r[i + 1..] == rest[j + 1..];
    }
  }

  lemma {:induction false} PathSplit(ps: seq<string>, k: nat)
    requires IsPath(ps) && k < |ps|
    ensures AllFolders(ps[..k]) && IsPath(ps[k..])
  {
    if k > 0 {
      PathSplit(ps[1..], k - 1);
      assert ps[..k] == [ps[0]] + ps[1..][..k - 1];
      assert ps[1..][k - 1..] == ps[k..];
    }
  }

  lemma DotPieces(q: string)
    ensures "./" <= q <==> q != "" && Pieces(q)[0] == "./"
    ensures "./" <= q ==> Pieces(q[2..]) == Pieces(q)[1..]
  {
    if "./" <= q {
      assert q == "./" + q[2..] && IsFolder("./");
      PiecesCons("./", q[2..]);
    } else if q != "" {
      PiecesFirst(q);
    }
  }

  ghost predicate NameThenParent(ps: seq<string>) {
    |ps| >= 2 && IsFolder(ps[0]) && ps[0] != "/" && ps[0] != "../" && ps[1] == "../"
  }

  lemma RemovableThen(q: string)
    requires Removable(q)
    ensures NameThenParent(Pieces(q)) && Pieces(AfterParent(q)) == Pieces(q)[2..]
  {
    var n := FirstSlash(q);
    var p, rest := q[..n + 1], q[n + 4..];
    assert q[n..] == "/../" + q[n..][4..];
    assert q == p + ("../" + rest);
    assert p[..n] == q[..n];
    PiecesCons(p, "../" + rest);
    assert IsFolder("../");
    PiecesCons("../", rest);
  }

  lemma RemovableWhen(q: string)
    requires NameThenParent(Pieces(q))
    ensures Removable(q)
  {
    var n := FirstSlash(q);
    PiecesFirst(q);
    var tail := q[n + 1..];
    DotDotFirst(tail);
    assert q[..n + 1] == q[..n] + "/";
    assert q[n..] == "/" + tail;
  }

  lemma DotDotFirst(q: string)
    requires q != "" && Pieces(q)[0] == "../"
    ensures "../" <= q
  {
    PiecesFirst(q);
  }

  lemma RemovablePieces(q: string)
    ensures Removable(q) <==> NameThenParent(Pieces(q))
    ensures Removable(q) ==> Pieces(AfterParent(q)) == Pieces(q)[2..]
  {
    if Removable(q) {
      RemovableThen(q);
    }
    if NameThenParent(Pieces(q)) {
      RemovableWhen(q);
    }
  }

  lemma DotRewrite(r: string, i: nat)
    requires DotAt(r, i)
    ensures Normalized(r[..i + 1] + r[i + 3..]) == Normalized(r)
  {
    var front, q := r[..i + 1], r[i + 1..];
    CutAt(r, i);
    DotPieces(q);
    assert q[2..] == r[i + 3..];
    PiecesAppend(front, q[2..]);
    AbsorbAppend([], Pieces(front), Pieces(q));
    AbsorbAppend([], Pieces(front), Pieces(q[2..]));
  }

  lemma LeadingDot(r: string)
    requires "./" <= r && "./" !in Pieces(r)[1..]
    ensures Normalized(r[2..]) == Normalized(r) && "./" !in Pieces(r[2..])
  {
    DotPieces(r);
  }

  lemma NoLeadingDot(r: string)
    requires !("./" <= r) && (r == "" || "./" !in Pieces(r)[1..])
    ensures "./" !in Pieces(r)
  {
    DotPieces(r);
    assert r != "" ==> Pieces(r) == [Pieces(r)[0]] + Pieces(r)[1..];
  }

  // Once /./ matches nowhere, only the first piece can be "./".
  lemma NoDots(r: string)
    requires forall j :: 0 <= j < |r| ==> !DotAt(r, j)
    ensures r == "" || "./" !in Pieces(r)[1..]
  {
    if r != "" {
      forall k | 0 < k < |Pieces(r)|
        ensures Pieces(r)[k] != "./"
      {
        var i := PieceAt(r, k);
        assert !DotAt(r, i);
        DotPieces(r[i + 1..]);
      }
    }
  }

  lemma ParentRewrite(r: string, i: nat)
    requires ParentAt(r, i) && "./" !in Pieces(r)
    ensures Normalized(r[..i + 1] + AfterParent(r[i + 1..])) == Normalized(r)
    ensures "./" !in Pieces(r[..i + 1] + AfterParent(r[i + 1..]))
  {
    var front, q := r[..i + 1], r[i + 1..];
    CutAt(r, i);
    RemovablePieces(q);
    PiecesAppend(front, AfterParent(q));
    var stack, ps := AbsorbAll([], Pieces(front)), Pieces(q);
    assert ps[0] in Pieces(r);
    AbsorbPair(stack, ps);
    AbsorbAppend([], Pieces(front), ps);
    AbsorbAppend([], Pieces(front), ps[2..]);
    assert forall p :: p in ps[2..] ==> p in ps;
  }

  lemma AbsorbPair(stack: seq<string>, ps: seq<string>)
    requires |ps| >= 2 && IsName(ps[0]) && ps[1] == "../"
    ensures AbsorbAll(stack, ps) == AbsorbAll(stack, ps[2..])
  {
    var next := Absorb(stack, ps[0]);
    assert next[..|next| - 1] == stack;
    assert ps[1..][1..] == ps[2..];
    assert AbsorbAll(next, ps[1..]) == AbsorbAll(Absorb(next, ps[1]), ps[2..]);
  }

  // Names stand before "../" at most at the start.
  ghost predicate AlmostNormal(ps: seq<string>) {
    && "./" !in ps
    && forall k :: 1 < k < |ps| && ps[k] == "../" ==> !IsName(ps[k - 1])
  }

  lemma TailNormal(ps: seq<string>)
    requires AlmostNormal(ps) && |ps| >= 2
    ensures IsNormal(ps[2..])
  {
    forall i | 0 < i < |ps[2..]| && ps[2..][i] == "../"
      ensures !IsName(ps[2..][i - 1])
    {
      assert ps[i + 2] == "../";
    }
  }

  lemma LeadingParent(r: string)
    requires Removable(r) && AlmostNormal(Pieces(r))
    ensures Normalized(AfterParent(r)) == Normalized(r) && IsNormal(Pieces(AfterParent(r)))
  {
    RemovablePieces(r);
    var ps := Pieces(r);
    assert ps[0] in ps;
    AbsorbPair([], ps);
    TailNormal(ps);
  }

  lemma NoLeadingParent(r: string)
    requires !Removable(r) && AlmostNormal(Pieces(r))
    ensures IsNormal(Pieces(r))
  {
    RemovablePieces(r);
    JoinPieces(r);
  }

  // Once /aa/../ matches nowhere, a name stands before "../" at most at the start.
  lemma NoParents(r: string)
    requires "./" !in Pieces(r) && forall j :: 0 <= j < |r| ==> !ParentAt(r, j)
    ensures AlmostNormal(Pieces(r))
  {
    forall k | 1 < k < |Pieces(r)| && Pieces(r)[k] == "../"
      ensures !IsName(Pieces(r)[k - 1])
    {
      var i := PieceAt(r, k - 1);
      assert !ParentAt(r, i);
      RemovablePieces(r[i + 1..]);
      JoinPieces(r);
      PathSplit(Pieces(r), k);
      assert Pieces(r)[k - 1] in Pieces(r)[..k];
    }
  }

  /* ---- What the normal form is ---- */

  lemma NormalFixed(pieces: seq<string>)
    requires IsNormal(pieces)
    ensures AbsorbAll([], pieces) == pieces
  {
    NormalKept([], pieces);
    assert [] + pieces == pieces;
  }

  lemma {:induction false} NormalKept(done: seq<string>, more: seq<string>)
    requires IsNormal(done + more)
    ensures AbsorbAll(done, more) == done + more
    decreases |more|
  {
    if more == [] {
      assert done + more == done;
    } else {
      var c := done + more;
      assert c[|done|] == more[0] && c[|done|] in c;
      assert done != [] ==> c[|done| - 1] == done[|done| - 1];
      assert done + [more[0]] + more[1..] == c;
      NormalKept(done + [more[0]], more[1..]);
    }
  }

  lemma {:induction false} AbsorbNormal(done: seq<string>, more: seq<string>)
    requires IsNormal(done)
    ensures IsNormal(AbsorbAll(done, more))
    decreases |more|
  {
    if more != [] {
      AbsorbNormal(Absorb(done, more[0]), more[1..]);
    }
  }

  lemma {:induction false} AbsorbPath(done: seq<string>, more: seq<string>)
    requires AllFolders(done) && IsPath(more)
    ensures IsPath(AbsorbAll(done, more))
    decreases |more|
  {
    if more == [] {
      FoldersSlash(done);
    } else if |more| == 1 {
      FoldersSlash(done);
      assert AbsorbAll(done, more) == Absorb(done, more[0]);
      if Absorb(done, more[0]) == done + more {
        FoldersThenPath(done, more);
      } else {
        FoldersSlash(Absorb(done, more[0]));
      }
    } else {
      AbsorbPath(Absorb(done, more[0]), more[1..]);
    }
  }

  // The result is in normal form, and normalising it again changes nothing.
  lemma NormalizedNormal(id: string)
    ensures IsNormal(Pieces(Normalized(id)))
    ensures Normalized(Normalized(id)) == Normalized(id)
  {
    AbsorbNormal([], Pieces(id));
    JoinPieces(id);
    AbsorbPath([], Pieces(id));
    PiecesJoin(AbsorbAll([], Pieces(id)));
    NormalFixed(AbsorbAll([], Pieces(id)));
  }

  lemma {:induction false} NormalRun(pieces: seq<string>, i: nat, j: nat)
    requires IsNormal(pieces) && "/" !in pieces && j <= i < |pieces| && pieces[i] == "../"
    ensures pieces[j] == "../"
    decreases i - j
  {
    if j < i {
      assert pieces[i - 1] in pieces;
      NormalRun(pieces, i - 1, j);
    }
  }

  lemma {:induction false} AbsorbNothingNew(pieces: seq<string>, more: seq<string>, p: string)
    requires p in AbsorbAll(pieces, more)
    ensures p in pieces || p in more
    decreases |more|
  {
    if more != [] {
      AbsorbNothingNew(Absorb(pieces, more[0]), more[1..], p);
    }
  }

  // In the normal form of an id without empty segments, ".." remains only in the leading run.
  lemma LeadingRun(id: string, i: nat, j: nat)
    requires "/" !in Pieces(id)
    requires j <= i < |Pieces(Normalized(id))| && Pieces(Normalized(id))[i] == "../"
    ensures Pieces(Normalized(id))[j] == "../"
  {
    NormalizedNormal(id);
    JoinPieces(id);
    AbsorbPath([], Pieces(id));
    PiecesJoin(AbsorbAll([], Pieces(id)));
    if "/" in Pieces(Normalized(id)) {
      AbsorbNothingNew([], Pieces(id), "/");
    }
    NormalRun(Pieces(Normalized(id)), i, j);
  }

  lemma AbsorbFollow(dir: seq<string>, pieces: seq<string>, piece: string)
    ensures Follow(dir, Absorb(pieces, piece)) == Enter(Follow(dir, pieces), piece)
  {
    if pieces != [] {
      var last := |pieces| - 1;
      assert pieces == pieces[..last] + [pieces[last]];
      FollowAppend(dir, pieces[..last], [pieces[last]]);
    }
    FollowAppend(dir, pieces, [piece]);
  }

  lemma {:induction false} AbsorbAllFollow(dir: seq<string>, pieces: seq<string>, more: seq<string>)
    ensures Follow(dir, AbsorbAll(pieces, more)) == Follow(Follow(dir, pieces), more)
    decreases |more|
  {
    if more != [] {
      AbsorbFollow(dir, pieces, more[0]);
      AbsorbAllFollow(dir, Absorb(pieces, more[0]), more[1..]);
    }
  }

  // Normalising keeps the meaning: from every directory the id leads to the same place.
  lemma NormalizedMeaning(dir: seq<string>, id: string)
    ensures Follow(dir, Pieces(Normalized(id))) == Follow(dir, Pieces(id))
  {
    JoinPieces(id);
    AbsorbPath([], Pieces(id));
    PiecesJoin(AbsorbAll([], Pieces(id)));
    AbsorbAllFollow(dir, [], Pieces(id));
  }

  /* ---- Resolving an id against the module it is written in ---- */

  predicate IsAbsolute(id: string) {
    "http://" <= id || "https://" <= id || "file://" <= id || "/" <= id
  }

  function Resolved(fromModuleId: string, id: string): string {
    if !IsAbsolute(id) && ("./" <= id || "../" <= id) then Normalized(PathOf(fromModuleId) + id) else id
  }

  method ResolveModule(fromModuleId: string, id: string) returns (result: string)
    ensures result == Resolved(fromModuleId, id)
  {
    result := id;
    if !IsAbsolute(result) {
      if "./" <= result || "../" <= result {
        result := NormalizeModuleId(PathOf(fromModuleId) + result);
      }
    }
  }

  // A relative id is followed from the folder of the module it is written in.
  lemma ResolvedMeaning(dir: seq<string>, fromModuleId: string, id: string)
    requires "./" <= id || "../" <= id
    ensures Follow(dir, Pieces(Resolved(fromModuleId, id)))
         == Follow(Follow(dir, Pieces(PathOf(fromModuleId))), Pieces(id))
    ensures IsNormal(Pieces(Resolved(fromModuleId, id)))
  {
    PiecesAppend(PathOf(fromModuleId), id);
    NormalizedMeaning(dir, PathOf(fromModuleId) + id);
    FollowAppend(dir, Pieces(PathOf(fromModuleId)), Pieces(id));
    NormalizedNormal(PathOf(fromModuleId) + id);
  }

  // Resolving changes an id exactly if it is relative and not what it resolves to already:
  // any other id - a bare name, a path, a URL - is returned as it is.
  lemma ResolvedExactly(fromModuleId: string, id: string)
    ensures !("./" <= id) && !("../" <= id) ==> Resolved(fromModuleId, id) == id
    ensures "./" <= id ==> Resolved(fromModuleId, id) != id
    ensures "../" <= id && PathOf(fromModuleId) == "" && IsNormal(Pieces(id)) ==> Resolved(fromModuleId, id) == id
  {
    if "./" <= id {
      ResolvedMeaning([], fromModuleId, id);
      LeadingDotPiece(id);
    }
    if "../" <= id && PathOf(fromModuleId) == "" && IsNormal(Pieces(id)) {
      assert "" + id == id;
      NormalFixed(Pieces(id));
      JoinPieces(id);
    }
  }

  lemma LeadingDotPiece(id: string)
    requires "./" <= id
    ensures "./" in Pieces(id)
  {
    assert IsFolder("./") && id == "./" + id[2..];
    PiecesCons("./", id[2..]);
  }
}
