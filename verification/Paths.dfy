/** Slash-separated paths as lists of pieces; a piece keeps its trailing slash. */
module Paths {

  // Index of the first slash, or the length.
  function FirstSlash(s: string): (i: nat)
    ensures i <= |s| && (forall j :: 0 <= j < i ==> s[j] != '/')
    ensures i < |s| ==> s[i] == '/'
  {
    if s == "" || s[0] == '/' then 0 else 1 + FirstSlash(s[1..])
  }

  // The folder part: everything up to and including the last slash.
  function PathOf(s: string): (p: string)
    ensures p <= s && EndsInSlash(p)
    ensures forall j :: |p| <= j < |s| ==> s[j] != '/'
  {
    if s == "" || s[|s| - 1] == '/' then s else PathOf(s[..|s| - 1])
  }

  // A slash ends a piece; other characters belong to the piece that follows them.
  function Pieces(s: string): (ps: seq<string>)
    ensures s != "" ==> ps != []
  {
    if s == "" then []
    else
      var rest := Pieces(s[1..]);
      if s[0] == '/' || rest == [] then [[s[0]]] + rest else [[s[0]] + rest[0]] + rest[1..]
  }

  function Join(ps: seq<string>): string {
    if ps == [] then "" else ps[0] + Join(ps[1..])
  }

  predicate IsFolder(p: string) {
    |p| > 0 && p[|p| - 1] == '/' && forall j :: 0 <= j < |p| - 1 ==> p[j] != '/'
  }

  predicate IsFile(p: string) {
    |p| > 0 && forall j :: 0 <= j < |p| ==> p[j] != '/'
  }

  // Folders, and possibly a file at the end.
  ghost predicate IsPath(ps: seq<string>) {
    ps == [] || (if |ps| == 1 then IsFolder(ps[0]) || IsFile(ps[0]) else IsFolder(ps[0]) && IsPath(ps[1..]))
  }

  ghost predicate AllFolders(ps: seq<string>) {
    forall p :: p in ps ==> IsFolder(p)
  }

  predicate EndsInSlash(s: string) {
    s == "" || s[|s| - 1] == '/'
  }

  lemma {:induction false} PiecesCons(p: string, rest: string)
    requires IsFolder(p)
    ensures Pieces(p + rest) == [p] + Pieces(rest)
  {
    assert (p + rest)[1..] == p[1..] + rest;
    if |p| > 1 {
      assert forall j :: 0 <= j < |p[1..]| - 1 ==> p[1..][j] == p[j + 1];
      PiecesCons(p[1..], rest);
      assert [p[0]] + p[1..] == p;
    } else {
      assert p[1..] + rest == rest;
      assert [p[0]] == p;
    }
  }

  lemma {:induction false} PiecesFile(p: string)
    requires IsFile(p)
    ensures Pieces(p) == [p]
  {
    if |p| > 1 {
      assert forall j :: 0 <= j < |p[1..]| ==> p[1..][j] == p[j + 1];
      PiecesFile(p[1..]);
      assert [p[0]] + p[1..] == p;
    } else {
      assert p == [p[0]] && p[1..] == "";
    }
  }

  // Reading off the first piece.
  lemma {:induction false} PiecesFirst(s: string)
    requires s != ""
    ensures var i := FirstSlash(s);
            if i < |s| then Pieces(s) == [s[..i + 1]] + Pieces(s[i + 1..]) else Pieces(s) == [s]
  {
    var i, t := FirstSlash(s), s[1..];
    if s[0] == '/' {
      assert s[..1] == [s[0]];
    } else if t == "" {
      assert s == [s[0]];
    } else {
      PiecesFirst(t);
      assert i == 1 + FirstSlash(t);
      if i < |s| {
        assert s[..i + 1] == [s[0]] + t[..i];
        assert t[i..] == s[i + 1..];
      } else {
        assert s == [s[0]] + t;
      }
    }
  }

  lemma JoinFirst(p: string, rest: string)
    requires IsFolder(p) && Join(Pieces(rest)) == rest && IsPath(Pieces(rest))
    ensures Join([p] + Pieces(rest)) == p + rest && IsPath([p] + Pieces(rest))
  {
    assert ([p] + Pieces(rest))[1..] == Pieces(rest);
  }

  lemma {:induction false} JoinPieces(s: string)
    ensures Join(Pieces(s)) == s && IsPath(Pieces(s))
    decreases |s|
  {
    if s != "" {
      var i := FirstSlash(s);
      PiecesFirst(s);
      if i < |s| {
        JoinPieces(s[i + 1..]);
        JoinFirst(s[..i + 1], s[i + 1..]);
      } else {
        assert [s][1..] == [] && s + "" == s;
      }
    }
  }

  lemma {:induction false} PiecesJoin(ps: seq<string>)
    requires IsPath(ps)
    ensures Pieces(Join(ps)) == ps
  {
    if |ps| == 1 && IsFile(ps[0]) {
      assert ps[1..] == [] && ps[0] + "" == ps[0];
      PiecesFile(ps[0]);
    } else if ps != [] {
      PiecesJoin(ps[1..]);
      PiecesCons(ps[0], Join(ps[1..]));
    }
  }

  lemma {:induction false} JoinAppend(ps: seq<string>, qs: seq<string>)
    ensures Join(ps + qs) == Join(ps) + Join(qs)
  {
    if ps == [] {
      assert ps + qs == qs;
    } else {
      assert (ps + qs)[1..] == ps[1..] + qs;
      JoinAppend(ps[1..], qs);
    }
  }

  lemma {:induction false} FoldersThenPath(ps: seq<string>, qs: seq<string>)
    requires AllFolders(ps) && IsPath(qs)
    ensures IsPath(ps + qs)
  {
    if ps == [] {
      assert ps + qs == qs;
    } else {
      assert (ps + qs)[1..] == ps[1..] + qs;
      assert ps[0] in ps;
      FoldersThenPath(ps[1..], qs);
    }
  }

  lemma {:induction false} SlashFolders(s: string)
    requires EndsInSlash(s)
    ensures AllFolders(Pieces(s))
    decreases |s|
  {
    if s != "" {
      var i := FirstSlash(s);
      PiecesFirst(s);
      assert i < |s|;
      SlashFolders(s[i + 1..]);
    }
  }

  lemma FoldersSlash(ps: seq<string>)
    requires AllFolders(ps)
    ensures EndsInSlash(Join(ps)) && IsPath(ps)
  {
    if ps != [] {
      assert ps[0] in ps;
      assert ps[1..] != [] ==> ps[1] in ps;
    }
  }

  // A path is cut at a slash.
  lemma PiecesAppend(a: string, b: string)
    requires EndsInSlash(a)
    ensures Pieces(a + b) == Pieces(a) + Pieces(b)
  {
    SlashFolders(a);
    JoinPieces(a);
    JoinPieces(b);
    JoinAppend(Pieces(a), Pieces(b));
    FoldersThenPath(Pieces(a), Pieces(b));
    PiecesJoin(Pieces(a) + Pieces(b));
  }

  lemma PathOfAppend(a: string, b: string)
    requires EndsInSlash(a)
    ensures PathOf(a + b) == a + PathOf(b)
  {
    var p := a + PathOf(b);
    assert forall j :: |p| <= j < |a + b| ==> (a + b)[j] == b[j - |a|];
    PathOfUnique(a + b, p);
  }

  lemma PathOfUnique(s: string, p: string)
    requires p <= s && EndsInSlash(p) && forall j :: |p| <= j < |s| ==> s[j] != '/'
    ensures PathOf(s) == p
  {
    var q := PathOf(s);
    assert q != "" ==> s[|q| - 1] == '/';
    assert p != "" ==> s[|p| - 1] == '/';
    assert |p| == |q|;
  }

  /* ---- The meaning of a path ---- */

  // Follows a path from a directory, given by the folders that lead to it.  A
  // piece "/" (an empty segment) is a floor that ".." does not go through.
  function Enter(dir: seq<string>, piece: string): seq<string> {
    if piece == "./" then dir
    else if piece == "../" then
      if dir == [] || dir[|dir| - 1] == "/" then dir else dir[..|dir| - 1]
    else dir + [piece]
  }

  function Follow(dir: seq<string>, pieces: seq<string>): seq<string>
    decreases |pieces|
  {
    if pieces == [] then dir else Follow(Enter(dir, pieces[0]), pieces[1..])
  }

  lemma {:induction false} FollowAppend(dir: seq<string>, p: seq<string>, q: seq<string>)
    ensures Follow(dir, p + q) == Follow(Follow(dir, p), q)
    decreases |p|
  {
    if p == [] {
      assert p + q == q;
    } else {
      assert (p + q)[1..] == p[1..] + q;
      FollowAppend(Enter(dir, p[0]), p[1..], q);
    }
  }
}
