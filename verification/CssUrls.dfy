/** Joining paths and making them relative, as the CSS build plugin does. */
module CssUrls {
  import opened Paths

  predicate StartsWith(haystack: string, needle: string) {
    needle <= haystack
  }

  /* ---- joinPaths ---- */

  // pushPiece: what one piece does to the stack of pieces.
  function PushPiece(pieces: seq<string>, piece: string): seq<string> {
    if piece == "./" then pieces
    else if piece == "../" && pieces != [] && pieces[|pieces| - 1] == "/" then pieces
    else if piece == "../" && pieces != [] && pieces[|pieces| - 1] != "../" then pieces[..|pieces| - 1]
    else pieces + [piece]
  }

  function PushAll(pieces: seq<string>, more: seq<string>): seq<string>
    decreases |more|
  {
    if more == [] then pieces else PushAll(PushPiece(pieces, more[0]), more[1..])
  }

  // The end of the scheme and host of a, or 0.
  function SchemeEnd(a: string): (n: nat)
    ensures n <= |a|
  {
    if StartsWith(a, "//") then HostEnd(a, 2)
    else if StartsWith(a, "http://") then HostEnd(a, 7)
    else if StartsWith(a, "https://") then HostEnd(a, 8)
    else 0
  }

  function HostEnd(a: string, prefix: nat): (n: nat)
    requires prefix <= |a|
    ensures prefix <= n <= |a|
  {
    var i := prefix + FirstSlash(a[prefix..]);
    if i < |a| then i else prefix
  }

  // What joinPaths returns.
  function Joined(a: string, b: string): string {
    var start := SchemeEnd(a);
    var base := if StartsWith(b, "/") then [] else PushAll([], Pieces(a[start..]));
    a[..start] + Join(PushAll(base, Pieces(b)))
  }

  method Push(pieces: seq<string>, path: string) returns (result: seq<string>)
    ensures result == PushAll(pieces, Pieces(path))
  {
    result := pieces;
    var rest := path;
    while |rest| > 0
      invariant PushAll(result, Pieces(rest)) == PushAll(pieces, Pieces(path))
      decreases |rest|
    {
      var slashIndex := FirstSlash(rest);
      var piece := if slashIndex < |rest| then rest[..slashIndex + 1] else rest;
      PiecesFirst(rest);
      rest := if slashIndex < |rest| then rest[slashIndex + 1..] else "";
      result := PushPiece(result, piece);
    }
  }

  method JoinPaths(a: string, b: string) returns (joined: string)
    ensures joined == Joined(a, b)
  {
    var start := SchemeEnd(a);
    var pieces := Push([], a[start..]);
    if |b| > 0 && b[0] == '/' {
      pieces := [];
    }
    assert StartsWith(b, "/") <==> |b| > 0 && b[0] == '/';
    pieces := Push(pieces, b);
    joined := a[..start] + Join(pieces);
  }

  /* ---- The meaning of a path ---- */

  // No "./", and "../" only at the front.
  predicate Canonical(pieces: seq<string>) {
    forall i :: 0 <= i < |pieces| ==>
      pieces[i] != "./" && (pieces[i] == "../" ==> forall j :: 0 <= j < i ==> pieces[j] == "../")
  }

  lemma PushPieceCanonical(pieces: seq<string>, piece: string)
    requires Canonical(pieces)
    ensures Canonical(PushPiece(pieces, piece))
  {
  }

  lemma {:induction false} PushAllCanonical(pieces: seq<string>, more: seq<string>)
    requires Canonical(pieces)
    ensures Canonical(PushAll(pieces, more))
    decreases |more|
  {
    if more != [] {
      PushPieceCanonical(pieces, more[0]);
      PushAllCanonical(PushPiece(pieces, more[0]), more[1..]);
    }
  }

  // On a canonical list the stack machine changes nothing.
  lemma {:induction false} CanonicalFixed(done: seq<string>, more: seq<string>)
    requires Canonical(done + more)
    ensures PushAll(done, more) == done + more
    decreases |more|
  {
    if more == [] {
      assert done + more == done;
    } else {
      var c := done + more;
      assert c[|done|] == more[0];
      assert more[0] == "../" && done != [] ==> c[|done| - 1] == "../";
      assert done + [more[0]] + more[1..] == c;
      CanonicalFixed(done + [more[0]], more[1..]);
    }
  }

  lemma {:induction false} PushAllAppend(pieces: seq<string>, p: seq<string>, q: seq<string>)
    ensures PushAll(pieces, p + q) == PushAll(PushAll(pieces, p), q)
    decreases |p|
  {
    if p == [] {
      assert p + q == q;
    } else {
      assert (p + q)[1..] == p[1..] + q;
      PushAllAppend(PushPiece(pieces, p[0]), p[1..], q);
    }
  }

  lemma PushPieceFollow(dir: seq<string>, pieces: seq<string>, piece: string)
    requires Canonical(pieces)
    ensures Follow(dir, PushPiece(pieces, piece)) == Enter(Follow(dir, pieces), piece)
  {
    if pieces != [] {
      var last := |pieces| - 1;
      assert pieces == pieces[..last] + [pieces[last]];
      FollowAppend(dir, pieces[..last], [pieces[last]]);
    }
    FollowAppend(dir, pieces, [piece]);
  }

  // The stack machine keeps the meaning of what it has read, from every directory.
  lemma {:induction false} PushAllFollow(dir: seq<string>, pieces: seq<string>, more: seq<string>)
    requires Canonical(pieces)
    ensures Follow(dir, PushAll(pieces, more)) == Follow(Follow(dir, pieces), more)
    decreases |more|
  {
    if more != [] {
      PushPieceFollow(dir, pieces, more[0]);
      PushPieceCanonical(pieces, more[0]);
      PushAllFollow(dir, PushPiece(pieces, more[0]), more[1..]);
    }
  }

  // Pieces that come from a folder path and a path form a path again.
  lemma {:induction false} PushAllPath(pieces: seq<string>, more: seq<string>)
    requires AllFolders(pieces) && IsPath(more)
    ensures IsPath(PushAll(pieces, more))
    decreases |more|
  {
    if more == [] {
      FoldersSlash(pieces);
    } else if |more| == 1 {
      FoldersSlash(pieces);
      assert PushAll(pieces, more) == PushPiece(pieces, more[0]);
      if PushPiece(pieces, more[0]) == pieces + more {
        FoldersThenPath(pieces, more);
      } else {
        FoldersSlash(PushPiece(pieces, more[0]));
      }
    } else {
      PushAllPath(PushPiece(pieces, more[0]), more[1..]);
    }
  }

  lemma {:induction false} PushAllFolders(pieces: seq<string>, more: seq<string>)
    requires AllFolders(pieces) && AllFolders(more)
    ensures AllFolders(PushAll(pieces, more))
    decreases |more|
  {
    if more != [] {
      assert more[0] in more;
      PushAllFolders(PushPiece(pieces, more[0]), more[1..]);
    }
  }

  // The stack on which b is pushed.
  function Base(a: string, b: string): seq<string> {
    if StartsWith(b, "/") then [] else PushAll([], Pieces(a))
  }

  lemma BaseFolders(a: string, b: string)
    requires EndsInSlash(a)
    ensures AllFolders(Base(a, b)) && Canonical(Base(a, b))
  {
    SlashFolders(a);
    PushAllFolders([], Pieces(a));
    PushAllCanonical([], Pieces(a));
  }

  // The pieces of a join, for a folder path a without a scheme.
  lemma JoinedPieces(a: string, b: string)
    requires EndsInSlash(a) && SchemeEnd(a) == 0
    ensures Pieces(Joined(a, b)) == PushAll(Base(a, b), Pieces(b))
    ensures Canonical(Pieces(Joined(a, b)))
  {
    JoinedRest(a, b);
    assert a[0..] == a && Joined(a, b)[0..] == Joined(a, b);
  }

  // A join keeps the scheme and host of a; the rest is canonical.
  lemma JoinedRest(a: string, b: string)
    requires EndsInSlash(a)
    ensures var n := SchemeEnd(a);
      && a[..n] <= Joined(a, b)
      && Joined(a, b)[n..] == Join(PushAll(Base(a[n..], b), Pieces(b)))
      && Pieces(Joined(a, b)[n..]) == PushAll(Base(a[n..], b), Pieces(b))
      && Canonical(Pieces(Joined(a, b)[n..]))
  {
    var n := SchemeEnd(a);
    BaseFolders(a[n..], b);
    JoinPieces(b);
    PushAllPath(Base(a[n..], b), Pieces(b));
    PiecesJoin(PushAll(Base(a[n..], b), Pieces(b)));
    PushAllCanonical(Base(a[n..], b), Pieces(b));
  }

  // Behind the scheme and host of a, joining is following one path after the
  // other; an absolute b discards a.
  lemma JoinMeaning(dir: seq<string>, a: string, b: string)
    requires EndsInSlash(a)
    ensures var n := SchemeEnd(a);
      && a[..n] <= Joined(a, b) && Canonical(Pieces(Joined(a, b)[n..]))
      && Follow(dir, Pieces(Joined(a, b)[n..])) ==
         if StartsWith(b, "/") then Follow(dir, Pieces(b)) else Follow(Follow(dir, Pieces(a[n..])), Pieces(b))
  {
    var n := SchemeEnd(a);
    JoinedRest(a, b);
    PushAllFollow(dir, [], Pieces(a[n..]));
    BaseFolders(a[n..], b);
    PushAllFollow(dir, Base(a[n..], b), Pieces(b));
  }

  predicate IsScheme(scheme: string) {
    scheme == "//" || scheme == "http://" || scheme == "https://"
  }

  // A host ends at the first slash behind the scheme.
  lemma HostEnds(scheme: string, host: string, p: string)
    requires IsScheme(scheme) && forall j :: 0 <= j < |host| ==> host[j] != '/'
    ensures SchemeEnd(scheme + host + "/" + p) == |scheme + host|
  {
    var a := scheme + host + "/" + p;
    SchemeStart(scheme, host + "/" + p);
    assert a == scheme + (host + "/" + p);
    HostLength(host, p);
    assert a[|scheme|..] == host + "/" + p;
  }

  lemma HostLength(host: string, p: string)
    requires forall j :: 0 <= j < |host| ==> host[j] != '/'
    ensures FirstSlash(host + "/" + p) == |host|
  {
    var s := host + "/" + p;
    assert s[|host|] == '/';
    assert forall j :: 0 <= j < |host| ==> s[j] != '/';
  }

  lemma SchemeStart(scheme: string, rest: string)
    requires IsScheme(scheme)
    ensures SchemeEnd(scheme + rest) == HostEnd(scheme + rest, |scheme|)
  {
    var a := scheme + rest;
    assert a[0] == scheme[0] && a[1] == scheme[1];
    if scheme != "//" {
      assert a[4] == scheme[4];
    }
  }

  // A folder on a host: scheme and host stay in front, and what follows is canonical
  // and means the folder followed by b, or b alone if it is absolute.
  lemma JoinHost(dir: seq<string>, scheme: string, host: string, p: string, b: string)
    requires IsScheme(scheme) && forall j :: 0 <= j < |host| ==> host[j] != '/'
    ensures scheme + host <= Joined(scheme + host + "/" + p, b)
    ensures EndsInSlash(p) ==> var joined := Joined(scheme + host + "/" + p, b);
      && Canonical(Pieces(joined[|scheme + host|..]))
      && Follow(dir, Pieces(joined[|scheme + host|..])) ==
         if StartsWith(b, "/") then Follow(dir, Pieces(b)) else Follow(Follow(dir, Pieces("/" + p)), Pieces(b))
  {
    var a := scheme + host + "/" + p;
    HostEnds(scheme, host, p);
    assert a[..|scheme + host|] == scheme + host && a[|scheme + host|..] == "/" + p;
    if EndsInSlash(p) {
      JoinMeaning(dir, a, b);
    }
  }

  // Without a slash behind it the host counts as a piece of the path, and is lost.
  lemma HostLost(scheme: string, host: string, b: string)
    requires IsScheme(scheme) && host != "" && forall j :: 0 <= j < |host| ==> host[j] != '/'
    ensures Joined(scheme + host, "../" + b) == Joined(scheme, b)
  {
    SchemeStart(scheme, host);
    SchemeStart(scheme, "");
    assert scheme + "" == scheme;
    assert (scheme + host)[|scheme|..] == host && (scheme + host)[..|scheme|] == scheme && scheme[|scheme|..] == "";
    PiecesFile(host);
    PiecesCons("../", b);
    PushLost(host, Pieces(b));
  }

  lemma PushLost(host: string, more: seq<string>)
    requires IsFile(host)
    ensures PushAll(PushAll([], [host]), ["../"] + more) == PushAll([], more)
  {
    PushAllAppend(PushAll([], [host]), ["../"], more);
    assert "../"[2] == '/' && "/"[0] == '/' && "./"[1] == '/';
    PushOne([], host);
    assert [] + [host] == [host] && [host][..0] == [];
    PushOne([host], "../");
  }

  lemma PushOne(pieces: seq<string>, piece: string)
    ensures PushAll(pieces, [piece]) == PushPiece(pieces, piece)
  {
    assert [piece][1..] == [];
  }

  // A scheme without a host.
  lemma JoinScheme(dir: seq<string>, scheme: string, b: string)
    requires IsScheme(scheme)
    ensures var joined := Joined(scheme, b);
      && scheme <= joined && Canonical(Pieces(joined[|scheme|..]))
      && Follow(dir, Pieces(joined[|scheme|..])) == Follow(dir, Pieces(b))
  {
    assert scheme + "" == scheme;
    SchemeStart(scheme, "");
    assert scheme[|scheme|..] == "" && scheme[..|scheme|] == scheme;
    JoinMeaning(dir, scheme, b);
  }

  // A folder that starts with no scheme: the whole join is canonical and means a
  // followed by b, or b alone if it is absolute.
  lemma JoinPlain(dir: seq<string>, a: string, b: string)
    requires EndsInSlash(a) && !StartsWith(a, "//") && !StartsWith(a, "http://") && !StartsWith(a, "https://")
    ensures Canonical(Pieces(Joined(a, b)))
    ensures Follow(dir, Pieces(Joined(a, b))) ==
      if StartsWith(b, "/") then Follow(dir, Pieces(b)) else Follow(Follow(dir, Pieces(a)), Pieces(b))
  {
    JoinMeaning(dir, a, b);
    assert a[0..] == a && Joined(a, b)[0..] == Joined(a, b);
  }

  /* ---- relativePath ---- */

  function CommonLength(s: string, t: string): (n: nat)
    ensures n <= |s| && n <= |t| && s[..n] == t[..n]
    ensures n < |s| && n < |t| ==> s[n] != t[n]
  {
    if s == "" || t == "" || s[0] != t[0] then 0
    else
      var n := 1 + CommonLength(s[1..], t[1..]);
      assert s[..n] == [s[0]] + s[1..][..n - 1] && t[..n] == [t[0]] + t[1..][..n - 1];
      n
  }

  function Ups(n: nat): string {
    if n == 0 then "" else "../" + Ups(n - 1)
  }

  function SlashCount(s: string): nat {
    if s == "" then 0 else (if s[0] == '/' then 1 else 0) + SlashCount(s[1..])
  }

  predicate IsAbsolute(t: string) {
    StartsWith(t, "/") || StartsWith(t, "http://") || StartsWith(t, "https://")
  }

  // The longest folder path that both begin with.
  function CommonFolder(from: string, to: string): (p: string)
    ensures p <= from && p <= to && EndsInSlash(p)
    ensures forall q: string :: q <= from && q <= to && EndsInSlash(q) ==> q <= p
  {
    var p := PathOf(from[..CommonLength(from, to)]);
    assert p <= from[..CommonLength(from, to)];
    LongestFolder(from, to);
    p
  }

  lemma CommonAtLeast(s: string, t: string, n: nat)
    requires n <= |s| && n <= |t| && s[..n] == t[..n]
    ensures CommonLength(s, t) >= n
  {
    forall i | 0 <= i < n
      ensures s[i] == t[i]
    {
      assert s[..n][i] == t[..n][i];
    }
  }

  lemma LongestFolder(from: string, to: string)
    ensures forall q: string :: q <= from && q <= to && EndsInSlash(q) ==> q <= PathOf(from[..CommonLength(from, to)])
  {
    var common := from[..CommonLength(from, to)];
    forall q: string | q <= from && q <= to && EndsInSlash(q)
      ensures q <= PathOf(common)
    {
      assert from[..|q|] == q == to[..|q|];
      CommonAtLeast(from, to, |q|);
      assert q <= common;
      assert q != "" ==> common[|q| - 1] == '/';
    }
  }

  // What relativePath returns.
  function Relative(from: string, to: string): string {
    if IsAbsolute(to) then to
    else
      var prefix := CommonFolder(from, to);
      Ups(SlashCount(from[|prefix|..])) + to[|prefix|..]
  }

  method CommonPrefix(s: string, t: string) returns (prefix: string)
    ensures prefix == s[..CommonLength(s, t)]
    ensures prefix <= s && prefix <= t
    ensures |prefix| < |s| && |prefix| < |t| ==> s[|prefix|] != t[|prefix|]
  {
    var len := if |s| < |t| then |s| else |t|;
    for i := 0 to len
      invariant CommonLength(s, t) >= i
    {
      CommonLengthUnique(s, t, i);
      if s[i] != t[i] {
        return s[..i];
      }
    }
    return s[..len];
  }

  lemma CommonLengthUnique(s: string, t: string, i: nat)
    requires CommonLength(s, t) >= i && i < |s| && i < |t|
    ensures CommonLength(s, t) == i <==> s[i] != t[i]
  {
    var n := CommonLength(s, t);
    assert n > i ==> s[..n][i] == t[..n][i];
  }

  method RelativePath(from: string, to: string) returns (result: string)
    ensures result == Relative(from, to)
  {
    if StartsWith(to, "/") || StartsWith(to, "http://") || StartsWith(to, "https://") {
      return to;
    }
    var common := CommonPrefix(from, to);
    var prefix := PathOf(common);
    var fromPath := from[|prefix|..];
    var toPath := to[|prefix|..];
    var upCount := SlashCount(fromPath) + 1;
    result := "";
    for i := 1 to upCount
      invariant result == Ups(i - 1)
    {
      UpsSnoc(i - 1);
      result := result + "../";
    }
    result := result + toPath;
  }

  lemma {:induction false} UpsSnoc(n: nat)
    ensures Ups(n + 1) == Ups(n) + "../"
  {
    if n > 0 {
      UpsSnoc(n - 1);
    }
  }
}
