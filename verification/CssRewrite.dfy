/**
  Rewriting a URL for a new file keeps its target: exactly when it does.
  A URL is rewritten by joining it to its own folder and then making the result
  relative to the new file; it should still lead, from the new file's folder, to
  the same place.
 */
module CssRewrite {
  import opened Paths
  import opened CssUrls

  // The rewritten URL, read from the folder of the new file, is the target again.
  predicate KeepsTarget(newFile: string, target: string) {
    Joined(PathOf(newFile), Relative(newFile, target)) == target
  }

  predicate Plain(piece: string) {
    piece != "./" && piece != "../" && piece != "/"
  }

  predicate AllPlain(pieces: seq<string>) {
    forall p :: p in pieces ==> Plain(p)
  }

  // The folders of the new file below the common prefix, which "../" has to leave again.
  function Below(newFile: string, target: string): seq<string> {
    Pieces(PathOf(newFile[|CommonFolder(newFile, target)|..]))
  }

  // When rewriting keeps the target: never for a new file on a host.  Otherwise,
  // when the target is absolute on the same host; or it names a host, and the new
  // file's folder is the base; or the folders to leave are plain names (anything
  // but an empty name will do on the floor that an empty segment makes); and with
  // nothing to leave the rest must not look absolute.
  predicate Condition(newFile: string, target: string) {
    if SchemeEnd(PathOf(newFile)) > 0 || !Canonical(Pieces(target)) then
      false
    else if StartsWith(target, "/") then
      true
    else if IsAbsolute(target) then
      PushAll([], Pieces(PathOf(newFile))) == []
    else if Below(newFile, target) == [] then
      !StartsWith(target[|CommonFolder(newFile, target)|..], "/")
    else
      && "/" !in Below(newFile, target)
      && (AllPlain(Below(newFile, target)) || OnFloor(Pieces(CommonFolder(newFile, target))))
  }

  predicate OnFloor(pieces: seq<string>) {
    pieces != [] && pieces[|pieces| - 1] == "/"
  }

  function Dots(n: nat): seq<string> {
    if n == 0 then [] else ["../"] + Dots(n - 1)
  }

  /* ---- Strings and their pieces ---- */

  lemma {:induction false} UpsPieces(n: nat)
    ensures EndsInSlash(Ups(n)) && Pieces(Ups(n)) == Dots(n)
  {
    if n > 0 {
      UpsPieces(n - 1);
      assert IsFolder("../");
      PiecesCons("../", Ups(n - 1));
    }
  }

  lemma {:induction false} SlashCountAppend(a: string, b: string)
    ensures SlashCount(a + b) == SlashCount(a) + SlashCount(b)
  {
    if a == "" {
      assert a + b == b;
    } else {
      assert (a + b)[1..] == a[1..] + b;
      SlashCountAppend(a[1..], b);
    }
  }

  lemma {:induction false} NoSlashes(s: string)
    requires forall j :: 0 <= j < |s| ==> s[j] != '/'
    ensures SlashCount(s) == 0
  {
    if s != "" {
      NoSlashes(s[1..]);
    }
  }

  lemma {:induction false} FolderCount(ps: seq<string>)
    requires AllFolders(ps)
    ensures SlashCount(Join(ps)) == |ps|
  {
    if ps != [] {
      var p := ps[0];
      assert p in ps && p == p[..|p| - 1] + ['/'];
      NoSlashes(p[..|p| - 1]);
      SlashCountAppend(p[..|p| - 1], ['/']);
      SlashCountAppend(p, Join(ps[1..]));
      FolderCount(ps[1..]);
    }
  }

  // There are as many slashes in a path as folders on the way to its file.
  lemma SlashesAreFolders(s: string)
    ensures SlashCount(s) == |Pieces(PathOf(s))|
  {
    var p := PathOf(s);
    assert s == p + s[|p|..];
    SlashCountAppend(p, s[|p|..]);
    NoSlashes(s[|p|..]);
    SlashFolders(p);
    JoinPieces(p);
    FolderCount(Pieces(p));
  }

  /* ---- The stack machine on lists of pieces ---- */

  lemma {:induction false} PushPlain(done: seq<string>, more: seq<string>)
    requires forall p :: p in more ==> p != "./" && p != "../"
    ensures PushAll(done, more) == done + more
    decreases |more|
  {
    if more == [] {
      assert done + more == done;
    } else {
      assert more[0] in more && forall p :: p in more[1..] ==> p in more;
      PushPlain(done + [more[0]], more[1..]);
      assert done + [more[0]] + more[1..] == done + more;
    }
  }

  // Going up out of plain folders, and no further than an empty segment.
  lemma {:induction false} PopPlain(done: seq<string>, names: seq<string>, n: nat)
    requires AllPlain(names) && (|names| == n || (|names| < n && OnFloor(done)))
    ensures PushAll(done + names, Dots(n)) == done
  {
    if n > 0 {
      if names == [] {
        assert done + names == done;
        PopPlain(done, names, n - 1);
      } else {
        var last := |names| - 1;
        assert (done + names)[|done| + last] == names[last] && names[last] in names;
        assert (done + names)[..|done| + last] == done + names[..last];
        PopPlain(done, names[..last], n - 1);
      }
    } else {
      assert done + names == done;
    }
  }

  // On a floor, pieces other than "/" leave plain names above it; something other
  // than a plain name costs height.
  lemma {:induction false} PushOnFloor(done: seq<string>, names: seq<string>, more: seq<string>) returns (rest: seq<string>)
    requires OnFloor(done) && AllPlain(names) && "/" !in more
    ensures AllPlain(rest) && PushAll(done + names, more) == done + rest
    ensures |rest| <= |names| + |more|
    ensures names != [] && !AllPlain(more) ==> |rest| < |names| + |more|
    decreases |more|
  {
    if more == [] {
      rest := names;
    } else {
      assert more[0] in more && more == [more[0]] + more[1..];
      var next := if more[0] == "./" then names
                  else if more[0] != "../" then names + [more[0]]
                  else if names == [] then names
                  else names[..|names| - 1];
      assert names != [] ==> (done + names)[|done| + |names| - 1] == names[|names| - 1] && names[|names| - 1] in names;
      assert names == [] ==> done + names == done;
      assert PushPiece(done + names, more[0]) == done + next;
      rest := PushOnFloor(done, next, more[1..]);
    }
  }

  lemma {:induction false} PushLength(done: seq<string>, more: seq<string>)
    ensures |PushAll(done, more)| <= |done| + |more|
    decreases |more|
  {
    if more != [] {
      PushLength(PushPiece(done, more[0]), more[1..]);
    }
  }

  // Empty segments are never removed.
  lemma {:induction false} PushEmpties(done: seq<string>, more: seq<string>)
    ensures multiset(PushAll(done, more))["/"] == multiset(done)["/"] + multiset(more)["/"]
    decreases |more|
  {
    if more != [] {
      var next := PushPiece(done, more[0]);
      assert more == [more[0]] + more[1..];
      assert done != [] ==> done == done[..|done| - 1] + [done[|done| - 1]];
      assert multiset(next)["/"] == multiset(done)["/"] + (if more[0] == "/" then 1 else 0);
      PushEmpties(next, more[1..]);
    }
  }

  // How deep a path leads, up to its first empty segment.
  function Depth(pieces: seq<string>): int {
    if pieces == [] || pieces[0] == "/" then 0
    else (if pieces[0] == "../" then -1 else if pieces[0] == "./" then 0 else 1) + Depth(pieces[1..])
  }

  lemma {:induction false} DepthAppend(p: seq<string>, q: seq<string>)
    ensures Depth(p + q) == Depth(p) + (if "/" in p then 0 else Depth(q))
  {
    if p == [] {
      assert p + q == q;
    } else {
      assert (p + q)[1..] == p[1..] + q;
      DepthAppend(p[1..], q);
      assert p == [p[0]] + p[1..];
    }
  }

  lemma PushPieceDepth(done: seq<string>, piece: string)
    requires "./" !in done
    ensures "./" !in PushPiece(done, piece)
    ensures "/" in PushPiece(done, piece) <==> "/" in done || piece == "/"
    ensures Depth(PushPiece(done, piece)) == Depth(done) + (if "/" in done then 0 else Depth([piece]))
  {
    DepthAppend(done, [piece]);
    if done != [] {
      var last := |done| - 1;
      assert done == done[..last] + [done[last]];
      DepthAppend(done[..last], [done[last]]);
    }
  }

  lemma {:induction false} PushDepth(done: seq<string>, more: seq<string>)
    requires "./" !in done
    ensures "./" !in PushAll(done, more)
    ensures "/" in PushAll(done, more) <==> "/" in done || "/" in more
    ensures Depth(PushAll(done, more)) == Depth(done) + (if "/" in done then 0 else Depth(more))
    decreases |more|
  {
    if more != [] {
      assert more == [more[0]] + more[1..];
      PushPieceDepth(done, more[0]);
      PushDepth(PushPiece(done, more[0]), more[1..]);
      DepthAppend([more[0]], more[1..]);
    }
  }

  lemma {:induction false} DepthBound(names: seq<string>)
    requires "/" !in names
    ensures Depth(names) <= |names|
    ensures !AllPlain(names) ==> Depth(names) < |names|
  {
    if names != [] {
      assert names == [names[0]] + names[1..];
      DepthBound(names[1..]);
    }
  }

  lemma {:induction false} DotsDepth(n: nat)
    ensures Depth(Dots(n)) == 0 - n && "/" !in Dots(n) && |Dots(n)| == n
  {
    if n > 0 {
      DotsDepth(n - 1);
    }
  }

  // The last empty segment of a canonical list has only plain names after it.
  lemma {:induction false} LastEmpty(pieces: seq<string>) returns (floor: seq<string>, names: seq<string>)
    requires Canonical(pieces) && "/" in pieces
    ensures pieces == floor + names && OnFloor(floor) && AllPlain(names)
  {
    var last := |pieces| - 1;
    assert pieces == pieces[..last] + [pieces[last]];
    if pieces[last] == "/" {
      floor, names := pieces, [];
    } else {
      floor, names := LastEmpty(pieces[..last]);
      names := names + [pieces[last]];
      assert pieces[|floor| - 1] == "/";
    }
  }

  /* ---- From the common folder down to the new file, up again, and on ---- */

  // The detour through `below` comes back to the common folder.
  lemma DetourReturns(common: seq<string>, below: seq<string>)
    requires "/" !in below && (AllPlain(below) || OnFloor(common))
    ensures PushAll(PushAll(common, below), Dots(|below|)) == common
  {
    if AllPlain(below) {
      PushPlain(common, below);
      PopPlain(common, below, |below|);
    } else {
      assert common + [] == common;
      var names := PushOnFloor(common, [], below);
      PopPlain(common, names, |below|);
    }
  }

  // Otherwise it ends too high, and what is pushed afterwards does not make up for it.
  lemma DetourMisses(common: seq<string>, below: seq<string>, rest: seq<string>)
    requires Canonical(common) && "/" !in below && !AllPlain(below) && !OnFloor(common)
    ensures PushAll(PushAll(PushAll(common, below), Dots(|below|)), rest) != common + rest
  {
    if "/" in common {
      var floor, names := LastEmpty(common);
      assert names != [] by {
        assert floor + [] == floor;
      }
      DetourShorter(floor, names, below);
      PushLength(PushAll(PushAll(common, below), Dots(|below|)), rest);
    } else {
      DetourLower(common, below, rest);
    }
  }

  // Above an empty segment a name is lost for good.
  lemma DetourShorter(floor: seq<string>, names: seq<string>, below: seq<string>)
    requires OnFloor(floor) && AllPlain(names) && names != [] && "/" !in below && !AllPlain(below)
    ensures |PushAll(PushAll(floor + names, below), Dots(|below|))| < |floor + names|
  {
    var up := PushOnFloor(floor, names, below);
    if |up| >= |below| {
      PopPartly(floor, up, |below|);
    } else {
      PopPlain(floor, up, |below|);
    }
  }

  // Without an empty segment the depth is lower, also after rest.
  lemma DetourLower(common: seq<string>, below: seq<string>, rest: seq<string>)
    requires Canonical(common) && "/" !in common && "/" !in below && !AllPlain(below)
    ensures Depth(PushAll(PushAll(PushAll(common, below), Dots(|below|)), rest)) < Depth(common + rest)
  {
    var down, dots := PushAll(common, below), Dots(|below|);
    PushDepth(common, below);
    DotsDepth(|below|);
    PushDepth(down, dots);
    DepthBound(below);
    PushDepth(PushAll(down, dots), rest);
    DepthAppend(common, rest);
  }

  lemma PopPartly(done: seq<string>, names: seq<string>, n: nat)
    requires AllPlain(names) && n <= |names|
    ensures PushAll(done + names, Dots(n)) == done + names[..|names| - n]
  {
    var kept := |names| - n;
    assert done + names == (done + names[..kept]) + names[kept..];
    PopPlain(done + names[..kept], names[kept..], n);
  }

  // An empty segment on the way down stays.
  lemma DetourStays(common: seq<string>, below: seq<string>, rest: seq<string>)
    requires "/" in below
    ensures PushAll(PushAll(PushAll(common, below), Dots(|below|)), rest) != common + rest
  {
    PushEmpties(common, below);
    PushEmpties(PushAll(common, below), Dots(|below|));
    PushEmpties(PushAll(PushAll(common, below), Dots(|below|)), rest);
  }

  /* ---- The three kinds of target ---- */

  // A join is the target exactly when its pieces are.
  lemma SameByPieces(a: string, b: string, target: string)
    requires EndsInSlash(a) && SchemeEnd(a) == 0
    ensures Joined(a, b) == target <==> PushAll(Base(a, b), Pieces(b)) == Pieces(target)
  {
    JoinedPieces(a, b);
    JoinPieces(Joined(a, b));
    JoinPieces(target);
  }

  lemma HostTarget(newFile: string, target: string)
    requires SchemeEnd(PathOf(newFile)) == 0 && Canonical(Pieces(target))
    requires StartsWith(target, "http://") || StartsWith(target, "https://")
    ensures KeepsTarget(newFile, target) <==> PushAll([], Pieces(PathOf(newFile))) == []
  {
    SameByPieces(PathOf(newFile), target, target);
    HostPieces(target);
    PushPlain(Base(PathOf(newFile), target), Pieces(target));
  }

  // The scheme and the host in front of a.
  lemma SchemeSplit(a: string) returns (scheme: string, host: string)
    requires SchemeEnd(a) > 0
    ensures a[..SchemeEnd(a)] == scheme + host && IsScheme(scheme)
    ensures host != "" ==> IsFile(host) && StartsWith(a[SchemeEnd(a)..], "/")
  {
    scheme := if StartsWith(a, "//") then "//" else if StartsWith(a, "http://") then "http://" else "https://";
    host := a[|scheme|..SchemeEnd(a)];
  }

  lemma SchemePieces(scheme: string)
    requires IsScheme(scheme)
    ensures EndsInSlash(scheme) && Empties(Pieces(scheme)) == if scheme == "//" then 2 else 1
  {
    var head := if scheme == "//" then "/" else if scheme == "http://" then "http:/" else "https:/";
    assert scheme == head + "/";
    HeadPieces(head);
  }

  lemma HeadPieces(head: string)
    requires IsFolder(head)
    ensures Pieces(head + "/") == [head, "/"]
  {
    assert IsFolder("/") && "/" + "" == "/";
    PiecesCons("/", "");
    PiecesCons(head, "/");
  }

  // An empty segment at the bottom of the stack stays there.
  lemma {:induction false} FloorStays(done: seq<string>, more: seq<string>)
    requires done != [] && done[0] == "/"
    ensures PushAll(done, more) != [] && PushAll(done, more)[0] == "/"
    decreases |more|
  {
    if more != [] {
      FloorStays(PushPiece(done, more[0]), more[1..]);
    }
  }

  lemma StartsEmpty(s: string)
    requires StartsWith(s, "/")
    ensures Pieces(s) != [] && Pieces(s)[0] == "/"
  {
    assert IsFolder("/") && s == "/" + s[1..];
    PiecesCons("/", s[1..]);
  }

  function Empties(pieces: seq<string>): nat {
    multiset(pieces)["/"]
  }

  lemma EmptiesAppend(ps: seq<string>, qs: seq<string>)
    ensures Empties(ps + qs) == Empties(ps) + Empties(qs)
  {
  }

  lemma FolderEmpties(folder: string, rest: string)
    requires IsFolder(folder)
    ensures Empties(Pieces(folder + rest)) == Empties(Pieces(rest)) + if folder == "/" then 1 else 0
  {
    PiecesCons(folder, rest);
    EmptiesAppend([folder], Pieces(rest));
  }

  lemma Regroup(a: string, b: string, c: string)
    ensures (a + b) + c == a + (b + c)
  {
  }

  // A host in front of a path takes its first empty segment away.
  lemma HostEmpties(host: string, path: string)
    requires IsFile(host) && StartsWith(path, "/")
    ensures Empties(Pieces(host + path)) == Empties(Pieces(path)) - 1
  {
    var rest := path[1..];
    assert path == "/" + rest && IsFolder("/");
    Regroup(host, "/", rest);
    FolderEmpties("/", rest);
    assert IsFolder(host + "/") && host + "/" != "/";
    FolderEmpties(host + "/", rest);
  }

  lemma SchemeEmpties(scheme: string, host: string, path: string)
    requires IsScheme(scheme) && (host != "" ==> IsFile(host) && StartsWith(path, "/"))
    ensures Empties(Pieces(scheme + (host + path))) ==
      (if scheme == "//" then 2 else 1) + Empties(Pieces(path)) - if host == "" then 0 else 1
  {
    SchemePieces(scheme);
    PiecesAppend(scheme, host + path);
    EmptiesAppend(Pieces(scheme), Pieces(host + path));
    if host != "" {
      HostEmpties(host, path);
    } else {
      assert host + path == path;
    }
  }

  // Behind a scheme and host, the join has more empty segments than what was joined.
  lemma HostAdds(scheme: string, host: string, a: string, target: string, path: string)
    requires IsScheme(scheme) && (host != "" ==> IsFile(host) && StartsWith(a, "/"))
    requires StartsWith(target, "/") ==> scheme == "//"
    requires Pieces(path) == PushAll(Base(a, target), Pieces(target))
    ensures Empties(Pieces(scheme + (host + path))) > Empties(Pieces(target))
  {
    PushEmpties(Base(a, target), Pieces(target));
    if host != "" {
      JoinedFloor(a, target);
      FirstEmpty(path);
    }
    SchemeEmpties(scheme, host, path);
  }

  // Joining to a folder on a host never gives back the path that was joined.
  lemma HostStays(a: string, target: string)
    requires EndsInSlash(a) && SchemeEnd(a) > 0 && IsAbsolute(target)
    ensures Joined(a, target) != target
  {
    var scheme, host := SchemeSplit(a);
    JoinedRest(a, target);
    if StartsWith(target, "/") && scheme != "//" {
      assert Joined(a, target)[0] == a[0] == 'h';
    } else {
      var path := HostPath(a, target);
      HostAdds(scheme, host, a[SchemeEnd(a)..], target, path);
      Regroup(scheme, host, path);
    }
  }

  lemma HostPath(a: string, target: string) returns (path: string)
    requires EndsInSlash(a)
    ensures Joined(a, target) == a[..SchemeEnd(a)] + path
    ensures Pieces(path) == PushAll(Base(a[SchemeEnd(a)..], target), Pieces(target))
  {
    JoinedRest(a, target);
    path := Joined(a, target)[SchemeEnd(a)..];
  }

  // Joined to an absolute folder, or being absolute, a path starts with an empty segment.
  lemma JoinedFloor(a: string, target: string)
    requires StartsWith(a, "/")
    ensures var qs := PushAll(Base(a, target), Pieces(target)); qs != [] && qs[0] == "/"
    ensures !StartsWith(target, "/") ==> Empties(Base(a, target)) > 0
  {
    if StartsWith(target, "/") {
      FloorFirst(target);
    } else {
      FloorFirst(a);
      FloorStays(Base(a, target), Pieces(target));
    }
  }

  lemma FloorFirst(s: string)
    requires StartsWith(s, "/")
    ensures PushAll([], Pieces(s)) != [] && PushAll([], Pieces(s))[0] == "/"
  {
    StartsEmpty(s);
    var ps := Pieces(s);
    assert PushPiece([], ps[0]) == [ps[0]];
    FloorStays([ps[0]], ps[1..]);
  }

  lemma FirstEmpty(s: string)
    requires Pieces(s) != [] && Pieces(s)[0] == "/"
    ensures StartsWith(s, "/")
  {
    JoinPieces(s);
  }

  // The host of the new file stays in front of whatever is joined to it.
  lemma HostNeverKeeps(newFile: string, target: string)
    requires SchemeEnd(PathOf(newFile)) > 0
    ensures !KeepsTarget(newFile, target)
  {
    if IsAbsolute(target) {
      HostStays(PathOf(newFile), target);
    } else {
      JoinedRest(PathOf(newFile), Relative(newFile, target));
      SchemeStarts(PathOf(newFile), Joined(PathOf(newFile), Relative(newFile, target)));
    }
  }

  lemma SchemeStarts(a: string, joined: string)
    requires SchemeEnd(a) > 0 && a[..SchemeEnd(a)] <= joined
    ensures IsAbsolute(joined)
  {
  }

  lemma HostPieces(target: string)
    requires Canonical(Pieces(target))
    requires StartsWith(target, "http://") || StartsWith(target, "https://")
    ensures forall p :: p in Pieces(target) ==> p != "./" && p != "../"
  {
    var ps := Pieces(target);
    assert target[0] == 'h';
    assert ps[0][0] == 'h';
    forall p | p in ps
      ensures p != "./" && p != "../"
    {
      var i :| 0 <= i < |ps| && ps[i] == p;
    }
  }

  lemma RelativePieces(newFile: string, target: string)
    requires !IsAbsolute(target)
    ensures Pieces(PathOf(newFile)) == Pieces(CommonFolder(newFile, target)) + Below(newFile, target)
    ensures Pieces(target) == Pieces(CommonFolder(newFile, target)) + Pieces(target[|CommonFolder(newFile, target)|..])
    ensures Pieces(Relative(newFile, target)) ==
            Dots(|Below(newFile, target)|) + Pieces(target[|CommonFolder(newFile, target)|..])
  {
    var prefix := CommonFolder(newFile, target);
    var file, rest := newFile[|prefix|..], target[|prefix|..];
    assert newFile == prefix + file && target == prefix + rest;
    PathOfAppend(prefix, file);
    PiecesAppend(prefix, PathOf(file));
    PiecesAppend(prefix, rest);
    SlashesAreFolders(file);
    UpsPieces(SlashCount(file));
    PiecesAppend(Ups(SlashCount(file)), rest);
  }

  // The relative path is the target itself if that is absolute; otherwise as many
  // "../" as the new file has folders below the longest common one, and what the
  // target has below it.
  lemma RelativeExactly(newFile: string, target: string)
    ensures StartsWith(target, "/") || StartsWith(target, "http://") || StartsWith(target, "https://") ==>
      Relative(newFile, target) == target
    ensures !StartsWith(target, "/") && !StartsWith(target, "http://") && !StartsWith(target, "https://") ==>
      var common := CommonFolder(newFile, target);
      exists n: nat :: |Pieces(PathOf(newFile))| == |Pieces(common)| + n
        && Pieces(Relative(newFile, target)) == Dots(n) + Pieces(target[|common|..])
  {
    if !IsAbsolute(target) {
      RelativePieces(newFile, target);
      var n: nat := |Below(newFile, target)|;
      assert Pieces(Relative(newFile, target)) == Dots(n) + Pieces(target[|CommonFolder(newFile, target)|..]);
    }
  }

  lemma RelativeStart(newFile: string, target: string)
    requires !IsAbsolute(target)
    ensures StartsWith(Relative(newFile, target), "/") <==>
            Below(newFile, target) == [] && StartsWith(target[|CommonFolder(newFile, target)|..], "/")
  {
    var prefix := CommonFolder(newFile, target);
    SlashesAreFolders(newFile[|prefix|..]);
    var n := SlashCount(newFile[|prefix|..]);
    if n > 0 {
      assert Ups(n)[0] == '.';
      assert Relative(newFile, target)[0] == '.';
    } else {
      assert Ups(n) + target[|prefix|..] == target[|prefix|..];
    }
  }

  lemma CanonicalPrefix(p: seq<string>, q: seq<string>)
    requires Canonical(p + q)
    ensures Canonical(p) && PushAll([], p) == p
  {
    forall i | 0 <= i < |p|
      ensures p[i] == (p + q)[i]
    {
    }
    CanonicalFixed([], p);
    assert [] + p == p;
  }

  lemma RelativeTarget(newFile: string, target: string)
    requires SchemeEnd(PathOf(newFile)) == 0 && Canonical(Pieces(target)) && !IsAbsolute(target)
    ensures KeepsTarget(newFile, target) <==> Condition(newFile, target)
  {
    var a, r := PathOf(newFile), Relative(newFile, target);
    var common, below := Pieces(CommonFolder(newFile, target)), Below(newFile, target);
    var rest := Pieces(target[|CommonFolder(newFile, target)|..]);
    RelativePieces(newFile, target);
    RelativeStart(newFile, target);
    SameByPieces(a, r, target);
    CanonicalPrefix(common, rest);
    if StartsWith(r, "/") {
      LooksAbsolute(newFile, target, common, rest);
    } else {
      PushAllAppend([], common, below);
      PushAllAppend(PushAll(common, below), Dots(|below|), rest);
      assert PushAll(Base(a, r), Pieces(r)) == PushAll(PushAll(PushAll(common, below), Dots(|below|)), rest);
      if "/" in below {
        DetourStays(common, below, rest);
      } else if AllPlain(below) || OnFloor(common) {
        DetourReturns(common, below);
        CanonicalFixed(common, rest);
      } else {
        DetourMisses(common, below, rest);
      }
    }
  }

  // The rest of the target begins with a slash and is read as absolute.
  lemma LooksAbsolute(newFile: string, target: string, common: seq<string>, rest: seq<string>)
    requires !IsAbsolute(target) && Below(newFile, target) == []
    requires StartsWith(target[|CommonFolder(newFile, target)|..], "/")
    requires common == Pieces(CommonFolder(newFile, target))
    ensures PushAll([], Dots(0) + rest) != common + rest
  {
    var prefix := CommonFolder(newFile, target);
    assert prefix != "" by {
      assert target[|""|..] == target;
    }
    assert common != [];
    PushLength([], Dots(0) + rest);
  }

  /* ---- The law ---- */

  lemma RewriteExactly(newFile: string, target: string)
    ensures KeepsTarget(newFile, target) <==> Condition(newFile, target)
  {
    if SchemeEnd(PathOf(newFile)) > 0 {
      HostNeverKeeps(newFile, target);
    } else if !Canonical(Pieces(target)) {
      JoinedPieces(PathOf(newFile), Relative(newFile, target));
    } else if StartsWith(target, "/") {
      SameByPieces(PathOf(newFile), target, target);
      CanonicalFixed([], Pieces(target));
      assert [] + Pieces(target) == Pieces(target);
    } else if IsAbsolute(target) {
      HostTarget(newFile, target);
    } else {
      RelativeTarget(newFile, target);
    }
  }

  // For every original file, every URL and every new file.
  lemma RewriteUrl(originalFile: string, newFile: string, url: string)
    ensures var target := Joined(PathOf(originalFile), url);
            KeepsTarget(newFile, target) <==> Condition(newFile, target)
  {
    RewriteExactly(newFile, Joined(PathOf(originalFile), url));
  }

  // The usual case: plain folders all the way to the new file, and no empty segment in the target.
  lemma RewriteUsually(newFile: string, target: string)
    requires SchemeEnd(PathOf(newFile)) == 0 && AllPlain(Pieces(PathOf(newFile)))
    requires Canonical(Pieces(target)) && "/" !in Pieces(target) && !IsAbsolute(target)
    ensures KeepsTarget(newFile, target)
  {
    RelativePieces(newFile, target);
    NotAbsoluteInside(CommonFolder(newFile, target), target);
    assert forall p :: p in Below(newFile, target) ==> p in Pieces(PathOf(newFile));
    RewriteExactly(newFile, target);
  }

  lemma NotAbsoluteInside(prefix: string, target: string)
    requires prefix <= target && EndsInSlash(prefix)
    ensures StartsWith(target[|prefix|..], "/") ==> "/" in Pieces(target)
  {
    var rest := target[|prefix|..];
    assert target == prefix + rest;
    PiecesAppend(prefix, rest);
    if StartsWith(rest, "/") {
      assert rest == "/" + rest[1..];
      assert IsFolder("/");
      PiecesCons("/", rest[1..]);
      assert Pieces(target)[|Pieces(prefix)|] == "/";
    }
  }

  // An empty segment in the new file's folder breaks every target that shares no folder with it.
  lemma EmptySegmentFails(newFile: string, target: string)
    requires "/" in Pieces(PathOf(newFile)) && !IsAbsolute(target)
    requires newFile != "" && target != "" && newFile[0] != target[0]
    ensures !KeepsTarget(newFile, target)
  {
    if CommonFolder(newFile, target) != "" {
      SameHead(CommonFolder(newFile, target), newFile);
      SameHead(CommonFolder(newFile, target), target);
    }
    assert newFile[0..] == newFile;
    RewriteExactly(newFile, target);
  }

  lemma SameHead(p: string, s: string)
    requires p <= s && p != ""
    ensures p[0] == s[0]
  {
  }

  lemma ImageBeside(folder: string, file: string)
    requires IsFolder(folder) && IsFile(file) && folder != "./" && folder != "../"
    requires file != "./" && file != "../" && SchemeEnd(folder) == 0
    ensures Joined(folder, file) == folder + file
  {
    PiecesCons(folder, "");
    assert folder + "" == folder;
    PiecesFile(file);
    PiecesCons(folder, file);
    assert !StartsWith(file, "/");
    assert [folder][1..] == [] && PushAll([], [folder]) == [folder];
    assert [file][1..] == [] && PushAll([folder], [file]) == [folder] + [file];
    SameByPieces(folder, file, folder + file);
  }

  // An image beside the style sheet a/o.css ...
  lemma BesideStyleSheet()
    ensures Joined(PathOf("a/o.css"), "i.png") == "a/i.png"
  {
    PathOfUnique("a/o.css", "a/");
    ImageBeside("a/", "i.png");
    assert "a/" + "i.png" == "a/i.png";
  }

  lemma DoubleSlash()
    ensures "/" in Pieces(PathOf("b//n.css"))
  {
    PathOfUnique("b//n.css", "b//");
    HeadPieces("b/");
    assert "b/" + "/" == "b//";
  }

  // ... is not found from b//n.css.
  lemma RewriteFails()
    ensures !KeepsTarget("b//n.css", Joined(PathOf("a/o.css"), "i.png"))
  {
    BesideStyleSheet();
    DoubleSlash();
    var newFile, target := "b//n.css", "a/i.png";
    assert newFile[0] == 'b' && target[0] == 'a';
    EmptySegmentFails(newFile, target);
  }
}
