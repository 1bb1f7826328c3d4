/**
  The servers used last: a list kept in memory and in a file, and the install
  folders that are deleted when their server falls off the end of the list.
 */
module LastUsed {
  import opened Wrappers

  datatype Quality = Insiders | Exploration | Stable
  datatype Server = Server(quality: Quality, commit: string, headless: bool)
  datatype Folder = Folder(base: string, commit: string)

  const MAX_RETAINED_SERVERS := 5

  function BaseFolder(quality: Quality): string {
    match quality
    case Insiders => "server-insiders"
    case Exploration => "server-exploration"
    case Stable => "server-stable"
  }

  function FolderOf(server: Server): Folder {
    Folder(BaseFolder(server.quality) + if server.headless then "" else "-web", server.commit)
  }

  // The six install folders, each with one folder per commit.
  lemma FolderNames(server: Server)
    ensures FolderOf(server).commit == server.commit
    ensures FolderOf(server).base ==
      match server.quality
      case Insiders => if server.headless then "server-insiders" else "server-insiders-web"
      case Exploration => if server.headless then "server-exploration" else "server-exploration-web"
      case Stable => if server.headless then "server-stable" else "server-stable-web"
  {
    assert BaseFolder(server.quality) + "" == BaseFolder(server.quality);
    assert "server-insiders" + "-web" == "server-insiders-web";
    assert "server-exploration" + "-web" == "server-exploration-web";
    assert "server-stable" + "-web" == "server-stable-web";
  }

  // Two servers never share an install folder.
  lemma FoldersDiffer(a: Server, b: Server)
    ensures FolderOf(a) == FolderOf(b) <==> a == b
  {
    if FolderOf(a) == FolderOf(b) {
      var p, q := FolderOf(a).base, FolderOf(b).base;
      assert p[7] == BaseFolder(a.quality)[7] && q[7] == BaseFolder(b.quality)[7];
      assert a.quality == b.quality;
      assert |p| == |q|;
    }
  }

  function FoldersOf(servers: seq<Server>): set<Folder> {
    set i | 0 <= i < |servers| :: FolderOf(servers[i])
  }

  // cached and file hold the list; a missing or unreadable file is None.
  datatype State = State(cached: Option<seq<Server>>, file: Option<seq<Server>>, disk: set<Folder>)

  const INIT := State(None, None, {})

  function Load(s: State): seq<Server> {
    if s.cached.Some? then s.cached.value else if s.file.Some? then s.file.value else []
  }

  function Save(s: State, servers: seq<Server>): State {
    s.(cached := Some(servers), file := Some(servers))
  }

  // The list without the first occurrence of x.
  function Without<T(==)>(l: seq<T>, x: T): seq<T> {
    if l == [] then [] else if l[0] == x then l[1..] else [l[0]] + Without(l[1..], x)
  }

  function MoveToFront(servers: seq<Server>, server: Server): seq<Server> {
    [server] + Without(servers, server)
  }

  // Deleting from the end of the list until max are left, or a folder is missing.
  datatype Trimmed = Trimmed(left: seq<Server>, disk: set<Folder>, ok: bool)

  function TrimList(servers: seq<Server>, disk: set<Folder>, max: nat): Trimmed {
    if |servers| <= max then Trimmed(servers, disk, true)
    else
      var last := servers[|servers| - 1];
      if FolderOf(last) in disk
      then TrimList(servers[..|servers| - 1], disk - {FolderOf(last)}, max)
      else Trimmed(servers[..|servers| - 1], disk, false)
  }

  // The list is saved only when every folder has been deleted.
  function Trim(s: State, max: nat): State {
    var t := TrimList(Load(s), s.disk, max);
    var s' := s.(cached := Some(Load(s)), disk := t.disk);
    if t.ok then Save(s', t.left) else s'
  }

  function Setup(s: State, server: Server): State {
    var installed := s.(disk := s.disk + {FolderOf(server)});
    var added := Save(installed, MoveToFront(Load(installed), server));
    if |Load(added)| > MAX_RETAINED_SERVERS then Trim(added, MAX_RETAINED_SERVERS) else added
  }

  // A server is set up; a new session starts with an empty cache; or folders are
  // deleted by something that does not know the list, as the prune command does.
  datatype Event = SetUp(server: Server) | Reopen | Prune(gone: set<Folder>)

  function Step(s: State, e: Event): State {
    match e
    case SetUp(server) => Setup(s, server)
    case Reopen => s.(cached := None)
    case Prune(gone) => s.(disk := s.disk - gone)
  }

  function After(s: State, events: seq<Event>): State {
    if events == [] then s else Step(After(s, events[..|events| - 1]), events[|events| - 1])
  }

  // The servers that were set up, the newest first.
  function History(events: seq<Event>): seq<Server> {
    if events == [] then [] else
      var e, before := events[|events| - 1], History(events[..|events| - 1]);
      if e.SetUp? then [e.server] + before else before
  }

  /* ---- The reference: the distinct elements in the order of their first appearance ---- */

  function Distinct<T(==)>(h: seq<T>): seq<T> {
    if h == [] then [] else
      var d, last := Distinct(h[..|h| - 1]), h[|h| - 1];
      if last in d then d else d + [last]
  }

  ghost predicate NoDuplicates<T(!new)>(l: seq<T>) {
    forall i, j :: 0 <= i < j < |l| ==> l[i] != l[j]
  }

  lemma NoDuplicatesCons<T(!new)>(x: T, l: seq<T>)
    ensures NoDuplicates([x] + l) <==> x !in l && NoDuplicates(l)
  {
    var whole := [x] + l;
    assert forall i :: 0 <= i < |l| ==> whole[i + 1] == l[i];
    if NoDuplicates(whole) {
      forall i, j | 0 <= i < j < |l|
        ensures l[i] != l[j]
      {
        assert whole[i + 1] != whole[j + 1];
      }
      forall j | 0 <= j < |l|
        ensures x != l[j]
      {
        assert whole[0] != whole[j + 1];
      }
    }
  }

  lemma {:induction false} DistinctElements<T(!new)>(h: seq<T>)
    ensures NoDuplicates(Distinct(h))
    ensures forall x :: x in Distinct(h) <==> x in h
  {
    if h != [] {
      DistinctElements(h[..|h| - 1]);
      assert h == h[..|h| - 1] + [h[|h| - 1]];
    }
  }

  lemma {:induction false} WithoutAppend<T>(l: seq<T>, y: T, x: T)
    ensures Without(l + [y], x) == if x !in l && y == x then l else Without(l, x) + if x in l || y != x then [y] else []
  {
    if l == [] {
      assert [] + [y] == [y];
    } else {
      assert (l + [y])[1..] == l[1..] + [y];
      WithoutAppend(l[1..], y, x);
      if l[0] != x && x !in l && y == x {
        assert [l[0]] + l[1..] == l;
      }
    }
  }

  lemma {:induction false} WithoutElements<T(!new)>(l: seq<T>, x: T)
    requires NoDuplicates(l)
    ensures forall y :: y in Without(l, x) <==> y in l && y != x
    ensures x !in l ==> Without(l, x) == l
  {
    if l != [] {
      assert l == [l[0]] + l[1..];
      NoDuplicatesCons(l[0], l[1..]);
      WithoutElements(l[1..], x);
    }
  }

  lemma DistinctAppend<T(!new)>(h: seq<T>, y: T)
    ensures Distinct(h + [y]) == if y in Distinct(h) then Distinct(h) else Distinct(h) + [y]
  {
    assert (h + [y])[..|h|] == h;
  }

  // Using x again moves it to the front of the distinct list.
  lemma {:induction false} DistinctUse<T(!new)>(h: seq<T>, x: T)
    ensures Distinct([x] + h) == [x] + Without(Distinct(h), x)
  {
    if h == [] {
      DistinctAppend([], x);
      assert [x] + h == [] + [x];
    } else {
      var init, y := h[..|h| - 1], h[|h| - 1];
      DistinctUse(init, x);
      DistinctAppend([x] + init, y);
      assert [x] + init + [y] == [x] + h;
      DistinctAppend(init, y);
      assert init + [y] == h;
      DistinctElements(init);
      UseAppend(Distinct(init), y, x);
    }
  }

  lemma UseAppend<T(!new)>(d: seq<T>, y: T, x: T)
    requires NoDuplicates(d)
    ensures var used := [x] + Without(d, x);
      [x] + Without(if y in d then d else d + [y], x) == if y in used then used else used + [y]
  {
    WithoutElements(d, x);
    WithoutAppend(d, y, x);
  }

  function Elements<T(==)>(h: seq<T>): set<T> {
    set x | x in h
  }

  // x is at the place given by the number of different elements before its first occurrence.
  lemma {:induction false} DistinctPlace<T(!new)>(h: seq<T>, k: nat)
    requires k < |h| && h[k] !in h[..k]
    ensures |Elements(h[..k])| < |Distinct(h)| && Distinct(h)[|Elements(h[..k])|] == h[k]
  {
    var init := h[..|h| - 1];
    if k < |h| - 1 {
      assert init[..k] == h[..k];
      DistinctPlace(init, k);
    } else {
      DistinctElements(init);
      DistinctSize(init);
    }
  }

  lemma {:induction false} DistinctSize<T(!new)>(h: seq<T>)
    ensures |Distinct(h)| == |Elements(h)|
  {
    if h != [] {
      var init, y := h[..|h| - 1], h[|h| - 1];
      DistinctSize(init);
      DistinctElements(init);
      assert h == init + [y];
      if y in init {
        assert Elements(h) == Elements(init);
      } else {
        assert Elements(h) == Elements(init) + {y} && y !in Elements(init);
      }
    }
  }

  /* ---- Trimming ---- */

  lemma FoldersPrefix(servers: seq<Server>, n: nat, i: nat)
    requires NoDuplicates(servers) && n <= i < |servers|
    ensures FolderOf(servers[i]) !in FoldersOf(servers[..n])
  {
    forall j | 0 <= j < n
      ensures FolderOf(servers[j]) != FolderOf(servers[i])
    {
      FoldersDiffer(servers[j], servers[i]);
    }
  }

  function FirstOf(l: seq<Server>, n: nat): seq<Server> {
    if |l| <= n then l else l[..n]
  }

  function Rest(l: seq<Server>, n: nat): seq<Server> {
    if |l| <= n then [] else l[n..]
  }

  // Trimming goes through exactly when every folder it has to delete is there;
  // it then deletes those and no others.
  lemma {:induction false} TrimExactly(servers: seq<Server>, disk: set<Folder>, max: nat)
    requires NoDuplicates(servers)
    ensures TrimList(servers, disk, max).ok <==> FoldersOf(Rest(servers, max)) <= disk
    ensures TrimList(servers, disk, max).ok ==>
      TrimList(servers, disk, max) == Trimmed(FirstOf(servers, max), disk - FoldersOf(Rest(servers, max)), true)
    ensures disk - FoldersOf(Rest(servers, max)) <= TrimList(servers, disk, max).disk <= disk
  {
    if |servers| > max {
      var k := |servers| - 1;
      var init, last := servers[..k], FolderOf(servers[k]);
      DroppedFolders(servers, max);
      Peel(disk, last, FoldersOf(Rest(init, max)));
      Minus(disk, last, FoldersOf(Rest(init, max)));
      if last in disk {
        TrimExactly(init, disk - {last}, max);
        assert FirstOf(init, max) == FirstOf(servers, max);
      }
    }
  }

  // The folder at place i is missing, those behind it are there.
  ghost predicate LastMissing(servers: seq<Server>, disk: set<Folder>, i: nat) {
    && i < |servers| && FolderOf(servers[i]) !in disk
    && forall j :: i < j < |servers| ==> FolderOf(servers[j]) in disk
  }

  // When trimming fails, a folder past the limit is missing, and exactly the folders
  // behind the last missing one have been deleted.
  lemma {:induction false} TrimStops(servers: seq<Server>, disk: set<Folder>, max: nat) returns (i: nat)
    requires NoDuplicates(servers) && !TrimList(servers, disk, max).ok
    ensures i >= max && LastMissing(servers, disk, i)
    ensures TrimList(servers, disk, max).disk == disk - FoldersOf(servers[i + 1..])
  {
    var k := |servers| - 1;
    var init, last := servers[..k], FolderOf(servers[k]);
    if last !in disk {
      i := k;
      assert FoldersOf(servers[i + 1..]) == {};
    } else {
      assert TrimList(servers, disk, max) == TrimList(init, disk - {last}, max) && NoDuplicates(init);
      i := TrimStops(init, disk - {last}, max);
      StillMissing(servers, disk, i);
      DeletedAlso(servers, disk, i);
    }
  }

  lemma DeletedAlso(servers: seq<Server>, disk: set<Folder>, i: nat)
    requires i + 1 < |servers|
    ensures var k := |servers| - 1;
      disk - {FolderOf(servers[k])} - FoldersOf(servers[..k][i + 1..]) == disk - FoldersOf(servers[i + 1..])
  {
    var k := |servers| - 1;
    assert servers[i + 1..] == servers[..k][i + 1..] + [servers[k]];
    DeletedBehind(servers[..k][i + 1..], servers[k], disk);
  }

  lemma StillMissing(servers: seq<Server>, disk: set<Folder>, i: nat)
    requires NoDuplicates(servers) && servers != [] && FolderOf(servers[|servers| - 1]) in disk
    requires LastMissing(servers[..|servers| - 1], disk - {FolderOf(servers[|servers| - 1])}, i)
    ensures LastMissing(servers, disk, i)
  {
    var k := |servers| - 1;
    FoldersDiffer(servers[i], servers[k]);
    forall j | i < j < k
      ensures FolderOf(servers[j]) in disk
    {
      assert servers[..k][j] == servers[j];
    }
  }

  lemma DeletedBehind(behind: seq<Server>, last: Server, disk: set<Folder>)
    ensures disk - {FolderOf(last)} - FoldersOf(behind) == disk - FoldersOf(behind + [last])
  {
    FoldersAppend(behind, last);
    Minus(disk, FolderOf(last), FoldersOf(behind));
  }

  lemma Minus(disk: set<Folder>, last: Folder, gone: set<Folder>)
    ensures disk - {last} - gone == disk - (gone + {last})
  {
  }

  lemma Peel(disk: set<Folder>, last: Folder, gone: set<Folder>)
    requires last !in gone
    ensures last !in disk ==> !(gone + {last} <= disk)
    ensures last in disk ==> (gone <= disk - {last} <==> gone + {last} <= disk)
  {
  }

  lemma DroppedFolders(servers: seq<Server>, max: nat)
    requires NoDuplicates(servers) && max < |servers|
    ensures var init, last := servers[..|servers| - 1], FolderOf(servers[|servers| - 1]);
      && NoDuplicates(init) && last !in FoldersOf(Rest(init, max))
      && FoldersOf(Rest(servers, max)) == FoldersOf(Rest(init, max)) + {last}
  {
    var k := |servers| - 1;
    var init, last := servers[..k], FolderOf(servers[k]);
    forall i | 0 <= i < |Rest(init, max)|
      ensures FolderOf(Rest(init, max)[i]) != last
    {
      FoldersDiffer(servers[max + i], servers[k]);
    }
    assert Rest(servers, max) == Rest(init, max) + [servers[k]];
    FoldersAppend(Rest(init, max), servers[k]);
  }

  lemma FoldersAppend(servers: seq<Server>, server: Server)
    ensures FoldersOf(servers + [server]) == FoldersOf(servers) + {FolderOf(server)}
  {
    var l := servers + [server];
    assert l[|servers|] == server;
    assert forall i :: 0 <= i < |servers| ==> l[i] == servers[i];
  }

  /* ---- Runs ---- */

  // The list is what the history says, up to a length of at least the limit.
  ghost predicate Remembers(s: State, h: seq<Server>) {
    && Load(s) <= Distinct(h)
    && |Load(s)| >= |FirstOf(Distinct(h), MAX_RETAINED_SERVERS)|
    && (s.cached.Some? ==> s.file == s.cached)
  }

  lemma {:induction false} WithoutPrefix<T(!new)>(l: seq<T>, d: seq<T>, x: T)
    requires l <= d && NoDuplicates(d)
    ensures Without(l, x) <= Without(d, x)
    ensures |Without(l, x)| == |l| - if x in l then 1 else 0
  {
    if l != [] {
      assert l[0] == d[0] && l == [l[0]] + l[1..];
      if l[0] != x {
        assert d == [d[0]] + d[1..];
        NoDuplicatesCons(d[0], d[1..]);
        WithoutPrefix(l[1..], d[1..], x);
      }
    }
  }

  // The list after a server has been added.
  lemma AddedPrefix(s: State, h: seq<Server>, server: Server)
    requires Remembers(s, h)
    ensures MoveToFront(Load(s), server) <= Distinct([server] + h)
    ensures |MoveToFront(Load(s), server)| >= |FirstOf(Distinct([server] + h), MAX_RETAINED_SERVERS)|
    ensures NoDuplicates(MoveToFront(Load(s), server))
  {
    var l, d := Load(s), Distinct(h);
    DistinctUse(h, server);
    DistinctElements(h);
    WithoutPrefix(l, d, server);
    WithoutPrefix(d, d, server);
    DistinctElements([server] + h);
  }

  lemma SetupRemembers(s: State, h: seq<Server>, server: Server)
    requires Remembers(s, h)
    ensures Remembers(Setup(s, server), [server] + h)
  {
    AddedPrefix(s, h, server);
    var l := MoveToFront(Load(s), server);
    TrimExactly(l, s.disk + {FolderOf(server)}, MAX_RETAINED_SERVERS);
  }

  lemma {:induction false} RunRemembers(events: seq<Event>)
    ensures Remembers(After(INIT, events), History(events))
  {
    if events != [] {
      var before, e := events[..|events| - 1], events[|events| - 1];
      RunRemembers(before);
      if e.SetUp? {
        SetupRemembers(After(INIT, before), History(before), e.server);
      }
    }
  }

  // In every run, with folders pruned at any time: the list has no duplicates,
  // holds the servers used last in the order of their last use, at least
  // MAX_RETAINED_SERVERS of them if there are that many, and the cache agrees with the file.
  lemma RetainedInOrder(events: seq<Event>)
    ensures var l, d := Load(After(INIT, events)), Distinct(History(events));
      NoDuplicates(l) && l <= d && |l| >= |FirstOf(d, MAX_RETAINED_SERVERS)|
    ensures After(INIT, events).cached.Some? ==> After(INIT, events).file == After(INIT, events).cached
  {
    RunRemembers(events);
    DistinctElements(History(events));
  }

  ghost predicate Undisturbed(s: State, h: seq<Server>) {
    Load(s) == FirstOf(Distinct(h), MAX_RETAINED_SERVERS) && s.disk == FoldersOf(Load(s))
  }

  lemma SetupUndisturbed(s: State, h: seq<Server>, server: Server)
    requires Remembers(s, h) && Undisturbed(s, h)
    ensures Undisturbed(Setup(s, server), [server] + h)
  {
    var l := MoveToFront(Load(s), server);
    AddedPrefix(s, h, server);
    DistinctElements(h);
    AddedFolders(Load(s), server);
    if |l| > MAX_RETAINED_SERVERS {
      TrimFolders(s.(disk := FoldersOf(l)), l);
    }
  }

  // Trimming a list whose folders are all there, and no others.
  lemma TrimFolders(s: State, l: seq<Server>)
    requires NoDuplicates(l) && |l| > MAX_RETAINED_SERVERS && s.disk == FoldersOf(l)
    ensures var s' := Trim(Save(s, l), MAX_RETAINED_SERVERS);
      Load(s') == FirstOf(l, MAX_RETAINED_SERVERS) && s'.disk == FoldersOf(Load(s'))
  {
    TrimExactly(l, s.disk, MAX_RETAINED_SERVERS);
    SplitFolders(l, MAX_RETAINED_SERVERS);
  }

  lemma AddedFolders(servers: seq<Server>, server: Server)
    requires NoDuplicates(servers)
    ensures FoldersOf(MoveToFront(servers, server)) == FoldersOf(servers) + {FolderOf(server)}
  {
    var l := MoveToFront(servers, server);
    WithoutElements(servers, server);
    forall f | f in FoldersOf(l)
      ensures f in FoldersOf(servers) + {FolderOf(server)}
    {
      var i :| 0 <= i < |l| && f == FolderOf(l[i]);
      if i > 0 {
        assert l[i] in Without(servers, server) && l[i] in servers;
      }
    }
    forall f | f in FoldersOf(servers) + {FolderOf(server)}
      ensures f in FoldersOf(l)
    {
      assert l[0] == server;
      if f != FolderOf(server) {
        var i :| 0 <= i < |servers| && f == FolderOf(servers[i]);
        assert servers[i] in Without(servers, server);
        assert servers[i] in l;
      }
    }
  }

  lemma SplitFolders(l: seq<Server>, n: nat)
    requires NoDuplicates(l) && n <= |l|
    ensures FoldersOf(l[n..]) <= FoldersOf(l)
    ensures FoldersOf(l) - FoldersOf(l[n..]) == FoldersOf(l[..n])
  {
    forall i | 0 <= i < |l[n..]|
      ensures FolderOf(l[n..][i]) in FoldersOf(l) && FolderOf(l[n..][i]) !in FoldersOf(l[..n])
    {
      FoldersPrefix(l, n, n + i);
      assert l[n..][i] == l[n + i];
    }
    forall i | 0 <= i < n
      ensures FolderOf(l[i]) in FoldersOf(l) && FolderOf(l[i]) in FoldersOf(l[..n])
    {
      assert l[..n][i] == l[i];
    }
    forall i | 0 <= i < |l|
      ensures FolderOf(l[i]) in FoldersOf(l[n..]) || FolderOf(l[i]) in FoldersOf(l[..n])
    {
      if i >= n {
        assert l[n..][i - n] == l[i];
      }
    }
  }

  // As long as nothing else deletes folders, the list is exactly the first
  // MAX_RETAINED_SERVERS different servers of the history, and the install
  // folders are exactly theirs.
  lemma {:induction false} RetainedExactly(events: seq<Event>)
    requires forall e :: e in events ==> !e.Prune?
    ensures Load(After(INIT, events)) == FirstOf(Distinct(History(events)), MAX_RETAINED_SERVERS)
    ensures After(INIT, events).disk == FoldersOf(Load(After(INIT, events)))
  {
    if events != [] {
      var before, e := events[..|events| - 1], events[|events| - 1];
      assert e in events && forall b :: b in before ==> b in events;
      RetainedExactly(before);
      RunRemembers(before);
      if e.SetUp? {
        SetupUndisturbed(After(INIT, before), History(before), e.server);
      }
    }
  }

  // A server is retained exactly if fewer than MAX_RETAINED_SERVERS different
  // servers were set up since it was set up last, k set-ups ago.
  lemma RetainedIff(events: seq<Event>, k: nat)
    requires forall e :: e in events ==> !e.Prune?
    requires k < |History(events)| && History(events)[k] !in History(events)[..k]
    ensures History(events)[k] in Load(After(INIT, events)) <==> |Elements(History(events)[..k])| < 5
  {
    var h := History(events);
    RetainedExactly(events);
    DistinctPlace(h, k);
    DistinctElements(h);
  }

  /* ---- When trimming gives up ---- */

  // x is listed past the limit and its folder is gone.
  ghost predicate Stuck(s: State, x: Server) {
    && FolderOf(x) !in s.disk && x in Load(s) && x !in FirstOf(Load(s), MAX_RETAINED_SERVERS)
    && (s.cached.Some? ==> s.file == s.cached) && NoDuplicates(Load(s))
  }

  lemma {:induction false} WithoutPlace<T>(l: seq<T>, y: T, i: nat) returns (j: nat)
    requires i < |l| && l[i] != y
    ensures i - 1 <= j <= i && j < |Without(l, y)| && Without(l, y)[j] == l[i]
  {
    if l[0] == y {
      j := i - 1;
    } else if i == 0 {
      j := 0;
    } else {
      j := WithoutPlace(l[1..], y, i - 1);
      j := j + 1;
    }
  }

  lemma {:induction false} WithoutNoDuplicates<T(!new)>(l: seq<T>, y: T)
    requires NoDuplicates(l)
    ensures NoDuplicates([y] + Without(l, y))
  {
    WithoutElements(l, y);
    NoDuplicatesCons(y, Without(l, y));
    if l != [] {
      assert l == [l[0]] + l[1..];
      NoDuplicatesCons(l[0], l[1..]);
      if l[0] != y {
        WithoutElements(l[1..], y);
        WithoutNoDuplicates(l[1..], y);
        NoDuplicatesCons(y, Without(l[1..], y));
        NoDuplicatesCons(l[0], Without(l[1..], y));
      }
    }
  }

  // Trimming fails on the list l when x is past the limit and its folder is gone.
  lemma TrimFails(l: seq<Server>, disk: set<Folder>, i: nat)
    requires NoDuplicates(l) && MAX_RETAINED_SERVERS <= i < |l| && FolderOf(l[i]) !in disk
    ensures !TrimList(l, disk, MAX_RETAINED_SERVERS).ok && TrimList(l, disk, MAX_RETAINED_SERVERS).disk <= disk
    ensures l[i] in l && l[i] !in FirstOf(l, MAX_RETAINED_SERVERS)
  {
    TrimExactly(l, disk, MAX_RETAINED_SERVERS);
    assert Rest(l, MAX_RETAINED_SERVERS)[i - MAX_RETAINED_SERVERS] == l[i];
  }

  lemma SetupFails(s: State, server: Server)
    requires var t := TrimList(MoveToFront(Load(s), server), s.disk + {FolderOf(server)}, MAX_RETAINED_SERVERS); !t.ok
    ensures var l := MoveToFront(Load(s), server);
      var t := TrimList(l, s.disk + {FolderOf(server)}, MAX_RETAINED_SERVERS);
      Setup(s, server) == State(Some(l), Some(l), t.disk)
  {
  }

  // x goes back in the list by at most one place.
  lemma PlaceAfterMove(l: seq<Server>, server: Server, x: Server) returns (i: nat)
    requires NoDuplicates(l) && x in l && x !in FirstOf(l, MAX_RETAINED_SERVERS) && server != x
    ensures MAX_RETAINED_SERVERS <= i < |MoveToFront(l, server)| && MoveToFront(l, server)[i] == x
    ensures NoDuplicates(MoveToFront(l, server))
  {
    assert l == FirstOf(l, MAX_RETAINED_SERVERS) + Rest(l, MAX_RETAINED_SERVERS);
    var k :| 0 <= k < |Rest(l, MAX_RETAINED_SERVERS)| && Rest(l, MAX_RETAINED_SERVERS)[k] == x;
    var j := WithoutPlace(l, server, MAX_RETAINED_SERVERS + k);
    i := j + 1;
    WithoutNoDuplicates(l, server);
  }

  lemma StuckSetup(s: State, server: Server, x: Server)
    requires Stuck(s, x) && server != x
    ensures Stuck(Setup(s, server), x)
    ensures Load(Setup(s, server)) == MoveToFront(Load(s), server)
  {
    var i := PlaceAfterMove(Load(s), server, x);
    FoldersDiffer(x, server);
    TrimFails(MoveToFront(Load(s), server), s.disk + {FolderOf(server)}, i);
    SetupFails(s, server);
  }

  ghost predicate Lists(s: State, y: Server) {
    y in Load(s)
  }

  lemma StuckStep(s: State, e: Event, x: Server)
    requires Stuck(s, x) && e != SetUp(x)
    ensures Stuck(Step(s, e), x)
    ensures forall y :: Lists(s, y) || e == SetUp(y) ==> Lists(Step(s, e), y)
  {
    if e.SetUp? {
      StuckSetup(s, e.server, x);
      WithoutElements(Load(s), e.server);
      forall y | Lists(s, y) || e == SetUp(y)
        ensures y in MoveToFront(Load(s), e.server)
      {
        assert MoveToFront(Load(s), e.server)[0] == e.server;
        assert y != e.server ==> y in Without(Load(s), e.server);
      }
    }
  }

  lemma {:induction false} StuckForever(s: State, more: seq<Event>, x: Server)
    requires Stuck(s, x) && SetUp(x) !in more
    ensures Stuck(After(s, more), x)
  {
    if more != [] {
      var before, e := more[..|more| - 1], more[|more| - 1];
      assert more == before + [e];
      StuckForever(s, before, x);
      StuckStep(After(s, before), e, x);
    }
  }

  // From then on nothing is dropped, whatever is set up, pruned or reopened,
  // until x itself is set up again.
  lemma {:induction false} NothingDropped(s: State, more: seq<Event>, x: Server, y: Server)
    requires Stuck(s, x) && SetUp(x) !in more
    requires Lists(s, y) || SetUp(y) in more
    ensures Lists(After(s, more), y)
  {
    if more != [] {
      var before, e := more[..|more| - 1], more[|more| - 1];
      assert more == before + [e];
      StuckForever(s, before, x);
      StuckStep(After(s, before), e, x);
      if e != SetUp(y) {
        NothingDropped(s, before, x, y);
      }
    }
  }

  // It takes one prune of the oldest of five retained servers and one new server.
  lemma PruneSticks(events: seq<Event>, server: Server)
    requires |Load(After(INIT, events))| == MAX_RETAINED_SERVERS && server !in Load(After(INIT, events))
    ensures var s := After(INIT, events);
      var x := Load(s)[MAX_RETAINED_SERVERS - 1];
      Stuck(Step(Step(s, Prune({FolderOf(x)})), SetUp(server)), x)
  {
    RunRemembers(events);
    DistinctElements(History(events));
    var s := After(INIT, events);
    var x := Load(s)[MAX_RETAINED_SERVERS - 1];
    var pruned := Step(s, Prune({FolderOf(x)}));
    NewSticks(pruned, server);
  }

  lemma NewSticks(s: State, server: Server)
    requires |Load(s)| == MAX_RETAINED_SERVERS && server !in Load(s) && NoDuplicates(Load(s))
    requires FolderOf(Load(s)[MAX_RETAINED_SERVERS - 1]) !in s.disk
    ensures Stuck(Setup(s, server), Load(s)[MAX_RETAINED_SERVERS - 1])
  {
    var l := Load(s);
    FoldersDiffer(l[MAX_RETAINED_SERVERS - 1], server);
    WithoutElements(l, server);
    WithoutNoDuplicates(l, server);
    TrimFails(MoveToFront(l, server), s.disk + {FolderOf(server)}, MAX_RETAINED_SERVERS);
    SetupFails(s, server);
  }

  /* ---- The code ---- */

  class PersistedState<T> {
    const initial: T    // the default of the type
    var state: Option<T>
    var file: Option<T>

    ghost function Current(): T
      reads this
    {
      if state.Some? then state.value else if file.Some? then file.value else initial
    }

    constructor (initial: T, file: Option<T>)
      ensures this.initial == initial && this.file == file && state == None
    {
      this.initial, this.file, state := initial, file, None;
    }

    method LoadOrGet() returns (value: T)
      modifies this`state
      ensures value == old(Current()) && state == Some(value) && Current() == value
    {
      if state.Some? {
        return state.value;
      }
      value := if file.Some? then file.value else initial;
      state := Some(value);
    }

    method Save(value: T)
      modifies this
      ensures state == file == Some(value) && Current() == value
    {
      state := Some(value);
      file := Some(value);
    }

    method UpdateWith<V, R>(v: V, mutator: (V, T) -> (R, T)) returns (r: R)
      modifies this
      ensures r == mutator(v, old(Current())).0
      ensures state == file == Some(mutator(v, old(Current())).1)
    {
      var value := LoadOrGet();
      var (result, mutated) := mutator(v, value);
      Save(mutated);
      return result;
    }
  }

  class LastUsedServers {
    const state: PersistedState<seq<Server>>
    var disk: set<Folder>

    ghost function View(): State
      reads this, state
    {
      State(state.state, state.file, disk)
    }

    ghost predicate Valid()
      reads this, state
    {
      state.initial == [] && state.Current() == Load(View())
    }

    constructor (file: Option<seq<Server>>, disk: set<Folder>)
      ensures Valid() && View() == State(None, file, disk) && fresh(state)
    {
      state := new PersistedState([], file);
      this.disk := disk;
    }

    method Add(server: Server) returns (count: nat)
      requires Valid()
      modifies state
      ensures Valid() && View() == Save(old(View()), MoveToFront(Load(old(View())), server))
      ensures count == |Load(View())|
    {
      count := state.UpdateWith(server, (server: Server, l: seq<Server>) =>
        (|MoveToFront(l, server)|, MoveToFront(l, server)));
    }

    // False when a folder cannot be deleted.
    method TrimTo(max: nat) returns (ok: bool)
      requires Valid()
      modifies this, state
      ensures Valid() && View() == Trim(old(View()), max)
      ensures ok == TrimList(Load(old(View())), old(disk), max).ok
    {
      var servers := state.LoadOrGet();
      ghost var before := TrimList(servers, disk, max);
      while |servers| > max
        invariant TrimList(servers, disk, max) == before
        invariant state.state == Some(Load(old(View()))) && state.file == old(state.file)
      {
        var server := servers[|servers| - 1];
        servers := servers[..|servers| - 1];
        if FolderOf(server) !in disk {
          return false;
        }
        disk := disk - {FolderOf(server)};
      }
      state.Save(servers);
      return true;
    }

    // The part of setting up a server that concerns this list.
    method SetUpServer(server: Server)
      requires Valid()
      modifies this, state
      ensures Valid() && View() == Setup(old(View()), server)
    {
      disk := disk + {FolderOf(server)};
      var count := Add(server);
      if count > MAX_RETAINED_SERVERS {
        var _ := TrimTo(MAX_RETAINED_SERVERS);
      }
    }
  }
}
