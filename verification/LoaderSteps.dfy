/** The invariant is kept by the steps of the machine, one lemma a step. */
module LoaderSteps {
  import opened Graphs
  import opened LoaderModel
  import opened LoaderInvariant
  import opened LoaderKeeps

  /* ---- Nothing that is waited for is forgotten ---- */

  ghost predicate Feeds(s: State, t: State) {
    forall f :: f in s.stack && f.Feeding? && f.resources != [] ==> f in t.stack
  }

  ghost predicate NotifiesStill(s: State, t: State) {
    forall p :: NotifyingFor(s, p) ==> NotifyingFor(t, p)
  }

  ghost predicate NotifyingFor(s: State, p: Id) {
    exists f :: f in s.stack && f.Notifying? && f.owner == p
  }

  lemma RequestedKept(s: State, t: State)
    requires Holds(s, Requests)
    requires forall d: Id, x: Id :: Edge(t.inverse, d, x) ==> Edge(s.inverse, d, x)
    requires forall d :: s.Requested(d) ==> t.Requested(d)
    requires t.pluginWaits == s.pluginWaits
    requires Feeds(s, t) && NotifiesStill(s, t)
    requires forall p :: Done(t, p) ==> Done(s, p) || NotifyingFor(t, p)
    ensures Holds(t, Requests)
  {
    forall d: Id, x: Id | Edge(t.inverse, d, x)
      ensures t.Requested(d) || Parked(t, d) || Fed(t, d)
    {
      assert Edge(s.inverse, d, x);
      if Fed(s, d) {
        var f, e :| f in s.stack && f.Feeding? && e in f.resources && e.Target() == d;
        assert f in t.stack;
      } else if Parked(s, d) {
        var p, e :| p in s.pluginWaits && e in s.pluginWaits[p] && e.Target() == d;
        assert e in t.pluginWaits[p];
      }
    }
    forall p | p in t.pluginWaits && Done(t, p)
      ensures exists f :: f in t.stack && f.Notifying? && f.owner == p
    {
      assert Done(s, p) ==> NotifyingFor(s, p);
      assert NotifyingFor(t, p);
    }
  }

  // Asking for d settles the wait on d, whatever d's own state.
  lemma LoadKeeps(s: State, d: Id)
    requires Core(s)
    ensures Core(s.Load(d))
    ensures Holds(s, Requests) ==> Holds(s.Load(d), Requests)
  {
    if !s.Requested(d) {
      var t := s.Load(d);
      RestackedCore(s, t, [Loading(d)]);
      if Holds(s, Requests) {
        assert forall f :: f in s.stack ==> f in t.stack;
        assert forall p :: NotifyingFor(s, p) ==> NotifyingFor(t, p);
        RequestedKept(s, t);
      }
    }
  }

  // Requests are complete but for the dependency d.
  ghost predicate RequestedBut(s: State, d: Id) {
    && (forall c: Id, x: Id :: Edge(s.inverse, c, x) && c != d ==> s.Requested(c) || Parked(s, c) || Fed(s, c))
    && (forall p, e :: p in s.pluginWaits && e in s.pluginWaits[p] ==> e.Plugin? && e.pluginId == p)
    && (forall p :: p in s.pluginWaits ==> s.Requested(p))
    && (forall p :: p in s.pluginWaits && Done(s, p) ==> NotifyingFor(s, p))
  }

  lemma LoadKeepsBut(s: State, e: Id, d: Id)
    requires RequestedBut(s, d)
    ensures RequestedBut(s.Load(e), d)
  {
    var t := s.Load(e);
    assert forall f :: f in s.stack ==> f in t.stack;
    forall c: Id, x: Id | Edge(t.inverse, c, x) && c != d
      ensures t.Requested(c) || Parked(t, c) || Fed(t, c)
    {
      assert Edge(s.inverse, c, x);
      if Parked(s, c) {
        var p, e :| p in s.pluginWaits && e in s.pluginWaits[p] && e.Target() == c;
        assert e in t.pluginWaits[p];
      } else if Fed(s, c) {
        var f, e :| f in s.stack && f.Feeding? && e in f.resources && e.Target() == c;
        assert f in t.stack;
      }
    }
    forall p | p in t.pluginWaits && Done(t, p)
      ensures NotifyingFor(t, p)
    {
      assert Done(s, p) && NotifyingFor(s, p);
    }
  }

  lemma CloseRequested(s: State, d: Id)
    requires RequestedBut(s, d) && (s.Requested(d) || Parked(s, d) || Fed(s, d))
    ensures Holds(s, Requests)
  {
    forall p | p in s.pluginWaits && Done(s, p)
      ensures exists f :: f in s.stack && f.Notifying? && f.owner == p
    {
      assert NotifyingFor(s, p);
    }
  }

  lemma LoadRequests(s: State, d: Id)
    requires RequestedBut(s, d)
    ensures Holds(s.Load(d), Requests)
  {
    LoadKeepsBut(s, d, d);
    CloseRequested(s.Load(d), d);
  }

  lemma ParkRequests(s: State, d: Dependency)
    requires d.Plugin? && RequestedBut(s, d.resourceId) && s.Requested(d.pluginId) && !Done(s, d.pluginId)
    ensures Holds(s.Park(d), Requests)
  {
    var t := s.Park(d);
    assert d in t.pluginWaits[d.pluginId];
    assert d.Target() == d.resourceId && Parked(t, d.resourceId);
    assert forall p :: p in s.pluginWaits ==> forall e :: e in s.pluginWaits[p] ==> e in t.pluginWaits[p];
    forall c: Id, x: Id | Edge(t.inverse, c, x) && c != d.resourceId
      ensures t.Requested(c) || Parked(t, c) || Fed(t, c)
    {
      assert Edge(s.inverse, c, x);
      if Parked(s, c) {
        var p, e :| p in s.pluginWaits && e in s.pluginWaits[p] && e.Target() == c;
        assert e in t.pluginWaits[p];
      } else if Fed(s, c) {
        var f, e :| f in s.stack && f.Feeding? && e in f.resources && e.Target() == c;
        assert f in t.stack;
      }
    }
    forall p | p in t.pluginWaits && Done(t, p)
      ensures NotifyingFor(t, p)
    {
      assert Done(s, p) && NotifyingFor(s, p);
    }
    CloseRequested(t, d.resourceId);
  }

  // A state that differs only in parked plugin resources.
  lemma ParkCore(s: State, d: Dependency)
    requires Core(s) && d.Plugin?
    ensures Core(s.Park(d))
  {
    RestackedCore(s, s.Park(d), []);
  }

  /* ---- Steps of the loader ---- */

  lemma ResolveEndKeeps(s: State, m: Id)
    requires Inv(s) && s.stack != [] && s.stack[0] == Resolving(m, []) && m in s.modules
    ensures Inv(ResolveEnd(s, m))
  {
    var t := ResolveEnd(s, m);
    if s.modules[m].unresolved == 0 {
      RestackedCore(s, t, [Completing(m)]);
    } else {
      RestackedCore(s, t, []);
    }
    PoppedRequested(s, t);
  }

  // The top frame has gone, and it was neither a loop over waiting modules nor one over resources.
  lemma PoppedRequested(s: State, t: State)
    requires Holds(s, Requests) && s.stack != []
    requires !s.stack[0].Notifying? && (s.stack[0].Feeding? ==> s.stack[0].resources == [])
    requires forall f :: f in s.stack[1..] ==> f in t.stack
    requires t.inverse == s.inverse && t.pluginWaits == s.pluginWaits && s.known <= t.known
    requires t.modules.Keys == s.modules.Keys
    requires forall p :: Done(t, p) ==> Done(s, p) || NotifyingFor(t, p)
    ensures Holds(t, Requests)
  {
    assert s.stack == [s.stack[0]] + s.stack[1..];
    forall p | NotifyingFor(s, p)
      ensures NotifyingFor(t, p)
    {
      var f :| f in s.stack && f.Notifying? && f.owner == p;
      assert f in t.stack;
    }
    RequestedKept(s, t);
  }

  lemma FailKeeps(s: State, m: Id)
    requires Inv(s) && s.stack != [] && s.stack[0].Resolving? && s.stack[0].owner == m && m in s.modules
    ensures Inv(s.Fail(m).Pop())
  {
    MarkedCore(s, s.Fail(m), {m});
    RestackedCore(s.Fail(m), s.Fail(m).Pop(), []);
    PoppedRequested(s, s.Fail(m).Pop());
  }

  lemma CutKeeps(s: State, t: State, m: Id, d: Dependency)
    requires Core(s) && m in s.modules && m in s.declared && d in s.declared[m]
    requires Reach(DependencyGraph(s.modules), d.Target(), m)
    requires t.declared == s.declared && t.cut == s.cut + {(m, d.Target())}
    ensures CutsOnCycles(t)
  {
    assert Holds(s, Scopes) && Holds(s, Cuts);
    var h := DeclaredGraph(s.declared);
    var i :| 0 <= i < |s.declared[m]| && s.declared[m][i] == d;
    assert Targets(s.declared[m])[i] == d.Target();
    ReachMonotone(DependencyGraph(s.modules), h, d.Target(), m);
  }

  lemma CountedDownKeeps(s: State, t: State, x: Id, top: Frame, cut: set<(Id, Id)>)
    requires Inv(s) && CountedDown(s, t, x, top, cut) && CutsOnCycles(t)
    requires s.stack[0].Resolving? ==> s.stack[0].rest[0].IsPseudo() || Ran(s, s.stack[0].rest[0].Target())
                                       || (x, s.stack[0].rest[0].Target()) in cut
    requires t.pluginWaits == s.pluginWaits && t.known == s.known
    ensures Inv(t)
  {
    CountedDownCore(s, t, x, top, cut);
    CountedDownStack(s, t, x, top, cut);
    forall p | NotifyingFor(s, p)
      ensures NotifyingFor(t, p)
    {
      var f :| f in s.stack && f.Notifying? && f.owner == p;
      assert f in t.stack || top.owner == p;
    }
    RequestedKept(s, t);
  }

  lemma AwaitKeeps(s: State, m: Id, d: Dependency, rest: seq<Dependency>)
    requires Inv(s) && s.stack != [] && s.stack[0] == Resolving(m, [d] + rest) && m in s.modules
    requires !d.IsPseudo() && !s.Complete(d.Target())
    requires !Reach(DependencyGraph(s.modules), d.Target(), m)
    ensures Inv(Await(s.Swap(Resolving(m, rest)), m, d))
  {
    var t := s.Swap(Resolving(m, rest)).(inverse := AddEdge(s.inverse, d.Target(), m));
    WaitingCore(s, t, m, d, rest);
    WaitingRequested(s, t, m, d, rest);
    if d.Regular? {
      LoadKeeps(t, d.regularId);
      LoadRequests(t, d.regularId);
    } else if s.Complete(d.pluginId) {
      LoadKeeps(t, d.resourceId);
      LoadRequests(t, d.resourceId);
    } else {
      LoadKeeps(t, d.pluginId);
      LoadKeepsBut(t, d.pluginId, d.resourceId);
      var u := t.Load(d.pluginId);
      assert !Done(u, d.pluginId) by {
        assert Holds(s, Lives);
        assert Ran(u, d.pluginId) == Ran(s, d.pluginId);
      }
      ParkCore(u, d);
      ParkRequests(u, d);
      assert u.Park(d) == t.Park(d).Load(d.pluginId);
    }
  }

  lemma WaitingRequested(s: State, t: State, m: Id, d: Dependency, rest: seq<Dependency>)
    requires Holds(s, Requests) && Waiting(s, t, m, d, rest)
    ensures RequestedBut(t, d.Target())
  {
    WaitingStack(s, t, m, d, rest);
    forall p | NotifyingFor(s, p)
      ensures NotifyingFor(t, p)
    {
      var f :| f in s.stack && f.Notifying? && f.owner == p;
      assert f in t.stack;
    }
    forall p | p in t.pluginWaits && Done(t, p)
      ensures NotifyingFor(t, p)
    {
      assert NotifyingFor(s, p);
    }
    forall c: Id, x: Id | Edge(t.inverse, c, x) && c != d.Target()
      ensures t.Requested(c) || Parked(t, c) || Fed(t, c)
    {
      assert Edge(s.inverse, c, x);
      if Parked(s, c) {
        var p, e :| p in s.pluginWaits && e in s.pluginWaits[p] && e.Target() == c;
        assert e in t.pluginWaits[p];
      } else if Fed(s, c) {
        var f, e :| f in s.stack && f.Feeding? && e in f.resources && e.Target() == c;
        assert f in t.stack;
      }
    }
  }

  lemma CompleteRan(s: State, x: Id)
    requires Core(s) && s.Complete(x) && !s.modules[x].error
    ensures Ran(s, x)
  {
    assert Holds(s, Lives);
  }

  lemma SameCuts(s: State, t: State)
    requires Core(s) && t.cut == s.cut && t.declared == s.declared
    ensures CutsOnCycles(t)
  {
    assert Holds(s, Cuts);
  }

  lemma TopDeclared(s: State, m: Id, d: Dependency, rest: seq<Dependency>)
    requires Core(s) && s.stack != [] && s.stack[0] == Resolving(m, [d] + rest)
    ensures m in s.declared && d in s.declared[m]
  {
    assert Holds(s, Scopes);
    assert s.stack[0] in s.stack;
    assert d in s.stack[0].rest;
  }

  lemma ResolveOneKeeps(s: State, m: Id, d: Dependency, rest: seq<Dependency>)
    requires Inv(s) && s.stack != [] && s.stack[0] == Resolving(m, [d] + rest) && m in s.modules
    ensures Inv(ResolveOne(s, m, d, rest))
  {
    var t := ResolveOne(s, m, d, rest);
    assert ([d] + rest)[1..] == rest;
    if d.IsPseudo() {
      SameCuts(s, t);
      CountedDownKeeps(s, t, m, Resolving(m, rest), {});
    } else if s.Complete(d.Target()) {
      if s.modules[d.Target()].error {
        FailKeeps(s, m);
      } else {
        CompleteRan(s, d.Target());
        SameCuts(s, t);
        CountedDownKeeps(s, t, m, Resolving(m, rest), {});
      }
    } else if Reach(DependencyGraph(s.modules), d.Target(), m) {
      TopDeclared(s, m, d, rest);
      CutKeeps(s, t, m, d);
      CountedDownKeeps(s, t, m, Resolving(m, rest), {(m, d.Target())});
    } else {
      AwaitKeeps(s, m, d, rest);
    }
  }

  lemma CompleteBeginKeeps(s: State, m: Id)
    requires Inv(s) && s.stack != [] && s.stack[0] == Completing(m) && m in s.modules
    ensures Inv(CompleteBegin(s, m))
  {
    var t := CompleteBegin(s, m);
    if s.modules[m].complete {
      RestackedCore(s, t, []);
    } else {
      StartedCore(s, t, m);
    }
    assert forall f :: f in s.stack[1..] ==> f in t.stack;
    assert forall p :: Done(t, p) ==> Done(s, p);
    PoppedRequested(s, t);
  }

  lemma NotifyOneKeeps(s: State, m: Id, x: Id, rest: seq<Id>)
    requires Inv(s) && s.stack != [] && s.stack[0] == Notifying(m, [x] + rest) && x in s.modules
    ensures Inv(NotifyOne(s, m, x, rest))
  {
    var t := NotifyOne(s, m, x, rest);
    assert ([x] + rest)[1..] == rest;
    assert Holds(s, Cuts);
    assert t.stack == [Completing(x)] + ([Notifying(m, rest)] + s.stack[1..]) ==>
        t.stack == [Completing(x), Notifying(m, rest)] + s.stack[1..];
    CountedDownKeeps(s, t, x, Notifying(m, rest), {});
  }

  // The walk over inverse dependencies is over; parked resources become a frame of their own.
  lemma NotifyEndRequests(s: State, m: Id)
    requires Holds(s, Requests) && s.stack != [] && s.stack[0] == Notifying(m, [])
    ensures Holds(NotifyEnd(s, m), Requests)
  {
    var t := NotifyEnd(s, m);
    assert forall f :: f in s.stack && f != s.stack[0] ==> f in t.stack;
    assert t.stack[0] in t.stack;
    forall c: Id, x: Id | Edge(t.inverse, c, x)
      ensures t.Requested(c) || Parked(t, c) || Fed(t, c)
    {
      assert Edge(s.inverse, c, x);
      if Parked(s, c) {
        var p, e :| p in s.pluginWaits && e in s.pluginWaits[p] && e.Target() == c;
        assert if p == m then e in t.stack[0].resources else e in t.pluginWaits[p];
      } else if Fed(s, c) {
        var f, e :| f in s.stack && f.Feeding? && e in f.resources && e.Target() == c;
        assert f in t.stack;
      }
    }
    forall p | p in t.pluginWaits && Done(t, p)
      ensures exists f :: f in t.stack && f.Notifying? && f.owner == p
    {
      assert Done(s, p);
      var f :| f in s.stack && f.Notifying? && f.owner == p;
      assert f in t.stack;
    }
  }

  lemma NotifyEndKeeps(s: State, m: Id)
    requires Inv(s) && s.stack != [] && s.stack[0] == Notifying(m, [])
    ensures Inv(NotifyEnd(s, m))
  {
    var resources := if m in s.pluginWaits then s.pluginWaits[m] else [];
    TopRan(s);
    RestackedCore(s, NotifyEnd(s, m), [Feeding(m, resources)]);
    NotifyEndRequests(s, m);
  }

  // Frames that follow a factory belong to a module that ran.
  lemma TopRan(s: State)
    requires Core(s) && s.stack != [] && (s.stack[0].Notifying? || s.stack[0].Feeding?)
    ensures Ran(s, s.stack[0].owner) && s.stack[0].owner in s.modules
  {
    assert s.stack[0] in s.stack;
    assert Holds(s, Lives) && Holds(s, Scopes);
  }

  lemma FeedOneRequests(s: State, m: Id, d: Dependency, rest: seq<Dependency>)
    requires Holds(s, Requests) && s.stack != [] && s.stack[0] == Feeding(m, [d] + rest)
    ensures RequestedBut(s.Swap(Feeding(m, rest)), d.Target())
  {
    var t := s.Swap(Feeding(m, rest));
    assert forall f :: f in s.stack && f != s.stack[0] ==> f in t.stack;
    assert t.stack[0] in t.stack;
    forall c: Id, x: Id | Edge(t.inverse, c, x) && c != d.Target()
      ensures t.Requested(c) || Parked(t, c) || Fed(t, c)
    {
      assert Edge(s.inverse, c, x);
      if Parked(s, c) {
        var p, e :| p in s.pluginWaits && e in s.pluginWaits[p] && e.Target() == c;
        assert e in t.pluginWaits[p];
      } else if Fed(s, c) {
        var f, e :| f in s.stack && f.Feeding? && e in f.resources && e.Target() == c;
        assert f in t.stack || e in t.stack[0].resources;
      }
    }
    forall p | p in t.pluginWaits && Done(t, p)
      ensures NotifyingFor(t, p)
    {
      assert Done(s, p);
      var f :| f in s.stack && f.Notifying? && f.owner == p;
      assert f in t.stack;
    }
  }

  lemma FeedOneKeeps(s: State, m: Id, d: Dependency, rest: seq<Dependency>)
    requires Inv(s) && s.stack != [] && s.stack[0] == Feeding(m, [d] + rest)
    ensures Inv(s.Swap(Feeding(m, rest)).Load(d.Target()))
  {
    var t := s.Swap(Feeding(m, rest));
    TopRan(s);
    RestackedCore(s, t, [Feeding(m, rest)]);
    FeedOneRequests(s, m, d, rest);
    LoadKeeps(t, d.Target());
    LoadRequests(t, d.Target());
  }

  lemma PopKeeps(s: State)
    requires Inv(s) && s.stack != []
    requires s.stack[0].Loading? || (s.stack[0].Feeding? && s.stack[0].resources == [])
    ensures Inv(s.Pop())
  {
    RestackedCore(s, s.Pop(), []);
    PoppedRequested(s, s.Pop());
  }

  lemma InternalKeeps(s: State)
    requires Inv(s) && Running(s)
    ensures WellScoped(s) && Inv(Internal(s))
  {
    assert Holds(s, Scopes);
    assert s.stack[0] in s.stack;
    match s.stack[0]
    case Resolving(m, rest) =>
      if rest == [] {
        ResolveEndKeeps(s, m);
      } else {
        assert rest == [rest[0]] + rest[1..];
        ResolveOneKeeps(s, m, rest[0], rest[1..]);
      }
    case Completing(m) => CompleteBeginKeeps(s, m);
    case Notifying(m, tail) =>
      if tail == [] {
        NotifyEndKeeps(s, m);
      } else {
        assert tail == [tail[0]] + tail[1..];
        assert tail[0] in tail;
        NotifyOneKeeps(s, m, tail[0], tail[1..]);
      }
    case Feeding(m, resources) =>
      if resources == [] {
        PopKeeps(s);
      } else {
        assert resources == [resources[0]] + resources[1..];
        FeedOneKeeps(s, m, resources[0], resources[1..]);
      }
  }

  /* ---- Steps of the environment ---- */

  lemma DefineKeeps(s: State, m: Id, deps: seq<Dependency>, errorback: bool, throws: bool)
    requires Inv(s)
    ensures Inv(Define(s, m, deps, errorback, throws))
  {
    if m !in s.modules {
      var t := Define(s, m, deps, errorback, throws);
      AddedCore(s, t, m, deps, t.modules[m]);
      AddedStack(s, t, m, deps, t.modules[m]);
      assert forall p :: NotifyingFor(s, p) ==> NotifyingFor(t, p);
      RequestedKept(s, t);
    }
  }

  lemma FactoryReturnsKeeps(s: State, failed: bool)
    requires Inv(s) && s.stack != [] && s.stack[0].Factory?
    ensures s.stack[0].owner in s.modules
    ensures Inv(FactoryReturns(s, failed))
  {
    var m := s.stack[0].owner;
    assert s.stack[0] in s.stack;
    assert Holds(s, Scopes);
    var t := FactoryReturns(s, failed);
    ReturnedCore(s, t, m, failed);
    ReturnedStack(s, t, m, failed);
    assert NotifyingFor(t, m);
    forall p | NotifyingFor(s, p)
      ensures NotifyingFor(t, p)
    {
      var f :| f in s.stack && f.Notifying? && f.owner == p;
      assert f in t.stack;
    }
    RequestedKept(s, t);
  }

  lemma LoadErrorCore(s: State, x: Id)
    requires Core(s)
    ensures Core(LoadError(s, x))
  {
    var t := LoadError(s, x);
    var failed := set m | m in t.modules && Star(s.inverse, x, m);
    if x in s.modules {
      MarkedCore(s, t, failed);
    } else {
      assert x in failed;
      var r := PLACEHOLDER.(complete := true, error := true);
      var u := s.(modules := s.modules[x := r], declared := s.declared[x := []]);
      AddedCore(s, u, x, [], r);
      MarkedCore(u, t, failed);
    }
  }

  lemma LoadErrorKeeps(s: State, x: Id)
    requires Inv(s)
    ensures Inv(LoadError(s, x))
  {
    var t := LoadError(s, x);
    LoadErrorCore(s, x);
    assert t.stack == s.stack && t.inverse == s.inverse;
    assert forall p :: Done(t, p) ==> Done(s, p);
    RequestedKept(s, t);
  }
}
