/** When the failure of a module reaches the modules that wait on it. */
module LoaderTold {
  import opened Graphs
  import opened LoaderModel
  import opened LoaderInvariant
  import opened LoaderKeeps
  import opened LoaderRuns
  import opened Wrappers

  // Whoever waits on a failed module has failed too.
  ghost predicate Told(s: State) {
    forall d: Id, x: Id :: Poisoned(s, d) && Edge(s.inverse, d, x) ==> Poisoned(s, x)
  }

  // The loader is about to find that a dependency of m has failed before, while
  // some module that has not failed waits on m.
  ghost predicate Overlooks(s: State) {
    && Running(s) && s.stack[0].Resolving? && s.stack[0].rest != []
    && FailedBefore(s, s.stack[0].rest[0])
    && exists x: Id :: Edge(s.inverse, s.stack[0].owner, x) && !s.Complete(x)
  }

  ghost predicate FailedBefore(s: State, d: Dependency) {
    !d.IsPseudo() && s.Complete(d.Target()) && s.modules[d.Target()].error
  }

  lemma NobodyNew(s: State, t: State)
    requires Told(s) && Grows(s, t)
    requires forall d: Id :: Poisoned(t, d) ==> Poisoned(s, d)
    requires forall d: Id, x: Id :: Poisoned(s, d) && Edge(t.inverse, d, x) ==> Edge(s.inverse, d, x)
    ensures Told(t)
  {
    forall d: Id, x: Id | Poisoned(t, d) && Edge(t.inverse, d, x)
      ensures Poisoned(t, x)
    {
      assert Poisoned(s, d) && Edge(s.inverse, d, x);
      PoisonedStays(s, t, x);
    }
  }

  // A module that waits has not run its factory, so it is complete only if it failed.
  lemma WaitingFailed(s: State, d: Id, x: Id)
    requires Inv(s) && Edge(s.inverse, d, x) && s.Complete(x)
    ensures Poisoned(s, x)
  {
    assert Holds(s, Counts);
    ListedEdge(s.inverse, d, x);
  }

  // The module at the top, with a dependency still to examine, has not run its factory.
  lemma TopNotRan(s: State, m: Id, rest: seq<Dependency>)
    requires Inv(s) && s.stack != [] && s.stack[0] == Resolving(m, rest) && rest != []
    ensures m in s.modules && !Ran(s, m)
  {
    assert Holds(s, Counts) && Holds(s, Scopes);
    assert s.stack[0] in s.stack;
    assert InFlight(s.stack, m) > 0;
  }

  // A dependency of m has failed before: m fails, alone.
  lemma FailTold(s: State, m: Id, d: Dependency, rest: seq<Dependency>)
    requires Inv(s) && Told(s) && s.stack != [] && s.stack[0] == Resolving(m, [d] + rest) && m in s.modules
    requires FailedBefore(s, d)
    ensures Told(s.Fail(m).Pop()) <==> !exists x: Id :: Edge(s.inverse, m, x) && !s.Complete(x)
  {
    var t := s.Fail(m).Pop();
    TopNotRan(s, m, [d] + rest);
    assert Poisoned(t, m);
    assert forall y: Id :: y != m ==> (Poisoned(t, y) <==> Poisoned(s, y));
    assert Holds(s, Waits);
    if x: Id :| Edge(s.inverse, m, x) && !s.Complete(x) {
      EdgeReach(s.inverse, m, x);
      assert x != m;
      assert !Poisoned(t, x);
    } else {
      forall a: Id, x: Id | Poisoned(t, a) && Edge(t.inverse, a, x)
        ensures Poisoned(t, x)
      {
        if a == m {
          WaitingFailed(s, m, x);
        }
      }
    }
  }

  lemma ResolveTold(s: State, m: Id, d: Dependency, rest: seq<Dependency>)
    requires Inv(s) && Told(s) && s.stack != [] && s.stack[0] == Resolving(m, [d] + rest) && m in s.modules
    requires !FailedBefore(s, d)
    ensures Told(ResolveOne(s, m, d, rest))
  {
    var t := ResolveOne(s, m, d, rest);
    var u := s.Swap(Resolving(m, rest));
    ResolveGrows(s, m, d, rest);
    if d.IsPseudo() || s.Complete(d.Target()) {
      assert t == u.Decrement(m);
    } else if !Reach(DependencyGraph(s.modules), d.Target(), m) {
      assert t == Await(u, m, d);
      assert t.modules == s.modules && t.log == s.log && t.inverse == AddEdge(s.inverse, d.Target(), m);
    }
    NobodyNew(s, t);
  }

  lemma CompleteTold(s: State, m: Id)
    requires Inv(s) && Told(s) && s.stack != [] && s.stack[0] == Completing(m) && m in s.modules
    ensures Told(CompleteBegin(s, m))
  {
    var t := CompleteBegin(s, m);
    CompleteGrows(s, m);
    if !s.modules[m].complete {
      assert t.log[|s.log|].id == m && Ran(t, m);
    }
    forall d: Id | Poisoned(t, d)
      ensures Poisoned(s, d)
    {
      RanStays(s, t, d);
    }
    NobodyNew(s, t);
  }

  lemma RanStays(s: State, t: State, m: Id)
    requires s.log <= t.log
    ensures Ran(s, m) ==> Ran(t, m)
  {
    if Ran(s, m) {
      var k :| 0 <= k < |s.log| && s.log[k].id == m;
      assert t.log[k].id == m;
    }
  }

  lemma NotifyTold(s: State, m: Id, x: Id, rest: seq<Id>)
    requires Told(s) && s.stack != [] && x in s.modules
    ensures Told(NotifyOne(s, m, x, rest))
  {
    NobodyNew(s, NotifyOne(s, m, x, rest));
  }

  lemma TickTold(s: State)
    requires Inv(s) && Told(s) && Running(s) && WellScoped(s)
    ensures Told(Internal(s)) <==> !Overlooks(s)
  {
    assert s.stack[0] in s.stack;
    TickGrows(s);
    match s.stack[0]
    case Resolving(m, rest) =>
      if rest == [] {
        NobodyNew(s, Internal(s));
      } else {
        assert rest == [rest[0]] + rest[1..];
        if FailedBefore(s, rest[0]) {
          FailTold(s, m, rest[0], rest[1..]);
        } else {
          ResolveTold(s, m, rest[0], rest[1..]);
        }
      }
    case Completing(m) => CompleteTold(s, m);
    case Notifying(m, tail) =>
      if tail != [] {
        assert tail[0] in tail;
        NotifyTold(s, m, tail[0], tail[1..]);
      } else {
        NobodyNew(s, NotifyEnd(s, m));
      }
    case Feeding(_, _) => NobodyNew(s, Internal(s));
  }

  // A failed load is passed on to everybody.
  lemma LoadErrorTold(s: State, x: Id)
    requires Inv(s) && Told(s)
    ensures Told(LoadError(s, x))
  {
    var t := LoadError(s, x);
    LoadErrorGrows(s, x);
    assert Holds(s, Scopes);
    assert forall m :: Ran(t, m) <==> Ran(s, m);
    forall d: Id, m: Id | Poisoned(t, d) && Edge(t.inverse, d, m)
      ensures Poisoned(t, m)
    {
      assert m in s.modules;
      if Star(s.inverse, x, d) {
        EdgeReach(s.inverse, d, m);
        StarTrans(s.inverse, x, d, m);
        assert t.Complete(m);
        assert Holds(s, Counts);
        ListedEdge(s.inverse, d, m);
      } else {
        assert Poisoned(s, d);
        PoisonedStays(s, t, m);
      }
    }
  }

  lemma EventTold(s: State, e: Event)
    requires Inv(s) && Told(s) && Enabled(s, e) && Grows(s, Apply(s, e))
    ensures Told(Apply(s, e)) <==> !Overlooks(s)
  {
    match e
    case Tick => TickTold(s);
    case Defines(_, _, _, _) => NobodyNew(s, Apply(s, e));
    case LoadFails(x) => LoadErrorTold(s, x);
    case FactoryEnds(_) => NobodyNew(s, Apply(s, e));
    case LoadEnds => NobodyNew(s, Apply(s, e));
  }

  // One step: failures go on reaching everybody exactly if the step overlooks nobody.
  lemma StepTold(s: State, t: State)
    requires Inv(s) && Told(s) && Steps(s, t)
    ensures Told(t) <==> !Overlooks(s)
  {
    assert Happens(Sealed, s, t);
    var e :| Enabled(s, e) && Apply(s, e) == t;
    StepGrows(s, t);
    EventTold(s, e);
  }

  // Whole runs: whoever waits on a failed module has failed, at every moment,
  // exactly if no step overlooks a waiting module.
  lemma {:induction false} ToldThroughout(run: seq<State>)
    requires IsRun(run)
    ensures (forall i :: 0 <= i < |run| ==> Told(run[i])) <==> (forall i :: 0 <= i < |run| - 1 ==> !Overlooks(run[i]))
  {
    var k := |run| - 1;
    if k == 0 {
      assert Told(run[0]);
    } else {
      var shorter := run[..k];
      forall i | 0 < i < |shorter|
        ensures Linked(shorter, i)
      {
        assert Linked(run, i);
      }
      ToldThroughout(shorter);
      assert Linked(run, k);
      RunInv(run, k - 1);
      if Told(run[k - 1]) {
        StepTold(run[k - 1], run[k]);
      }
      assert forall i :: 0 <= i < k ==> shorter[i] == run[i];
    }
  }

  lemma {:induction false} ToldPath(s: State, p: seq<Id>)
    requires Told(s) && |p| > 0 && IsPath(s.inverse, p) && Poisoned(s, p[0])
    ensures Poisoned(s, p[|p| - 1])
  {
    if |p| > 1 {
      ToldPath(s, p[1..]);
    }
  }

  // Then only ids that nobody defined leave a module waiting.
  lemma StuckOnUndefined(s: State, m: Id)
    requires Reachable(s) && Quiet(s) && Told(s) && m in s.modules && !s.modules[m].error
    ensures !s.modules[m].complete <==> exists r: Id :: r !in s.modules && Reach(s.inverse, r, m)
  {
    ReachableInv(s);
    if !s.modules[m].complete {
      var r := StuckOnObstacle(s, m);
      if Poisoned(s, r) {
        var p :| Connects(s.inverse, p, r, m);
        ToldPath(s, p);
      }
    } else if r: Id :| r !in s.modules && Reach(s.inverse, r, m) {
      assert Obstacle(s, r);
      StuckExactly(s, m);
    }
  }
}
