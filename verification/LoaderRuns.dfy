/** Whole runs of the module manager, and what holds of all of them. */
module LoaderRuns {
  import opened Graphs
  import opened LoaderModel
  import opened LoaderInvariant
  import opened LoaderKeeps
  import opened LoaderSteps
  import opened Wrappers

  // What can happen next: the loader's own code runs on, or foreign code acts.  A
  // load fails only if it was asked for.
  datatype Event =
    | Tick
    | Defines(id: Id, dependencies: seq<Dependency>, errorback: bool, throws: bool)
    | LoadFails(id: Id)
    | FactoryEnds(failed: bool)
    | LoadEnds

  ghost predicate Enabled(s: State, e: Event) {
    match e
    case Tick => Running(s) && WellScoped(s)
    case Defines(_, _, _, _) => Yielded(s)
    case LoadFails(id) => Yielded(s) && id in s.known
    case FactoryEnds(_) => s.stack != [] && s.stack[0].Factory? && s.stack[0].owner in s.modules
    case LoadEnds => s.stack != [] && s.stack[0].Loading?
  }

  ghost function Apply(s: State, e: Event): State
    requires Enabled(s, e)
  {
    match e
    case Tick => Internal(s)
    case Defines(id, dependencies, errorback, throws) => Define(s, id, dependencies, errorback, throws)
    case LoadFails(id) => LoadError(s, id)
    case FactoryEnds(failed) => FactoryReturns(s, failed)
    case LoadEnds => s.Pop()
  }

  ghost predicate Happens(x: Sealed, s: State, t: State) {
    exists e :: Enabled(s, e) && Apply(s, e) == t
  }

  // Some event takes s to t.
  ghost predicate Steps(s: State, t: State) {
    forall x: Sealed :: Happens(x, s, t)
  }

  // A run of the loader: it may stop anywhere, and foreign code may call back
  // into the loader from factories and from script loads.
  ghost predicate IsRun(run: seq<State>) {
    && |run| > 0 && run[0] == EMPTY_STATE
    && forall i :: 0 < i < |run| ==> Linked(run, i)
  }

  ghost predicate Linked(run: seq<State>, i: nat)
    requires 0 < i < |run|
  {
    Steps(run[i - 1], run[i])
  }

  ghost predicate EndsRun(x: Sealed, s: State) {
    exists run :: IsRun(run) && run[|run| - 1] == s
  }

  // Some run ends in s.
  ghost predicate Reachable(s: State) {
    forall x: Sealed :: EndsRun(x, s)
  }

  lemma StepKeeps(s: State, t: State)
    requires Inv(s) && Steps(s, t)
    ensures Inv(t)
  {
    assert Happens(Sealed, s, t);
    var e :| Enabled(s, e) && Apply(s, e) == t;
    match e
    case Tick => InternalKeeps(s);
    case Defines(id, dependencies, errorback, throws) => DefineKeeps(s, id, dependencies, errorback, throws);
    case LoadFails(id) => LoadErrorKeeps(s, id);
    case FactoryEnds(failed) => FactoryReturnsKeeps(s, failed);
    case LoadEnds => PopKeeps(s);
  }

  // The invariant holds throughout every run.
  lemma {:induction false} RunInv(run: seq<State>, i: nat)
    requires IsRun(run) && i < |run|
    ensures Inv(run[i])
  {
    if i == 0 {
      InitInv();
    } else {
      RunInv(run, i - 1);
      assert Linked(run, i);
      StepKeeps(run[i - 1], run[i]);
    }
  }

  lemma ReachableInv(s: State)
    requires Reachable(s)
    ensures Inv(s)
  {
    assert EndsRun(Sealed, s);
    var run :| IsRun(run) && run[|run| - 1] == s;
    RunInv(run, |run| - 1);
  }

  lemma ReachableStep(s: State, t: State)
    requires Reachable(s) && Steps(s, t)
    ensures Reachable(t)
  {
    assert EndsRun(Sealed, s);
    var run :| IsRun(run) && run[|run| - 1] == s;
    var longer := run + [t];
    forall i | 0 < i < |longer|
      ensures Linked(longer, i)
    {
      assert i < |run| ==> Linked(run, i);
      assert i < |run| ==> longer[i] == run[i];
      assert longer[i - 1] == run[i - 1];
    }
    assert IsRun(longer);
  }

  /* ---- Safety ---- */

  // The number a module still counts down is exactly what is owed to it, so it
  // never falls below zero; a module whose factory ran is owed nothing.
  lemma CountingInvariant(s: State, m: Id)
    requires Reachable(s) && m in s.modules
    ensures s.modules[m].unresolved >= 0
    ensures !s.modules[m].complete ==> s.modules[m].unresolved == Listed(s.inverse, m) + InFlight(s.stack, m)
    ensures Ran(s, m) ==> (forall d: Id :: !Edge(s.inverse, d, m)) && InFlight(s.stack, m) == 0
  {
    ReachableInv(s);
    assert Holds(s, Counts);
    if Ran(s, m) {
      forall d: Id
        ensures !Edge(s.inverse, d, m)
      {
        if Edge(s.inverse, d, m) {
          ListedEdge(s.inverse, d, m);
        }
      }
    }
  }

  // No module ever waits for itself, however long the chain.
  lemma WaitsNeverCycle(s: State, x: Id)
    requires Reachable(s)
    ensures !Reach(s.inverse, x, x)
    ensures forall d: Id, m: Id :: Edge(s.inverse, d, m) ==> Edge(DependencyGraph(s.modules), m, d)
  {
    ReachableInv(s);
    assert Holds(s, Waits);
    forall d: Id, m: Id | Edge(s.inverse, d, m)
      ensures Edge(DependencyGraph(s.modules), m, d)
    {
      WaitIsDependency(s, d, m);
    }
  }

  // Each factory runs at most once, on the declared dependencies.
  lemma FactoryOnce(s: State)
    requires Reachable(s)
    ensures forall i, j :: 0 <= i < |s.log| && 0 <= j < |s.log| && i != j ==> s.log[i].id != s.log[j].id
    ensures forall i :: 0 <= i < |s.log| ==> s.log[i].id in s.declared && s.log[i].dependencies == s.declared[s.log[i].id]
  {
    ReachableInv(s);
    LogDistinct(s);
  }

  // A factory runs after the factory of every dependency that was not cut to break a cycle.
  lemma FactoryOrder(s: State, k: nat, d: Dependency)
    requires Reachable(s) && k < |s.log| && d in s.log[k].dependencies && !d.IsPseudo()
    ensures RanBefore(s.log, k, d.Target()) || (s.log[k].id, d.Target()) in s.cut
  {
    ReachableInv(s);
    LogOrdered(s, k, d);
  }

  lemma LogDistinct(s: State)
    requires Inv(s)
    ensures forall i, j :: 0 <= i < |s.log| && 0 <= j < |s.log| && i != j ==> s.log[i].id != s.log[j].id
    ensures forall i :: 0 <= i < |s.log| ==> s.log[i].id in s.declared && s.log[i].dependencies == s.declared[s.log[i].id]
  {
    assert Holds(s, Lives);
  }

  lemma LogOrdered(s: State, k: nat, d: Dependency)
    requires Inv(s) && k < |s.log| && d in s.log[k].dependencies && !d.IsPseudo()
    ensures RanBefore(s.log, k, d.Target()) || (s.log[k].id, d.Target()) in s.cut
  {
    assert Holds(s, Orders);
  }

  // Only edges on cycles of declared dependencies are ever cut: without such
  // cycles, the factories run in topological order.
  lemma AcyclicFactoryOrder(s: State, k: nat, d: Dependency)
    requires Reachable(s) && k < |s.log| && d in s.log[k].dependencies && !d.IsPseudo()
    requires !Reach(DeclaredGraph(s.declared), d.Target(), s.log[k].id)
    ensures RanBefore(s.log, k, d.Target())
  {
    FactoryOrder(s, k, d);
    ReachableInv(s);
    assert Holds(s, Cuts);
  }

  // One step runs at most one factory, that of a module not yet complete.
  ghost predicate Grows(s: State, t: State) {
    && (forall m :: s.Complete(m) ==> t.Complete(m))
    && |t.log| <= |s.log| + 1 && s.log <= t.log
    && (t.log == s.log || !s.Complete(t.log[|s.log|].id))
  }

  lemma ResolveGrows(s: State, m: Id, d: Dependency, rest: seq<Dependency>)
    requires s.stack != [] && m in s.modules
    ensures Grows(s, ResolveOne(s, m, d, rest))
  {
    var t := s.Swap(Resolving(m, rest));
    if d.IsPseudo() || (s.Complete(d.Target()) && !s.modules[d.Target()].error) {
      assert ResolveOne(s, m, d, rest) == t.Decrement(m);
    } else if s.Complete(d.Target()) {
      assert ResolveOne(s, m, d, rest) == s.Fail(m).Pop();
    } else if !Reach(DependencyGraph(s.modules), d.Target(), m) {
      assert ResolveOne(s, m, d, rest) == Await(t, m, d);
      assert Await(t, m, d).modules == s.modules;
    }
  }

  lemma CompleteGrows(s: State, m: Id)
    requires s.stack != [] && m in s.modules
    ensures Grows(s, CompleteBegin(s, m))
  {
    assert s.log <= CompleteBegin(s, m).log;
  }

  lemma TickGrows(s: State)
    requires Running(s) && WellScoped(s)
    ensures Grows(s, Internal(s))
  {
    assert s.stack[0] in s.stack;
    match s.stack[0]
    case Resolving(m, rest) =>
      if rest != [] {
        ResolveGrows(s, m, rest[0], rest[1..]);
      }
    case Completing(m) => CompleteGrows(s, m);
    case Notifying(m, tail) =>
      if tail != [] {
        assert tail[0] in tail;
        assert Internal(s) == NotifyOne(s, m, tail[0], tail[1..]);
      }
    case Feeding(_, _) =>
  }

  lemma LoadErrorGrows(s: State, x: Id)
    ensures Grows(s, LoadError(s, x))
  {
  }

  lemma StepGrows(s: State, t: State)
    requires Steps(s, t)
    ensures Grows(s, t)
  {
    assert Happens(Sealed, s, t);
    var e :| Enabled(s, e) && Apply(s, e) == t;
    match e
    case Tick => TickGrows(s);
    case Defines(_, _, _, _) => assert t.log == s.log;
    case LoadFails(x) => LoadErrorGrows(s, x);
    case FactoryEnds(_) => assert t.log == s.log;
    case LoadEnds => assert t.log == s.log;
  }

  lemma PoisonedStays(s: State, t: State, m: Id)
    requires Grows(s, t) && Poisoned(s, m)
    ensures Poisoned(t, m)
  {
    forall k | 0 <= k < |t.log|
      ensures t.log[k].id != m
    {
      assert k < |s.log| ==> t.log[k] == s.log[k];
    }
  }

  lemma {:induction false} PoisonedForever(run: seq<State>, i: nat, j: nat, m: Id)
    requires IsRun(run) && i <= j < |run| && Poisoned(run[i], m)
    ensures Poisoned(run[j], m)
    decreases j - i
  {
    if i < j {
      assert Linked(run, i + 1);
      StepGrows(run[i], run[i + 1]);
      PoisonedStays(run[i], run[i + 1], m);
      PoisonedForever(run, i + 1, j, m);
    }
  }

  // A failed load poisons exactly what it reaches along the waits, x included,
  // save a module that has run its factory: that can only be x itself.
  lemma LoadErrorExact(s: State, x: Id, m: Id)
    requires Reachable(s)
    ensures Poisoned(LoadError(s, x), m) <==> Poisoned(s, m) || (Star(s.inverse, x, m) && !Ran(s, m))
    ensures Reach(s.inverse, x, m) ==> Poisoned(LoadError(s, x), m)
    ensures !Star(s.inverse, x, m) && m in s.modules ==> LoadError(s, x).modules[m] == s.modules[m]
  {
    ReachableInv(s);
    assert Holds(s, Scopes) && Holds(s, Lives);
    assert Ran(LoadError(s, x), m) <==> Ran(s, m);
    if Reach(s.inverse, x, m) {
      var d := ReachLast(s.inverse, x, m);
      assert m in s.modules;
      CountingInvariant(s, m);
    }
  }

  /* ---- Progress ---- */

  ghost predicate Quiet(s: State) {
    s.stack == []
  }

  // What nobody can get past: an id that was never defined, or a module that failed.
  ghost predicate Obstacle(s: State, r: Id) {
    r !in s.modules || Poisoned(s, r)
  }

  lemma QuietWaits(s: State, x: Id) returns (d: Id)
    requires Inv(s) && Quiet(s) && x in s.modules && !s.modules[x].complete
    ensures Edge(s.inverse, d, x)
  {
    assert Holds(s, Counts) && Holds(s, Wakes);
    assert !Awake(s, x);
    d := ListedSomewhere(s.inverse, x);
  }

  // When no call is in progress, an incomplete module waits, directly or not, on an obstacle.
  lemma StuckOnObstacle(s: State, m: Id) returns (r: Id)
    requires Inv(s) && Quiet(s) && m in s.modules && !s.modules[m].complete
    ensures Obstacle(s, r) && Reach(s.inverse, r, m)
  {
    var waiting := set x | x in s.modules && !s.modules[x].complete;
    forall y: Id | y in waiting
      ensures exists z: Id :: Edge(s.inverse, z, y)
    {
      var z := QuietWaits(s, y);
    }
    assert Acyclic(s.inverse) by {
      assert Holds(s, Waits);
    }
    r := LeavesBackwards(s.inverse, waiting, m, waiting - {m}, m);
    var x := ReachFirst(s.inverse, r, m);
    QuietAwaited(s, r, x);
  }

  // Nobody waits on a module whose factory has run.
  lemma QuietAwaited(s: State, d: Id, x: Id)
    requires Inv(s) && Quiet(s) && Edge(s.inverse, d, x)
    ensures !Ran(s, d)
  {
    assert Holds(s, Lives) && Holds(s, Waits);
    assert Ran(s, d) ==> Done(s, d);
  }

  // The exact condition for getting stuck.
  lemma StuckExactly(s: State, m: Id)
    requires Reachable(s) && Quiet(s) && m in s.modules && !s.modules[m].error
    ensures !s.modules[m].complete <==> exists r: Id :: Obstacle(s, r) && Reach(s.inverse, r, m)
  {
    ReachableInv(s);
    if !s.modules[m].complete {
      var r := StuckOnObstacle(s, m);
    } else if exists r: Id :: Obstacle(s, r) && Reach(s.inverse, r, m) {
      var r: Id :| Obstacle(s, r) && Reach(s.inverse, r, m);
      var d := ReachLast(s.inverse, r, m);
      WaitIsDependency(s, d, m);
      CompleteRan(s, m);
    }
  }

  // No deadlock, whatever cycles the dependency lists contain.
  lemma NoDeadlock(s: State)
    requires Reachable(s) && Quiet(s)
    requires forall d: Id, m: Id :: Edge(s.inverse, d, m) ==> !Obstacle(s, d)
    ensures forall m :: m in s.modules ==> s.modules[m].complete
  {
    ReachableInv(s);
    forall m | m in s.modules
      ensures s.modules[m].complete
    {
      if !s.modules[m].complete {
        var r := StuckOnObstacle(s, m);
        var x := ReachFirst(s.inverse, r, m);
      }
    }
  }

  // An undefined id that somebody waits on has been asked for, or is a plugin
  // resource whose plugin has been asked for and has not run to its end.
  lemma ObstacleRequested(s: State, r: Id, m: Id)
    requires Reachable(s) && Quiet(s) && Edge(s.inverse, r, m) && r !in s.modules
    ensures r in s.known || exists p, e :: p in s.pluginWaits && e in s.pluginWaits[p] && e == Plugin(r, p)
                                           && s.Requested(p) && !Done(s, p)
  {
    ReachableInv(s);
    assert Holds(s, Requests);
    if r !in s.known {
      RequestedQuietly(s, r, m);
    }
  }

  lemma RequestedQuietly(s: State, r: Id, m: Id)
    requires AllRequested(s) && Quiet(s) && Edge(s.inverse, r, m) && r !in s.modules && r !in s.known
    ensures exists p, e :: p in s.pluginWaits && e in s.pluginWaits[p] && e == Plugin(r, p)
                           && s.Requested(p) && !Done(s, p)
  {
    assert s.Requested(r) || Parked(s, r) || Fed(s, r);
    assert !s.Requested(r) && !Fed(s, r);
    var p, e :| p in s.pluginWaits && e in s.pluginWaits[p] && e.Target() == r;
    assert e.Plugin? && e.pluginId == p && e.resourceId == r;
  }
}
