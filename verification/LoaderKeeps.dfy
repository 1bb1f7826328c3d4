/** Every step of the module manager keeps the invariant. */
module LoaderKeeps {
  import opened Graphs
  import opened LoaderModel
  import opened LoaderInvariant
  import opened Wrappers

  /* ---- Steps that change only the stack, and what has been asked for ---- */

  // The history and the graphs of two states agree.
  ghost predicate SameGraphs(s: State, t: State) {
    && t.inverse == s.inverse
    && t.log == s.log
    && t.cut == s.cut
    && t.declared == s.declared
  }

  // t has lost the finished frame on top of s, or nothing, and gained new frames.
  ghost predicate Restacked(s: State, t: State, added: seq<Frame>) {
    && t.modules == s.modules
    && SameGraphs(s, t)
    && (t.stack == added + s.stack
        || (s.stack != [] && t.stack == added + s.stack[1..] && Finished(s, s.stack[0], added)))
    && (forall f :: f in added ==> Harmless(s, f))
  }

  ghost predicate Finished(s: State, f: Frame, added: seq<Frame>) {
    match f
    case Resolving(m, rest) =>
      s.Complete(m) || (rest == [] && (m in s.modules && s.modules[m].unresolved == 0 ==> Completing(m) in added))
    case Completing(m) => s.Complete(m)
    case Notifying(_, tail) => tail == []
    case Feeding(_, _) => true
    case Loading(_) => true
    case Factory(_) => false
  }

  ghost predicate Harmless(s: State, f: Frame) {
    match f
    case Completing(m) => m in s.modules && s.modules[m].unresolved == 0
    case Feeding(m, _) => Ran(s, m) && m in s.modules
    case Loading(_) => true
    case _ => false
  }

  lemma {:induction false} InFlightAdded(added: seq<Frame>, stack: seq<Frame>, m: Id)
    requires forall f :: f in added ==> InFrame(f, m) == 0
    ensures InFlight(added + stack, m) == InFlight(stack, m)
  {
    if added == [] {
      assert added + stack == stack;
    } else {
      InFlightAdded(added[1..], stack, m);
      assert added + stack == [added[0]] + (added[1..] + stack);
      InFlightCons(added[0], added[1..] + stack, m);
    }
  }

  lemma RestackedCounted(s: State, t: State, added: seq<Frame>)
    requires Counted(s) && Restacked(s, t, added)
    ensures Counted(t)
  {
    assert forall m :: Ran(t, m) == Ran(s, m);
    forall m | m in t.modules
      ensures InFlight(t.stack, m) <= InFlight(s.stack, m)
      ensures !s.Complete(m) ==> InFlight(t.stack, m) == InFlight(s.stack, m)
    {
      if t.stack == added + s.stack {
        InFlightAdded(added, s.stack, m);
      } else {
        InFlightAdded(added, s.stack[1..], m);
      }
    }
  }

  lemma RestackedScoped(s: State, t: State, added: seq<Frame>)
    requires Scoped(s) && Restacked(s, t, added)
    ensures Scoped(t)
  {
    forall f | f in t.stack
      ensures f in s.stack || Harmless(s, f)
    {
    }
  }

  lemma RestackedLifecycle(s: State, t: State, added: seq<Frame>)
    requires Lifecycle(s) && Restacked(s, t, added)
    ensures Lifecycle(t)
  {
    assert forall m :: Ran(t, m) == Ran(s, m);
    assert forall m :: Done(t, m) == Done(s, m);
    forall f | f in t.stack
      ensures f in s.stack || Harmless(s, f)
    {
    }
    forall m | Factory(m) in s.stack
      ensures Factory(m) in t.stack
    {
    }
  }

  lemma RestackedWakeup(s: State, t: State, added: seq<Frame>)
    requires NoLostWakeup(s) && Restacked(s, t, added)
    ensures NoLostWakeup(t)
  {
    forall f | f in t.stack
      ensures f in s.stack || Harmless(s, f)
    {
    }
    forall m | m in t.modules && !t.modules[m].complete && t.modules[m].unresolved == 0
      ensures Awake(t, m)
    {
      var f :| f in s.stack && (f.Resolving? || f.Completing?) && f.owner == m;
      assert f in t.stack || Completing(m) in t.stack;
    }
  }

  lemma RestackedOrdered(s: State, t: State, added: seq<Frame>)
    requires Ordered(s) && Restacked(s, t, added)
    ensures Ordered(t)
  {
    forall m, d | m in s.modules && !s.modules[m].complete && m in s.declared && d in s.declared[m] && !d.IsPseudo()
      ensures Tracked(t, m, d)
    {
      assert Tracked(s, m, d);
      assert Ran(t, d.Target()) == Ran(s, d.Target());
      if Unexamined(s, m, d) {
        var f :| f in s.stack && f.Resolving? && f.owner == m && d in f.rest;
        assert f in t.stack;
      }
    }
  }

  lemma RestackedCore(s: State, t: State, added: seq<Frame>)
    requires Core(s) && Restacked(s, t, added)
    ensures Core(t)
  {
    OpenCore(s);
    RestackedScoped(s, t, added);
    RestackedCounted(s, t, added);
    RestackedLifecycle(s, t, added);
    RestackedWakeup(s, t, added);
    RestackedOrdered(s, t, added);
    assert forall m :: Done(t, m) == Done(s, m);
    CloseCore(t);
  }

  /* ---- Steps that count down ---- */

  // The top frame hands one decrement to x; the edge e may be cut.
  ghost predicate CountedDown(s: State, t: State, x: Id, top: Frame, cut: set<(Id, Id)>) {
    && s.stack != [] && x in s.modules
    && t.modules == s.Decrement(x).modules
    && t.inverse == s.inverse && t.log == s.log && t.declared == s.declared && t.cut == s.cut + cut
    && (t.stack == [top] + s.stack[1..]
        || (t.stack == [Completing(x), top] + s.stack[1..] && t.modules[x].unresolved == 0))
    && Advances(s.stack[0], top, x)
    && (t.modules[x].unresolved == 0 ==> t.stack[0].Completing? || top.Resolving?)
  }

  ghost predicate Advances(f: Frame, g: Frame, x: Id) {
    || (f.Resolving? && f.owner == x && f.rest != [] && g == Resolving(x, f.rest[1..]))
    || (f.Notifying? && f.tail != [] && f.tail[0] == x && g == Notifying(f.owner, f.tail[1..]))
  }

  lemma AdvancesInFrame(f: Frame, g: Frame, x: Id, m: Id)
    requires Advances(f, g, x)
    ensures InFrame(f, m) == InFrame(g, m) + (if x == m then 1 else 0)
  {
    if f.Notifying? {
      assert f.tail == [x] + f.tail[1..];
    }
  }

  lemma CountedDownStack(s: State, t: State, x: Id, top: Frame, cut: set<(Id, Id)>)
    requires CountedDown(s, t, x, top, cut)
    ensures forall f :: f in t.stack ==> f in s.stack || f == top || (f == Completing(x) && t.modules[x].unresolved == 0)
    ensures forall f :: f in s.stack ==> f in t.stack || f == s.stack[0]
    ensures top in t.stack
    ensures s.stack[0] in s.stack
    ensures forall m :: Ran(t, m) == Ran(s, m)
    ensures forall m :: Done(t, m) == Done(s, m)
  {
    if t.stack == [top] + s.stack[1..] {
      assert t.stack[0] == top;
    } else {
      assert t.stack[1] == top;
    }
  }

  lemma CountedDownCounted(s: State, t: State, x: Id, top: Frame, cut: set<(Id, Id)>)
    requires Counted(s) && CountedDown(s, t, x, top, cut)
    ensures Counted(t)
  {
    CountedDownStack(s, t, x, top, cut);
    forall m | m in t.modules
      ensures InFlight(t.stack, m) == InFlight(s.stack, m) - (if x == m then 1 else 0)
    {
      AdvancesInFrame(s.stack[0], top, x, m);
      InFlightCons(top, s.stack[1..], m);
      InFlightCons(Completing(x), [top] + s.stack[1..], m);
      assert [Completing(x), top] + s.stack[1..] == [Completing(x)] + ([top] + s.stack[1..]);
    }
  }

  lemma CountedDownWakeup(s: State, t: State, x: Id, top: Frame, cut: set<(Id, Id)>)
    requires Counted(s) && NoLostWakeup(s) && CountedDown(s, t, x, top, cut)
    ensures NoLostWakeup(t)
  {
    CountedDownStack(s, t, x, top, cut);
    AdvancesInFrame(s.stack[0], top, x, x);
    InFlightMember(s.stack, s.stack[0], x);
    forall m | m in t.modules && !t.modules[m].complete && t.modules[m].unresolved == 0
      ensures Awake(t, m)
    {
      if m == x {
        assert t.stack[0] in t.stack;
      } else {
        var f :| f in s.stack && (f.Resolving? || f.Completing?) && f.owner == m;
        assert f in t.stack;
      }
    }
  }

  lemma CountedDownOrdered(s: State, t: State, x: Id, top: Frame, cut: set<(Id, Id)>)
    requires Ordered(s) && CountedDown(s, t, x, top, cut)
    requires s.stack[0].Resolving? ==> s.stack[0].rest[0].IsPseudo() || Ran(s, s.stack[0].rest[0].Target())
                                       || (x, s.stack[0].rest[0].Target()) in cut
    ensures Ordered(t)
  {
    CountedDownStack(s, t, x, top, cut);
    forall m, d | m in s.modules && !s.modules[m].complete && m in s.declared && d in s.declared[m] && !d.IsPseudo()
      ensures Tracked(t, m, d)
    {
      assert Tracked(s, m, d);
      if Unexamined(s, m, d) {
        var f :| f in s.stack && f.Resolving? && f.owner == m && d in f.rest;
        if f !in t.stack {
          assert f.rest == [f.rest[0]] + f.rest[1..];
          assert d == f.rest[0] || d in top.rest;
        }
      }
    }
  }

  lemma CountedDownScoped(s: State, t: State, x: Id, top: Frame, cut: set<(Id, Id)>)
    requires Scoped(s) && CountedDown(s, t, x, top, cut)
    ensures Scoped(t)
  {
    CountedDownStack(s, t, x, top, cut);
    assert top.owner == s.stack[0].owner;
    assert top.Resolving? ==> forall d :: d in top.rest ==> d in s.stack[0].rest;
    assert top.Notifying? ==> forall y :: y in top.tail ==> y in s.stack[0].tail;
  }

  lemma CountedDownLifecycle(s: State, t: State, x: Id, top: Frame, cut: set<(Id, Id)>)
    requires Lifecycle(s) && CountedDown(s, t, x, top, cut)
    ensures Lifecycle(t)
  {
    CountedDownStack(s, t, x, top, cut);
  }

  lemma CountedDownWaits(s: State, t: State, x: Id, top: Frame, cut: set<(Id, Id)>)
    requires WaitsSound(s) && CountedDown(s, t, x, top, cut)
    ensures WaitsSound(t)
  {
    CountedDownStack(s, t, x, top, cut);
  }

  lemma CountedDownCore(s: State, t: State, x: Id, top: Frame, cut: set<(Id, Id)>)
    requires Core(s) && CountedDown(s, t, x, top, cut)
    requires s.stack[0].Resolving? ==> s.stack[0].rest[0].IsPseudo() || Ran(s, s.stack[0].rest[0].Target())
                                       || (x, s.stack[0].rest[0].Target()) in cut
    requires CutsOnCycles(t)
    ensures Core(t)
  {
    OpenCore(s);
    CountedDownScoped(s, t, x, top, cut);
    CountedDownCounted(s, t, x, top, cut);
    CountedDownLifecycle(s, t, x, top, cut);
    CountedDownWakeup(s, t, x, top, cut);
    CountedDownOrdered(s, t, x, top, cut);
    CountedDownWaits(s, t, x, top, cut);
    CloseCore(t);
  }

  /* ---- A dependency that has to be waited for ---- */

  // Every wait is an edge of the graph that the cycle check walks.
  lemma WaitIsDependency(s: State, d: Id, x: Id)
    requires Core(s) && Edge(s.inverse, d, x)
    ensures !Ran(s, x)
    ensures Edge(DependencyGraph(s.modules), x, d)
  {
    OpenCore(s);
    ListedEdge(s.inverse, d, x);
    assert x in s.modules && s.modules[x].unresolved > 0;
    assert !Done(s, x);
    var e :| e in s.declared[x] && !e.IsPseudo() && e.Target() == d;
    var i :| 0 <= i < |s.declared[x]| && s.declared[x][i] == e;
    assert Targets(s.declared[x])[i] == d;
  }

  ghost predicate Waiting(s: State, t: State, m: Id, d: Dependency, rest: seq<Dependency>) {
    && s.stack != [] && m in s.modules
    && s.stack[0] == Resolving(m, [d] + rest)
    && !d.IsPseudo() && !s.Complete(d.Target())
    && !Reach(DependencyGraph(s.modules), d.Target(), m)
    && t == s.Swap(Resolving(m, rest)).(inverse := AddEdge(s.inverse, d.Target(), m))
  }

  // The dependency under examination is an edge of the graph that the cycle check walks.
  lemma TopEdge(s: State, m: Id, d: Dependency, rest: seq<Dependency>)
    requires Core(s) && s.stack != [] && s.stack[0] == Resolving(m, [d] + rest) && m in s.modules
    ensures Edge(DependencyGraph(s.modules), m, d.Target())
  {
    OpenCore(s);
    InFlightMember(s.stack, s.stack[0], m);
    assert !Done(s, m);
    var i :| 0 <= i < |s.declared[m]| && s.declared[m][i] == d by {
      assert s.stack[0] in s.stack;
      assert d in s.stack[0].rest;
    }
    assert Targets(s.declared[m])[i] == d.Target();
  }

  lemma WaitingAcyclic(s: State, t: State, m: Id, d: Dependency, rest: seq<Dependency>)
    requires Core(s) && Waiting(s, t, m, d, rest)
    ensures Acyclic(t.inverse)
  {
    OpenCore(s);
    var g := DependencyGraph(s.modules);
    if Star(s.inverse, m, d.Target()) {
      if m == d.Target() {
        TopEdge(s, m, d, rest);
        EdgeReach(g, m, m);
      } else {
        forall x: Id, y: Id | Edge(s.inverse, x, y)
          ensures Edge(g, y, x)
        {
          WaitIsDependency(s, x, y);
        }
        ReachReversed(s.inverse, g, m, d.Target());
      }
    }
    AddEdgeAcyclic(s.inverse, d.Target(), m);
  }

  lemma WaitingStack(s: State, t: State, m: Id, d: Dependency, rest: seq<Dependency>)
    requires Waiting(s, t, m, d, rest)
    ensures forall f :: f in t.stack ==> f in s.stack || f == Resolving(m, rest)
    ensures forall f :: f in s.stack ==> f in t.stack || f == Resolving(m, [d] + rest)
    ensures s.stack[0] in s.stack && t.stack[0] in t.stack
    ensures forall x :: Ran(t, x) == Ran(s, x)
    ensures forall x :: Done(t, x) == Done(s, x)
    ensures forall c: Id, x: Id :: Edge(t.inverse, c, x) <==> Edge(s.inverse, c, x) || (c == d.Target() && x == m)
  {
    assert Successors(s.inverse, d.Target()) + [m] == t.inverse[d.Target()];
  }

  lemma WaitingCounted(s: State, t: State, m: Id, d: Dependency, rest: seq<Dependency>)
    requires Counted(s) && Waiting(s, t, m, d, rest)
    ensures Counted(t)
  {
    assert forall x :: Ran(t, x) == Ran(s, x);
    forall x | x in t.modules
      ensures Outstanding(t, x) == Outstanding(s, x)
    {
      ListedAdd(s.inverse, d.Target(), m, x);
      InFlightCons(Resolving(m, rest), s.stack[1..], x);
    }
  }

  lemma WaitingWakeup(s: State, t: State, m: Id, d: Dependency, rest: seq<Dependency>)
    requires NoLostWakeup(s) && Waiting(s, t, m, d, rest)
    ensures NoLostWakeup(t)
  {
    WaitingStack(s, t, m, d, rest);
    forall x | x in t.modules && !t.modules[x].complete && t.modules[x].unresolved == 0
      ensures Awake(t, x)
    {
      var f :| f in s.stack && (f.Resolving? || f.Completing?) && f.owner == x;
      assert f in t.stack || t.stack[0].owner == x;
    }
  }

  lemma WaitingOrdered(s: State, t: State, m: Id, d: Dependency, rest: seq<Dependency>)
    requires Ordered(s) && Waiting(s, t, m, d, rest)
    ensures Ordered(t)
  {
    WaitingStack(s, t, m, d, rest);
    forall x, e | x in s.modules && !s.modules[x].complete && x in s.declared && e in s.declared[x] && !e.IsPseudo()
      ensures Tracked(t, x, e)
    {
      assert Tracked(s, x, e);
      if Unexamined(s, x, e) {
        var f :| f in s.stack && f.Resolving? && f.owner == x && e in f.rest;
        if f !in t.stack {
          assert e == d || e in t.stack[0].rest;
        }
      }
    }
  }

  lemma WaitingScoped(s: State, t: State, m: Id, d: Dependency, rest: seq<Dependency>)
    requires Scoped(s) && Waiting(s, t, m, d, rest)
    ensures Scoped(t)
    ensures DependsOn(s.declared[m], d.Target())
  {
    WaitingStack(s, t, m, d, rest);
    assert d in s.stack[0].rest;
    assert forall e :: e in rest ==> e in s.stack[0].rest;
  }

  lemma WaitingLifecycle(s: State, t: State, m: Id, d: Dependency, rest: seq<Dependency>)
    requires Lifecycle(s) && Waiting(s, t, m, d, rest)
    ensures Lifecycle(t)
  {
    WaitingStack(s, t, m, d, rest);
  }

  lemma WaitingCore(s: State, t: State, m: Id, d: Dependency, rest: seq<Dependency>)
    requires Core(s) && Waiting(s, t, m, d, rest)
    ensures Core(t)
  {
    OpenCore(s);
    WaitingScoped(s, t, m, d, rest);
    WaitingCounted(s, t, m, d, rest);
    WaitingLifecycle(s, t, m, d, rest);
    WaitingWakeup(s, t, m, d, rest);
    WaitingOrdered(s, t, m, d, rest);
    WaitingStack(s, t, m, d, rest);
    WaitingAcyclic(s, t, m, d, rest);
    assert !Done(s, d.Target()) by {
      assert Done(s, d.Target()) ==> Ran(s, d.Target());
    }
    assert WaitsSound(t);
    CloseCore(t);
  }

  /* ---- Failures ---- */

  // The modules of a set are marked as failed.
  ghost predicate Marked(s: State, t: State, failed: set<Id>) {
    && SameGraphs(s, t) && t.stack == s.stack
    && t.modules.Keys == s.modules.Keys
    && forall m :: m in s.modules ==>
         t.modules[m] == if m in failed then s.modules[m].(complete := true, error := true) else s.modules[m]
  }

  lemma MarkedScoped(s: State, t: State, failed: set<Id>)
    requires Scoped(s) && WaitsSound(s) && Marked(s, t, failed)
    ensures Scoped(t) && WaitsSound(t)
  {
    assert forall m :: Done(t, m) == Done(s, m);
  }

  lemma MarkedCounted(s: State, t: State, failed: set<Id>)
    requires Counted(s) && Lifecycle(s) && Marked(s, t, failed)
    ensures Counted(t) && Lifecycle(t)
  {
    assert forall m :: Ran(t, m) == Ran(s, m);
    assert forall m :: Done(t, m) == Done(s, m);
  }

  lemma MarkedOrdered(s: State, t: State, failed: set<Id>)
    requires NoLostWakeup(s) && Ordered(s) && Marked(s, t, failed)
    ensures NoLostWakeup(t) && Ordered(t)
  {
    assert forall m :: Awake(t, m) == Awake(s, m);
    forall m, d | Tracked(s, m, d)
      ensures Tracked(t, m, d)
    {
      assert Unexamined(t, m, d) == Unexamined(s, m, d);
      assert Ran(t, d.Target()) == Ran(s, d.Target());
    }
  }

  lemma MarkedCore(s: State, t: State, failed: set<Id>)
    requires Core(s) && Marked(s, t, failed)
    ensures Core(t)
  {
    OpenCore(s);
    MarkedScoped(s, t, failed);
    MarkedCounted(s, t, failed);
    MarkedOrdered(s, t, failed);
    CloseCore(t);
  }

  /* ---- New modules ---- */

  // Module m appears, either in the middle of its _resolve or already failed.
  ghost predicate Added(s: State, t: State, m: Id, deps: seq<Dependency>, r: Record) {
    && m !in s.modules
    && t.modules == s.modules[m := r]
    && t.inverse == s.inverse && t.log == s.log && t.cut == s.cut
    && t.declared == s.declared[m := deps]
    && r.dependencies == Some(deps) && r.unresolved == |deps|
    && (r.complete == r.error)
    && (t.stack == [Resolving(m, deps)] + s.stack || (t.stack == s.stack && r.complete && deps == []))
  }

  lemma AddedStack(s: State, t: State, m: Id, deps: seq<Dependency>, r: Record)
    requires Added(s, t, m, deps, r)
    ensures forall f :: f in t.stack ==> f in s.stack || f == Resolving(m, deps)
    ensures forall f :: f in s.stack ==> f in t.stack
    ensures t.stack != s.stack ==> Resolving(m, deps) in t.stack
    ensures forall x :: Ran(t, x) == Ran(s, x)
    ensures forall x :: Done(t, x) == Done(s, x)
  {
    assert t.stack != s.stack ==> t.stack[0] == Resolving(m, deps);
  }

  lemma AddedCounted(s: State, t: State, m: Id, deps: seq<Dependency>, r: Record)
    requires Scoped(s) && Counted(s) && !Ran(s, m) && Added(s, t, m, deps, r)
    ensures Counted(t)
  {
    AddedStack(s, t, m, deps, r);
    forall f | f in s.stack
      ensures InFrame(f, m) == 0
    {
    }
    InFlightNowhere(s.stack, m);
    ListedNowhere(s.inverse, m);
    forall x | x in t.modules
      ensures Outstanding(t, x) == if x == m then |deps| else Outstanding(s, x)
    {
      InFlightCons(Resolving(m, deps), s.stack, x);
    }
  }

  lemma AddedLifecycle(s: State, t: State, m: Id, deps: seq<Dependency>, r: Record)
    requires Lifecycle(s) && !Ran(s, m) && Added(s, t, m, deps, r)
    ensures Lifecycle(t)
  {
    AddedStack(s, t, m, deps, r);
  }

  lemma AddedScoped(s: State, t: State, m: Id, deps: seq<Dependency>, r: Record)
    requires Scoped(s) && WaitsSound(s) && Added(s, t, m, deps, r)
    ensures Scoped(t) && WaitsSound(t)
  {
    AddedStack(s, t, m, deps, r);
  }

  lemma AddedOrdered(s: State, t: State, m: Id, deps: seq<Dependency>, r: Record)
    requires Scoped(s) && Ordered(s) && Added(s, t, m, deps, r)
    ensures Ordered(t)
  {
    AddedStack(s, t, m, deps, r);
    forall x, d | x in t.modules && !t.modules[x].complete && x in t.declared && d in t.declared[x] && !d.IsPseudo()
      ensures Tracked(t, x, d)
    {
      if x == m {
        assert Unexamined(t, x, d);
      } else {
        assert Tracked(s, x, d);
        assert Unexamined(s, x, d) ==> Unexamined(t, x, d);
      }
    }
  }

  lemma AddedWakeup(s: State, t: State, m: Id, deps: seq<Dependency>, r: Record)
    requires NoLostWakeup(s) && Added(s, t, m, deps, r)
    ensures NoLostWakeup(t)
  {
    AddedStack(s, t, m, deps, r);
    forall x | x in t.modules && !t.modules[x].complete && t.modules[x].unresolved == 0
      ensures Awake(t, x)
    {
      assert x != m ==> Awake(s, x);
    }
  }

  lemma AddedCuts(s: State, t: State, m: Id, deps: seq<Dependency>, r: Record)
    requires Scoped(s) && CutsOnCycles(s) && Added(s, t, m, deps, r)
    ensures CutsOnCycles(t)
  {
    var g, h := DeclaredGraph(s.declared), DeclaredGraph(t.declared);
    forall x: Id, y: Id | (x, y) in t.cut
      ensures Edge(h, x, y) && Reach(h, y, x)
    {
      ReachMonotone(g, h, y, x);
    }
  }

  lemma AddedCore(s: State, t: State, m: Id, deps: seq<Dependency>, r: Record)
    requires Core(s) && Added(s, t, m, deps, r)
    ensures Core(t)
  {
    OpenCore(s);
    AddedScoped(s, t, m, deps, r);
    assert !Ran(s, m) by {
      assert Ran(s, m) ==> s.Complete(m);
    }
    AddedCounted(s, t, m, deps, r);
    AddedLifecycle(s, t, m, deps, r);
    AddedOrdered(s, t, m, deps, r);
    AddedWakeup(s, t, m, deps, r);
    AddedCuts(s, t, m, deps, r);
    CloseCore(t);
  }

  /* ---- A factory starts ---- */

  ghost predicate Started(s: State, t: State, m: Id) {
    && s.stack != [] && s.stack[0] == Completing(m)
    && m in s.modules && !s.modules[m].complete
    && t == CompleteBegin(s, m)
  }

  lemma StartedStack(s: State, t: State, m: Id)
    requires Started(s, t, m)
    ensures forall f :: f in t.stack ==> f in s.stack || f == Factory(m)
    ensures forall f :: f in s.stack ==> f in t.stack || f == Completing(m)
    ensures Factory(m) in t.stack && Completing(m) in s.stack
    ensures forall x :: Ran(t, x) <==> Ran(s, x) || x == m
    ensures forall x :: Done(t, x) == Done(s, x)
  {
    assert t.stack[0] == Factory(m);
    assert t.log[|s.log|].id == m;
    assert forall k :: 0 <= k < |s.log| ==> t.log[k] == s.log[k];
  }

  lemma StartedCounted(s: State, t: State, m: Id)
    requires Counted(s) && NoLostWakeup(s) && Started(s, t, m)
    ensures Counted(t) && NoLostWakeup(t)
    ensures Outstanding(s, m) == 0
  {
    StartedStack(s, t, m);
    forall x | x in t.modules
      ensures Outstanding(t, x) == Outstanding(s, x)
    {
      InFlightCons(Factory(m), s.stack[1..], x);
    }
    forall x | x in t.modules && !t.modules[x].complete && t.modules[x].unresolved == 0
      ensures Awake(t, x)
    {
      var f :| f in s.stack && (f.Resolving? || f.Completing?) && f.owner == x;
      assert f in t.stack;
    }
  }

  lemma StartedLifecycle(s: State, t: State, m: Id)
    requires Scoped(s) && Lifecycle(s) && Started(s, t, m)
    ensures Lifecycle(t)
  {
    StartedStack(s, t, m);
    assert !Ran(s, m);
    assert !Done(s, m);
    assert t.log == s.log + [Invocation(m, s.declared[m])];
    forall i, j | 0 <= i < j < |t.log|
      ensures t.log[i].id != t.log[j].id
    {
      assert t.log[i] == s.log[i];
    }
  }

  lemma StartedOrdered(s: State, t: State, m: Id)
    requires Scoped(s) && Ordered(s) && Lifecycle(s) && Outstanding(s, m) == 0 && Started(s, t, m)
    ensures Ordered(t)
  {
    StartedStack(s, t, m);
    assert !Done(s, m);
    forall x, d | x in t.modules && !t.modules[x].complete && x in t.declared && d in t.declared[x] && !d.IsPseudo()
      ensures Tracked(t, x, d)
    {
      assert Tracked(s, x, d);
      assert Unexamined(s, x, d) ==> Unexamined(t, x, d);
    }
    forall d | d in s.declared[m] && !d.IsPseudo()
      ensures RanBefore(t.log, |s.log|, d.Target()) || (m, d.Target()) in s.cut
    {
      StartedTracked(s, m, d);
      if Ran(s, d.Target()) {
        var k :| 0 <= k < |s.log| && s.log[k].id == d.Target();
        assert t.log[k].id == d.Target();
      }
    }
    forall k, d | 0 <= k < |s.log| && d in s.log[k].dependencies && !d.IsPseudo()
      ensures RanBefore(t.log, k, d.Target()) || (s.log[k].id, d.Target()) in s.cut
    {
      if RanBefore(s.log, k, d.Target()) {
        var j :| 0 <= j < k && j < |s.log| && s.log[j].id == d.Target();
        assert t.log[j].id == d.Target();
      }
    }
  }

  // A module that is owed no decrement has all its dependencies behind it.
  lemma StartedTracked(s: State, m: Id, d: Dependency)
    requires Tracked(s, m, d) && Outstanding(s, m) == 0
    ensures Ran(s, d.Target()) || (m, d.Target()) in s.cut
  {
    if Edge(s.inverse, d.Target(), m) {
      ListedEdge(s.inverse, d.Target(), m);
    }
    if Unexamined(s, m, d) {
      var f :| f in s.stack && f.Resolving? && f.owner == m && d in f.rest;
      InFlightMember(s.stack, f, m);
    }
  }

  lemma StartedScoped(s: State, t: State, m: Id)
    requires Scoped(s) && WaitsSound(s) && Started(s, t, m)
    ensures Scoped(t) && WaitsSound(t)
  {
    StartedStack(s, t, m);
  }

  lemma StartedCore(s: State, t: State, m: Id)
    requires Core(s) && Started(s, t, m)
    ensures Core(t)
  {
    OpenCore(s);
    StartedCounted(s, t, m);
    StartedScoped(s, t, m);
    StartedLifecycle(s, t, m);
    StartedOrdered(s, t, m);
    CloseCore(t);
  }

  /* ---- A factory returns ---- */

  ghost predicate Returned(s: State, t: State, m: Id, failed: bool) {
    && s.stack != [] && s.stack[0] == Factory(m)
    && m in s.modules
    && t == FactoryReturns(s, failed)
  }

  lemma ReturnedStack(s: State, t: State, m: Id, failed: bool)
    requires Returned(s, t, m, failed)
    ensures forall f :: f in t.stack ==> f in s.stack || f == Notifying(m, Successors(s.inverse, m))
    ensures forall f :: f in s.stack ==> f in t.stack || f == Factory(m)
    ensures Factory(m) in s.stack
    ensures Notifying(m, Successors(s.inverse, m)) in t.stack
    ensures forall x :: Ran(t, x) == Ran(s, x)
    ensures forall x :: Done(t, x) <==> Done(s, x) || x == m
    ensures forall d: Id, x: Id :: Edge(t.inverse, d, x) <==> Edge(s.inverse, d, x) && d != m
  {
    assert t.stack[0] == Notifying(m, Successors(s.inverse, m));
  }

  lemma ReturnedCounted(s: State, t: State, m: Id, failed: bool)
    requires Counted(s) && Returned(s, t, m, failed)
    ensures Counted(t)
  {
    ReturnedStack(s, t, m, failed);
    forall x | x in t.modules
      ensures Outstanding(t, x) == Outstanding(s, x)
    {
      ListedRemove(s.inverse, m, x);
      InFlightCons(Notifying(m, Successors(s.inverse, m)), s.stack[1..], x);
    }
    assert forall x :: x in s.modules ==> t.modules[x].unresolved == s.modules[x].unresolved;
    assert forall x :: x in s.modules ==> t.modules[x].complete == s.modules[x].complete;
  }

  lemma ReturnedLifecycle(s: State, t: State, m: Id, failed: bool)
    requires Lifecycle(s) && Returned(s, t, m, failed)
    ensures Lifecycle(t)
  {
    ReturnedStack(s, t, m, failed);
  }

  lemma ReturnedScoped(s: State, t: State, m: Id, failed: bool)
    requires Scoped(s) && WaitsSound(s) && Returned(s, t, m, failed)
    ensures Scoped(t) && WaitsSound(t)
  {
    ReturnedStack(s, t, m, failed);
    SubgraphAcyclic(s.inverse, t.inverse);
    assert forall x :: x in Successors(s.inverse, m) ==> Edge(s.inverse, m, x);
  }

  lemma ReturnedOrdered(s: State, t: State, m: Id, failed: bool)
    requires Lifecycle(s) && NoLostWakeup(s) && Ordered(s) && Returned(s, t, m, failed)
    ensures NoLostWakeup(t) && Ordered(t)
  {
    ReturnedStack(s, t, m, failed);
    forall x | Awake(s, x)
      ensures Awake(t, x)
    {
      var f :| f in s.stack && (f.Resolving? || f.Completing?) && f.owner == x;
      assert f in t.stack;
    }
    forall x, d | Tracked(s, x, d)
      ensures Tracked(t, x, d)
    {
      assert Ran(t, d.Target()) == Ran(s, d.Target());
      assert d.Target() == m ==> Ran(s, m);
      assert Unexamined(s, x, d) ==> Unexamined(t, x, d);
    }
  }

  lemma ReturnedCore(s: State, t: State, m: Id, failed: bool)
    requires Core(s) && Returned(s, t, m, failed)
    ensures Core(t)
  {
    OpenCore(s);
    ReturnedCounted(s, t, m, failed);
    ReturnedLifecycle(s, t, m, failed);
    ReturnedScoped(s, t, m, failed);
    ReturnedOrdered(s, t, m, failed);
    CloseCore(t);
  }
}
