/** What a definition leaves behind, who is told of errors, and what is reported. */
module LoaderHandlers {
  import opened Graphs
  import opened LoaderModel
  import opened LoaderInvariant
  import opened LoaderRuns
  import opened Wrappers

  /* ---- A definition is kept until the factory returns ---- */

  // The record of m keeps what it was defined with; the error handler, the
  // dependencies and the factory go together, when the factory returns.
  ghost predicate Kept(s: State, t: State, m: Id) {
    && m in s.modules && m in t.modules && m in s.declared && m in t.declared
    && t.modules[m].throws == s.modules[m].throws && t.declared[m] == s.declared[m]
    && (t.modules[m].dependencies.Some? ==>
          t.modules[m].dependencies == s.modules[m].dependencies && t.modules[m].errorback == s.modules[m].errorback)
    && (t.modules[m].dependencies.None? ==>
          !t.modules[m].errorback || (s.modules[m].dependencies.None? && s.modules[m].errorback))
  }

  lemma ResolveKept(s: State, o: Id, d: Dependency, rest: seq<Dependency>, m: Id)
    requires s.stack != [] && o in s.modules && m in s.modules && m in s.declared
    ensures Kept(s, ResolveOne(s, o, d, rest), m)
  {
    var t, u := ResolveOne(s, o, d, rest), s.Swap(Resolving(o, rest));
    if d.IsPseudo() || s.Complete(d.Target()) || Reach(DependencyGraph(s.modules), d.Target(), o) {
      assert t.declared == s.declared;
    } else {
      assert t == Await(u, o, d);
      assert t.modules == s.modules && t.declared == s.declared;
    }
  }

  lemma TickKept(s: State, m: Id)
    requires Running(s) && WellScoped(s) && m in s.modules && m in s.declared
    ensures Kept(s, Internal(s), m)
  {
    assert s.stack[0] in s.stack;
    match s.stack[0]
    case Resolving(o, rest) =>
      if rest != [] {
        ResolveKept(s, o, rest[0], rest[1..], m);
      }
    case Completing(_) =>
    case Notifying(_, tail) =>
      if tail != [] {
        assert tail[0] in tail;
      }
    case Feeding(_, _) =>
  }

  lemma DefineKept(s: State, o: Id, deps: seq<Dependency>, errorback: bool, throws: bool, m: Id)
    requires m in s.modules && m in s.declared
    ensures Kept(s, Define(s, o, deps, errorback, throws), m)
  {
  }

  lemma LoadErrorKept(s: State, x: Id, m: Id)
    requires m in s.modules && m in s.declared
    ensures Kept(s, LoadError(s, x), m)
  {
  }

  lemma FactoryKept(s: State, failed: bool, m: Id)
    requires s.stack != [] && s.stack[0].Factory? && s.stack[0].owner in s.modules && m in s.modules && m in s.declared
    ensures Kept(s, FactoryReturns(s, failed), m)
  {
  }

  lemma EventKept(s: State, e: Event, m: Id)
    requires Enabled(s, e) && m in s.modules && m in s.declared
    ensures Kept(s, Apply(s, e), m)
  {
    match e
    case Tick => TickKept(s, m);
    case Defines(o, deps, errorback, throws) => DefineKept(s, o, deps, errorback, throws, m);
    case LoadFails(x) => LoadErrorKept(s, x, m);
    case FactoryEnds(failed) => FactoryKept(s, failed, m);
    case LoadEnds =>
  }

  lemma StepKept(s: State, t: State, m: Id)
    requires Inv(s) && Steps(s, t) && m in s.modules
    ensures Kept(s, t, m)
  {
    assert Holds(s, Scopes);
    assert Happens(Sealed, s, t);
    var e :| Enabled(s, e) && Apply(s, e) == t;
    EventKept(s, e, m);
  }

  // The record of m is that of a module defined in this way, whose factory may have returned.
  ghost predicate AsDefined(s: State, m: Id, deps: seq<Dependency>, errorback: bool, throws: bool) {
    && m in s.modules && m in s.declared && s.declared[m] == deps && s.modules[m].throws == throws
    && if s.modules[m].dependencies.None? then !s.modules[m].errorback
       else s.modules[m].dependencies == Some(deps) && s.modules[m].errorback == errorback
  }

  lemma DefinedNow(s: State, m: Id, deps: seq<Dependency>, errorback: bool, throws: bool)
    requires m !in s.modules && Enabled(s, Defines(m, deps, errorback, throws))
    ensures AsDefined(Apply(s, Defines(m, deps, errorback, throws)), m, deps, errorback, throws)
  {
  }

  lemma StillAsDefined(s: State, t: State, m: Id, deps: seq<Dependency>, errorback: bool, throws: bool)
    requires AsDefined(s, m, deps, errorback, throws) && Kept(s, t, m)
    ensures AsDefined(t, m, deps, errorback, throws)
  {
  }

  lemma RunStep(run: seq<State>, i: nat)
    requires IsRun(run) && i + 1 < |run|
    ensures Inv(run[i]) && Steps(run[i], run[i + 1])
  {
    RunInv(run, i);
    assert Linked(run, i + 1);
  }

  // In every run: once an id that was not defined is defined, its dependencies, its
  // error handler and its factory's outcome are those it was defined with, in every
  // later state until its factory returns; then it has no handler.
  lemma {:induction false} DefinitionKept(run: seq<State>, i: nat, j: nat, m: Id,
                                          deps: seq<Dependency>, errorback: bool, throws: bool)
    requires IsRun(run) && i < j < |run| && m !in run[i].modules
    requires Enabled(run[i], Defines(m, deps, errorback, throws))
    requires run[i + 1] == Apply(run[i], Defines(m, deps, errorback, throws))
    ensures AsDefined(run[j], m, deps, errorback, throws)
  {
    if j == i + 1 {
      DefinedNow(run[i], m, deps, errorback, throws);
    } else {
      DefinitionKept(run, i, j - 1, m, deps, errorback, throws);
      RunStep(run, j - 1);
      StepKept(run[j - 1], run[j], m);
      StillAsDefined(run[j - 1], run[j], m, deps, errorback, throws);
    }
  }

  /* ---- Who has an error handler ---- */

  // Before state i of the run, m was defined with an error handler.
  ghost predicate GivenHandler(run: seq<State>, i: nat, m: Id)
    requires i < |run|
  {
    exists k :: 0 <= k < i && DefinesHandler(run[k], run[k + 1], m)
  }

  ghost predicate Defining(x: Sealed, s: State, t: State, m: Id) {
    exists deps, throws :: Enabled(s, Defines(m, deps, true, throws)) && t == Apply(s, Defines(m, deps, true, throws))
  }

  ghost predicate DefinesHandler(s: State, t: State, m: Id) {
    m !in s.modules && forall x: Sealed :: Defining(x, s, t, m)
  }

  lemma HandlerGiven(s: State, t: State, m: Id)
    requires DefinesHandler(s, t, m)
    ensures m in t.modules && t.modules[m].errorback
  {
    assert Defining(Sealed, s, t, m);
    var deps, throws :| Enabled(s, Defines(m, deps, true, throws)) && t == Apply(s, Defines(m, deps, true, throws));
    DefinedNow(s, m, deps, true, throws);
  }

  // A new module comes from a definition, or from the failed load of its id.
  lemma NewModule(s: State, e: Event, t: State, m: Id)
    requires Enabled(s, e) && t == Apply(s, e) && m !in s.modules && m in t.modules
    ensures t.modules[m].dependencies.Some?
    ensures t.modules[m].errorback ==> e.Defines? && e == Defines(m, e.dependencies, true, e.throws)
  {
    match e
    case Tick => TickModules(s);
    case Defines(_, _, _, _) =>
    case LoadFails(_) =>
    case FactoryEnds(_) =>
    case LoadEnds =>
  }

  // A new module has a handler exactly if it was defined with one; the module made
  // for an id whose load fails has none.
  lemma NewHandler(s: State, t: State, m: Id)
    requires Steps(s, t) && m !in s.modules && m in t.modules
    ensures t.modules[m].dependencies.Some?
    ensures t.modules[m].errorback <==> DefinesHandler(s, t, m)
  {
    assert Happens(Sealed, s, t);
    var e :| Enabled(s, e) && Apply(s, e) == t;
    NewModule(s, e, t, m);
    if t.modules[m].errorback {
      assert t == Apply(s, Defines(m, e.dependencies, true, e.throws));
    } else if DefinesHandler(s, t, m) {
      HandlerGiven(s, t, m);
    }
  }

  lemma TickModules(s: State)
    requires Running(s) && WellScoped(s)
    ensures Internal(s).modules.Keys == s.modules.Keys
  {
    assert s.stack[0] in s.stack;
    match s.stack[0]
    case Resolving(o, rest) =>
      if rest != [] {
        ResolveModules(s, o, rest[0], rest[1..]);
      }
    case Completing(_) =>
    case Notifying(_, tail) =>
      if tail != [] {
        assert tail[0] in tail;
      }
    case Feeding(_, _) =>
  }

  lemma ResolveModules(s: State, o: Id, d: Dependency, rest: seq<Dependency>)
    requires s.stack != [] && o in s.modules
    ensures ResolveOne(s, o, d, rest).modules.Keys == s.modules.Keys
  {
    var t, u := ResolveOne(s, o, d, rest), s.Swap(Resolving(o, rest));
    if !(d.IsPseudo() || s.Complete(d.Target()) || Reach(DependencyGraph(s.modules), d.Target(), o)) {
      assert t == Await(u, o, d);
    }
  }

  lemma {:induction false} ModulesStay(run: seq<State>, i: nat, j: nat, m: Id)
    requires IsRun(run) && i <= j < |run| && m in run[i].modules
    ensures m in run[j].modules
  {
    if i < j {
      ModulesStay(run, i, j - 1, m);
      RunStep(run, j - 1);
      StepKept(run[j - 1], run[j], m);
    }
  }

  // Once it exists, a module is given no handler any more.
  lemma GivenStays(run: seq<State>, i: nat, m: Id)
    requires IsRun(run) && i + 1 < |run| && m in run[i].modules
    ensures GivenHandler(run, i + 1, m) <==> GivenHandler(run, i, m)
  {
    assert !DefinesHandler(run[i], run[i + 1], m);
  }

  lemma GivenFirst(run: seq<State>, i: nat, m: Id)
    requires IsRun(run) && i + 1 < |run| && m !in run[i].modules
    ensures GivenHandler(run, i + 1, m) <==> DefinesHandler(run[i], run[i + 1], m)
  {
    if GivenHandler(run, i + 1, m) {
      var k :| 0 <= k < i + 1 && DefinesHandler(run[k], run[k + 1], m);
      if k < i {
        HandlerGiven(run[k], run[k + 1], m);
        ModulesStay(run, k + 1, i, m);
      }
    }
  }

  // Whether the module still has the handler it was given, if it was given one.
  ghost predicate HandlerIs(s: State, m: Id, given: bool) {
    m in s.modules && (s.modules[m].errorback <==> s.modules[m].dependencies.Some? && given)
  }

  lemma HandlerStays(s: State, t: State, m: Id, given: bool)
    requires Inv(s) && Steps(s, t) && HandlerIs(s, m, given)
    ensures HandlerIs(t, m, given)
  {
    StepKept(s, t, m);
  }

  // A module has an error handler exactly if it was defined with one and its factory has not returned.
  lemma {:induction false} HandlerExactly(run: seq<State>, i: nat, m: Id)
    requires IsRun(run) && i < |run| && m in run[i].modules
    ensures HandlerIs(run[i], m, GivenHandler(run, i, m))
  {
    if i > 0 {
      RunStep(run, i - 1);
      if m in run[i - 1].modules {
        HandlerExactly(run, i - 1, m);
        GivenStays(run, i - 1, m);
        HandlerStays(run[i - 1], run[i], m, GivenHandler(run, i - 1, m));
      } else {
        NewHandler(run[i - 1], run[i], m);
        GivenFirst(run, i - 1, m);
      }
    }
  }

  /* ---- What is reported to the global handler ---- */

  // A failed load is reported exactly if no module that it reaches, and whose factory
  // has not returned, was defined with an error handler.
  lemma LoadErrorReported(run: seq<State>, i: nat, x: Id)
    requires IsRun(run) && i < |run| && Enabled(run[i], LoadFails(x))
    ensures var s := run[i];
      var told := exists m ::
        m in s.modules && Star(s.inverse, x, m) && s.modules[m].dependencies.Some? && GivenHandler(run, i, m);
      Apply(s, LoadFails(x)).reports == s.reports + if told then 0 else 1
  {
    var s := run[i];
    forall m | m in s.modules
      ensures s.modules[m].errorback <==> s.modules[m].dependencies.Some? && GivenHandler(run, i, m)
    {
      HandlerExactly(run, i, m);
    }
    LoadErrorTells(s, x);
  }

  lemma LoadErrorTells(s: State, x: Id)
    ensures LoadError(s, x).reports == s.reports +
      if exists m :: m in s.modules && Star(s.inverse, x, m) && s.modules[m].errorback then 0 else 1
  {
    if x !in s.modules {
      var t := s.(modules := s.modules[x := PLACEHOLDER], declared := s.declared[x := []]);
      assert SomeoneTold(t, x) <==> SomeoneTold(s, x);
    }
  }

  // Nothing else is reported but a factory that ends with an error.
  lemma OtherReports(s: State, e: Event)
    requires Inv(s) && Enabled(s, e) && !e.LoadFails?
    ensures Apply(s, e).reports == s.reports + if e == FactoryEnds(true) then 1 else 0
  {
    if e.Tick? {
      TickReports(s);
    }
  }

  lemma TickReports(s: State)
    requires Running(s) && WellScoped(s)
    ensures Internal(s).reports == s.reports
  {
    assert s.stack[0] in s.stack;
    match s.stack[0]
    case Resolving(o, rest) =>
      if rest != [] {
        ResolveReports(s, o, rest[0], rest[1..]);
      }
    case Completing(_) =>
    case Notifying(_, tail) =>
      if tail != [] {
        assert tail[0] in tail;
      }
    case Feeding(_, _) =>
  }

  lemma ResolveReports(s: State, o: Id, d: Dependency, rest: seq<Dependency>)
    requires s.stack != [] && o in s.modules
    ensures ResolveOne(s, o, d, rest).reports == s.reports
  {
    var t, u := ResolveOne(s, o, d, rest), s.Swap(Resolving(o, rest));
    if !(d.IsPseudo() || s.Complete(d.Target()) || Reach(DependencyGraph(s.modules), d.Target(), o)) {
      assert t == Await(u, o, d);
    }
  }

  /* ---- The cycle flag ---- */

  ghost predicate FlagRight(s: State) {
    s.cycleSeen <==> s.cut != {}
  }

  lemma ResolveFlag(s: State, o: Id, d: Dependency, rest: seq<Dependency>)
    requires s.stack != [] && o in s.modules && FlagRight(s)
    ensures FlagRight(ResolveOne(s, o, d, rest))
  {
    var t, u := ResolveOne(s, o, d, rest), s.Swap(Resolving(o, rest));
    if !d.IsPseudo() && !s.Complete(d.Target()) {
      if Reach(DependencyGraph(s.modules), d.Target(), o) {
        assert (o, d.Target()) in t.cut;
      } else {
        assert t == Await(u, o, d);
      }
    }
  }

  lemma EventFlag(s: State, e: Event)
    requires Enabled(s, e) && FlagRight(s)
    ensures FlagRight(Apply(s, e))
  {
    if e.Tick? {
      assert s.stack[0] in s.stack;
      match s.stack[0]
      case Resolving(o, rest) =>
        if rest != [] {
          ResolveFlag(s, o, rest[0], rest[1..]);
        }
      case Completing(_) =>
      case Notifying(_, tail) =>
        if tail != [] {
          assert tail[0] in tail;
        }
      case Feeding(_, _) =>
    }
  }

  lemma {:induction false} RunFlag(run: seq<State>, i: nat)
    requires IsRun(run) && i < |run|
    ensures FlagRight(run[i])
  {
    if i > 0 {
      RunFlag(run, i - 1);
      RunStep(run, i - 1);
      assert Happens(Sealed, run[i - 1], run[i]);
      var e :| Enabled(run[i - 1], e) && Apply(run[i - 1], e) == run[i];
      EventFlag(run[i - 1], e);
    }
  }

  // hasDependencyCycle is true exactly if some dependency has been cut.
  lemma CycleSeenExactly(s: State)
    requires Reachable(s)
    ensures s.cycleSeen <==> s.cut != {}
  {
    assert EndsRun(Sealed, s);
    var run :| IsRun(run) && run[|run| - 1] == s;
    RunFlag(run, |run| - 1);
  }

  /* ---- The order of waits ---- */

  // A module that has to wait is put behind those that wait already, and no other list changes.
  lemma WaitsInOrder(s: State, m: Id, d: Dependency, rest: seq<Dependency>)
    requires Enabled(s, Tick) && s.stack[0] == Resolving(m, [d] + rest)
    requires !d.IsPseudo() && !s.Complete(d.Target()) && !Reach(DependencyGraph(s.modules), d.Target(), m)
    ensures var t, x := Apply(s, Tick), d.Target();
      && x in t.inverse && t.inverse[x] == (if x in s.inverse then s.inverse[x] else []) + [m]
      && (forall y :: y != x ==> (y in t.inverse <==> y in s.inverse) && (y in s.inverse ==> t.inverse[y] == s.inverse[y]))
  {
    assert s.stack[0] in s.stack;
    assert ([d] + rest)[1..] == rest && Internal(s) == ResolveOne(s, m, d, rest);
    assert ResolveOne(s, m, d, rest) == Await(s.Swap(Resolving(m, rest)), m, d);
  }

  // When a factory returns, the modules that wait on it are to be notified in the
  // order in which they began to wait, and nobody waits on it any more.
  lemma NotifiedInOrder(s: State, failed: bool)
    requires Enabled(s, FactoryEnds(failed))
    ensures var t, m := Apply(s, FactoryEnds(failed)), s.stack[0].owner;
      && t.stack == [Notifying(m, if m in s.inverse then s.inverse[m] else [])] + s.stack[1..]
      && m !in t.inverse && forall y :: y != m && y in s.inverse ==> y in t.inverse && t.inverse[y] == s.inverse[y]
  {
  }

  // A resource whose plugin is not complete is parked behind those parked already.
  lemma ParkedInOrder(s: State, m: Id, d: Dependency, rest: seq<Dependency>)
    requires Enabled(s, Tick) && s.stack[0] == Resolving(m, [d] + rest) && d.Plugin?
    requires !s.Complete(d.resourceId) && !Reach(DependencyGraph(s.modules), d.resourceId, m)
    ensures var t, p := Apply(s, Tick), d.pluginId;
      if s.Complete(p) then t.pluginWaits == s.pluginWaits && t.Requested(d.resourceId)
      else
        && p in t.pluginWaits && t.Requested(p)
        && t.pluginWaits[p] == (if p in s.pluginWaits then s.pluginWaits[p] else []) + [d]
  {
    assert s.stack[0] in s.stack;
    assert ([d] + rest)[1..] == rest && Internal(s) == ResolveOne(s, m, d, rest);
    assert ResolveOne(s, m, d, rest) == Await(s.Swap(Resolving(m, rest)), m, d);
  }
}
