/**
  How a module comes to wait for ever on a module that has been defined: the
  loader marks a module as failed when one of its dependencies has failed already,
  but does not tell the modules that wait on it.
 */
module LoaderStuck {
  import opened Graphs
  import opened LoaderModel
  import opened LoaderInvariant
  import opened LoaderRuns
  import opened Wrappers

  lemma NoPath(g: Graph, a: Id, b: Id)
    requires a !in g
    ensures !Reach(g, a, b)
  {
    if Reach(g, a, b) {
      var c := ReachFirst(g, a, b);
    }
  }

  function OneDependency(d: Id): Record {
    Record(Some([Regular(d)]), 1, false, false, false, false)
  }

  // Module m has been defined with the one dependency d and waits for it.
  function Waiting(s: State, m: Id, d: Id): State {
    s.(modules := s.modules[m := OneDependency(d)], declared := s.declared[m := [Regular(d)]],
       inverse := AddEdge(s.inverse, d, m), known := s.known + {d})
  }

  // Module m has been defined with the one dependency d, which had failed before.
  function FailedAtOnce(s: State, m: Id, d: Id): State {
    s.(modules := s.modules[m := OneDependency(d).(complete := true, error := true)],
       declared := s.declared[m := [Regular(d)]])
  }

  lemma Defined(s: State, m: Id, d: Id) returns (t: State)
    requires Reachable(s) && Quiet(s) && m !in s.modules
    ensures Reachable(t) && t.stack == [Resolving(m, [Regular(d)])]
    ensures t == s.(modules := s.modules[m := OneDependency(d)], declared := s.declared[m := [Regular(d)]], stack := t.stack)
  {
    t := Define(s, m, [Regular(d)], false, false);
    assert Apply(s, Defines(m, [Regular(d)], false, false)) == t;
    ReachableStep(s, t);
  }

  lemma Asks(s: State, m: Id, d: Id)
    requires Reachable(s) && Quiet(s) && m !in s.modules && d !in s.modules && d !in s.known && d != m
    ensures Reachable(Waiting(s, m, d).(stack := [Loading(d), Resolving(m, [])]))
  {
    var t := Defined(s, m, d);
    ReachableInv(t);
    assert Holds(t, Scopes);
    NoPath(DependencyGraph(t.modules), d, m);
    assert t.stack[0].rest == [Regular(d)] + [];
    var u := ResolveOne(t, m, Regular(d), []);
    assert u == Waiting(s, m, d).(stack := [Loading(d), Resolving(m, [])]);
    assert Apply(t, Tick) == u;
    ReachableStep(t, u);
  }

  lemma Waits(s: State, m: Id, d: Id)
    requires Reachable(s) && Quiet(s) && m !in s.modules && d !in s.modules && d !in s.known && d != m
    ensures Reachable(Waiting(s, m, d)) && Quiet(Waiting(s, m, d))
  {
    Asks(s, m, d);
    var u := Waiting(s, m, d).(stack := [Loading(d), Resolving(m, [])]);
    var v := Waiting(s, m, d).(stack := [Resolving(m, [])]);
    assert Apply(u, LoadEnds) == v;
    ReachableStep(u, v);
    ReachableInv(v);
    assert Holds(v, Scopes);
    assert Apply(v, Tick) == Waiting(s, m, d);
    ReachableStep(v, Waiting(s, m, d));
  }

  // Whenever a module waits on m, which nobody has defined yet, and d has failed: if
  // m turns out to depend on d, it fails at once, and whoever waits on it is left waiting.
  lemma FailureNotPropagated(s: State, m: Id, d: Id, x: Id)
    requires Reachable(s) && Quiet(s) && m !in s.modules && Edge(s.inverse, m, x)
    requires d in s.modules && s.modules[d].complete && s.modules[d].error
    ensures var t := FailedAtOnce(s, m, d);
      && Reachable(t) && Quiet(t) && Poisoned(t, m) && Edge(t.inverse, m, x)
      && x in s.modules && t.modules[x] == s.modules[x]
  {
    ReachableInv(s);
    assert Holds(s, Scopes) && Holds(s, Lives);
    FailsAtOnce(s, m, d);
  }

  lemma FailsAtOnce(s: State, m: Id, d: Id)
    requires Reachable(s) && Quiet(s) && m !in s.modules
    requires d in s.modules && s.modules[d].complete && s.modules[d].error
    ensures Reachable(FailedAtOnce(s, m, d))
  {
    var t := Defined(s, m, d);
    ReachableInv(t);
    assert Holds(t, Scopes);
    assert t.stack[0].rest == [Regular(d)] + [];
    assert ResolveOne(t, m, Regular(d), []) == FailedAtOnce(s, m, d);
    assert Apply(t, Tick) == FailedAtOnce(s, m, d);
    ReachableStep(t, FailedAtOnce(s, m, d));
  }

  /* ---- Such a state occurs: 5 waits on 4, 6 on 3, and the load of 3 fails ---- */

  function Asked(): State {
    Waiting(Waiting(EMPTY_STATE, 5, 4), 6, 3)
  }

  lemma Occurs() returns (s: State)
    ensures Reachable(s) && Quiet(s) && 4 !in s.modules && Edge(s.inverse, 4, 5) && !s.Complete(5)
    ensures 3 in s.modules && s.modules[3].complete && s.modules[3].error
  {
    assert IsRun([EMPTY_STATE]);
    Waits(EMPTY_STATE, 5, 4);
    Waits(Waiting(EMPTY_STATE, 5, 4), 6, 3);
    s := LoadError(Asked(), 3);
    assert Apply(Asked(), LoadFails(3)) == s;
    ReachableStep(Asked(), s);
    if Reach(Asked().inverse, 3, 5) {
      var c := ReachFirst(Asked().inverse, 3, 5);
      assert c == 6;
      NoPath(Asked().inverse, 6, 5);
    }
  }
}
