/**
  The module manager itself: objects with fields updated in place.  Its calls
  are proved against the state machine: each takes the state it starts from to
  the state in which the machine's own run of that call settles.
 */
module ModuleManagers {
  import opened Graphs
  import opened LoaderModel
  import opened LoaderInvariant
  import opened LoaderKeeps
  import opened LoaderSteps
  import opened LoaderRuns
  import opened LoaderSettle
  import opened Wrappers

  class Module {
    const id: Id
    var dependencies: Option<seq<Dependency>>
    var unresolved: int
    var isComplete: bool
    var error: bool
    var errorback: bool
    const throws: bool

    constructor (id: Id, dependencies: seq<Dependency>, errorback: bool, throws: bool)
      ensures this.id == id && Contents() == Record(Some(dependencies), |dependencies|, false, false, errorback, throws)
    {
      this.id := id;
      this.dependencies := Some(dependencies);
      this.unresolved := |dependencies|;
      this.isComplete := false;
      this.error := false;
      this.errorback := errorback;
      this.throws := throws;
    }

    function Contents(): Record
      reads this
    {
      Record(dependencies, unresolved, isComplete, error, errorback, throws)
    }

    // Runs the factory.  Reports whether it ended with an error.
    method Complete() returns (failed: bool)
      modifies this
      ensures failed == throws
      ensures Contents() == old(Contents()).(complete := true, dependencies := None, errorback := false,
                                            error := old(error) || throws)
    {
      isComplete := true;
      failed := throws;
      if failed {
        error := true;
      }
      dependencies := None;
      errorback := false;
    }

    // Reports whether the module has an error handler, which is then called.
    method OnDependencyError() returns (told: bool)
      modifies this
      ensures told == errorback
      ensures Contents() == old(Contents()).(complete := true, error := true)
    {
      isComplete := true;
      error := true;
      told := errorback;
    }
  }

  class ModuleManager {
    var modules: map<Id, Module>
    var inverse: map<Id, seq<Id>>
    var pluginWaits: map<Id, seq<Dependency>>
    var known: set<Id>
    var hasDependencyCycle: bool
    var reports: nat  // calls of the global error handler

    // The state of the machine that the fields stand for.
    ghost var view: State

    ghost function Objects(): set<Module>
      reads this`modules
    {
      set m | m in modules :: modules[m]
    }

    // Each id has its own object, which holds its record.
    ghost predicate Stores(records: map<Id, Record>)
      reads this`modules, Objects()
    {
      modules.Keys == records.Keys && forall m :: m in modules ==> modules[m].id == m && modules[m].Contents() == records[m]
    }

    ghost predicate FieldsMatch(s: State)
      reads this`inverse, this`pluginWaits, this`known, this`reports, this`hasDependencyCycle
    {
      && inverse == s.inverse && pluginWaits == s.pluginWaits && known == s.known
      && reports == s.reports && hasDependencyCycle == s.cycleSeen
    }

    // The fields hold exactly the state s.
    ghost predicate Matches(s: State)
      reads this`modules, this`inverse, this`pluginWaits, this`known, this`reports, this`hasDependencyCycle, Objects()
    {
      Stores(s.modules) && FieldsMatch(s)
    }

    ghost predicate Mirrors()
      reads this, Objects()
    {
      Matches(view)
    }

    ghost predicate Consistent()
      reads this, Objects()
    {
      Mirrors() && Inv(view)
    }

    // Between calls.
    ghost predicate Valid()
      reads this, Objects()
    {
      Mirrors() && Quiet(view) && Reachable(view)
    }

    constructor ()
      ensures Valid() && view == EMPTY_STATE && modules == map[]
    {
      modules, inverse, pluginWaits, known := map[], map[], map[], {};
      hasDependencyCycle, reports := false, 0;
      view := EMPTY_STATE;
      new;
      assert IsRun([EMPTY_STATE]);
    }

    // One round of the search: puts the defined targets that were not met before
    // into the queue, unless the goal is among the targets.
    method Enqueue(dependencies: seq<Dependency>, to: Id, met: set<Id>, waiting: seq<Id>)
      returns (hit: bool, inQueue: set<Id>, queue: seq<Id>)
      requires NoRepeats(waiting) && Elements(waiting) <= met
      ensures hit <==> to in Targets(dependencies)
      ensures !hit ==> inQueue == met + Elements(Targets(dependencies)) * modules.Keys
      ensures met <= inQueue && NoRepeats(queue) && Elements(queue) == Elements(waiting) + (inQueue - met)
    {
      inQueue, queue := met, waiting;
      ghost var targets := Targets(dependencies);
      for i := 0 to |dependencies|
        invariant to !in targets[..i]
        invariant inQueue == met + Elements(targets[..i]) * modules.Keys
        invariant NoRepeats(queue) && Elements(queue) == Elements(waiting) + (inQueue - met)
      {
        var dependency := dependencies[i].Target();
        assert targets[..i + 1] == targets[..i] + [dependency];
        if dependency == to {
          return true, inQueue, queue;
        }
        if dependency in modules && dependency !in inQueue {
          inQueue := inQueue + {dependency};
          queue := queue + [dependency];
        }
      }
      assert targets[..|dependencies|] == targets;
      hit := false;
    }

    // Is there a chain of one or more dependencies from `from` to `to`?
    method HasDependencyPath(from: Id, to: Id) returns (found: bool)
      requires Mirrors()
      ensures found <==> Reach(DependencyGraph(view.modules), from, to)
    {
      ghost var g := DependencyGraph(view.modules);
      if from !in modules {
        NoEdgeNoPath(g, from, to);
        return false;
      }
      var inQueue := {from};
      var queue := [from];
      ghost var visited: set<Id> := {};
      while queue != []
        invariant Mirrors()
        invariant from in inQueue && inQueue <= modules.Keys
        invariant NoRepeats(queue) && visited !! Elements(queue) && visited + Elements(queue) == inQueue
        invariant Met(g, from, inQueue) && Explored(g, visited, inQueue, modules.Keys, to)
        decreases modules.Keys - visited
      {
        var element := queue[0];
        assert queue == [element] + queue[1..];
        assert element in Elements(queue);
        queue := queue[1..];
        ghost var before := inQueue;
        if modules[element].dependencies.Some? {
          var dependencies := modules[element].dependencies.value;
          var hit;
          hit, inQueue, queue := Enqueue(dependencies, to, inQueue, queue);
          if hit {
            SearchHit(g, from, element, to, before);
            return true;
          }
        }
        SearchRound(g, from, element, to, visited, before, inQueue, modules.Keys);
        visited := visited + {element};
      }
      assert Elements(queue) == {};
      NotReached(g, inQueue, modules.Keys, from, to);
      return false;
    }

    // A chain from `from` to `to`, innermost first, or cut off after fifty edges.
    method FindCyclePath(from: Id, to: Id, depth: nat) returns (path: Option<seq<Id>>)
      requires Mirrors() && depth <= 50
      ensures path.Some? ==> Trail(DependencyGraph(view.modules), Reversed(path.value), from, to, 51 - depth)
      ensures path.None? ==> NoTrail(DependencyGraph(view.modules), from, to, 51 - depth)
      decreases 50 - depth
    {
      ghost var g := DependencyGraph(view.modules);
      ghost var n: nat := 51 - depth;
      if from == to || depth == 50 {
        return Some([from]);
      }
      if from in modules && modules[from].dependencies.Some? {
        var dependencies := modules[from].dependencies.value;
        assert g[from] == Targets(dependencies);
        for i := 0 to |dependencies|
          invariant Mirrors()
          invariant forall j :: 0 <= j < i ==> NoTrail(g, g[from][j], to, n - 1)
        {
          var found := FindCyclePath(dependencies[i].Target(), to, depth + 1);
          if found.Some? {
            ghost var rest := Reversed(found.value);
            assert Edge(g, from, g[from][i]);
            assert ([from] + rest)[1..] == rest;
            assert Reversed(found.value + [from]) == [from] + rest by {
              assert (found.value + [from])[..|found.value|] == found.value;
            }
            return Some(found.value + [from]);
          }
        }
      }
      path := None;
      forall p: seq<Id>
        ensures !Trail(g, p, from, to, n)
      {
        if |p| > 1 && Edge(g, from, p[1]) {
          var j :| 0 <= j < |g[from]| && g[from][j] == p[1];
          assert forall i :: 0 <= i < |p| - 1 ==> p[1..][i] == p[i + 1];
          assert !Trail(g, p[1..], g[from][j], to, n - 1);
        }
      }
    }

    // The warning about a cycle: the chain from d back to m, closed with d again.
    method DescribeCycle(m: Id, d: Id) returns (cycle: seq<Id>)
      requires Mirrors() && Reach(DependencyGraph(view.modules), d, m) && Edge(DependencyGraph(view.modules), m, d)
      ensures 2 <= |cycle| <= 52 && cycle[0] == d == cycle[|cycle| - 1]
      ensures IsPath(DependencyGraph(view.modules), cycle[..|cycle| - 1])
      ensures |cycle| < 52 || cycle[|cycle| - 2] == m ==> IsPath(DependencyGraph(view.modules), cycle)
      ensures !Detour(DependencyGraph(view.modules), d, m, 51) ==> cycle[|cycle| - 2] == m
    {
      ghost var g := DependencyGraph(view.modules);
      var path := FindCyclePath(d, m, 0);
      SomeTrail(g, d, m, 51);
      var chain := Reversed(path.value);
      cycle := chain + [d];
      assert cycle[..|cycle| - 1] == chain;
      if chain[|chain| - 1] == m {
        assert IsPath(g, [m, d]) by {
          assert [m, d][1..] == [d];
        }
        PathConcat(g, chain, [m, d]);
        assert chain + [m, d][1..] == cycle;
      }
    }

    // One dependency fewer to wait for.
    method CountDown(m: Id, ghost after: State)
      requires Mirrors() && m in modules && CountRecorded(view, after, m)
      modifies modules[m], this`view
      ensures Mirrors() && view == after
    {
      CountDownOne(m, view.modules);
      Become(after);
    }

    method CountDownOne(m: Id, ghost records: map<Id, Record>)
      requires Stores(records) && m in modules
      modifies modules[m]
      ensures Stores(records[m := records[m].(unresolved := records[m].unresolved - 1)])
    {
      modules[m].unresolved := modules[m].unresolved - 1;
    }

    // The module fails without its factory having run.
    method Fail(m: Id, ghost after: State)
      requires Mirrors() && m in modules && FailRecorded(view, after, m)
      modifies modules[m], this`view
      ensures Mirrors() && view == after
    {
      FailRecord(m, view.modules);
      Become(after);
    }

    method FailRecord(m: Id, ghost records: map<Id, Record>)
      requires Stores(records) && m in modules
      modifies modules[m]
      ensures Stores(records[m := records[m].(complete := true, error := true)])
    {
      var _ := modules[m].OnDependencyError();
    }

    // Asks the script loader for an id nobody has asked for.  The answer comes later.
    method LoadModule(id: Id)
      modifies this`known
      ensures known == if id in modules then old(known) else old(known) + {id}
    {
      if id in modules || id in known {
        return;
      }
      known := known + {id};
    }

    // Examines the dependencies of a new module one by one.
    method Resolve(m: Id)
      requires Consistent() && m in modules && modules[m].dependencies.Some?
      requires view.stack != [] && view.stack[0] == Resolving(m, modules[m].dependencies.value)
      modifies this, Objects()
      ensures Consistent() && modules == old(modules) && view.stack == old(view.stack)[1..]
      ensures Leads(old(view), view)
    {
      var dependencies := modules[m].dependencies.value;
      ghost var below := view.stack[1..];
      LeadsRefl(view);
      for i := 0 to |dependencies|
        invariant Consistent() && modules == old(modules)
        invariant view.stack == [Resolving(m, dependencies[i..])] + below
        invariant Leads(old(view), view)
      {
        assert dependencies[i..] == [dependencies[i]] + dependencies[i + 1..];
        ghost var before := view;
        var failed := Examine(m, dependencies[i], dependencies[i + 1..]);
        LeadsTrans(old(view), before, view);
        if failed {
          return;
        }
      }
      assert dependencies[|dependencies|..] == [];
      ghost var next := ResolveEndNext(view, m);
      LeadsTrans(old(view), view, next);
      Become(next);
      if modules[m].unresolved == 0 {
        ghost var before := view;
        OnModuleComplete(m);
        LeadsTrans(old(view), before, view);
      }
    }

    // One round of the loop in Resolve.  Reports a dependency that has failed already.
    method Examine(m: Id, dependency: Dependency, ghost rest: seq<Dependency>) returns (failed: bool)
      requires Consistent() && m in modules
      requires view.stack != [] && view.stack[0] == Resolving(m, [dependency] + rest)
      modifies this, Objects()
      ensures Consistent() && modules == old(modules)
      ensures view.stack == (if failed then [] else [Resolving(m, rest)]) + old(view.stack)[1..]
      ensures Leads(old(view), view)
    {
      var d := dependency.Target();
      failed := false;
      if dependency.IsPseudo() {
        ghost var next := SettledNext(view, m, dependency, rest);
        CountDown(m, next);
      } else if d in modules && modules[d].isComplete {
        failed := ExamineComplete(m, dependency, rest);
      } else {
        var cyclic := HasDependencyPath(d, m);
        if cyclic {
          BreakCycle(m, dependency, rest);
        } else {
          RecordWait(m, dependency, rest);
        }
      }
    }

    // The dependency is complete: its failure is taken over, or it counts as resolved.
    method ExamineComplete(m: Id, dependency: Dependency, ghost rest: seq<Dependency>) returns (failed: bool)
      requires Consistent() && m in modules && !dependency.IsPseudo() && view.Complete(dependency.Target())
      requires view.stack != [] && view.stack[0] == Resolving(m, [dependency] + rest)
      modifies this, modules[m]
      ensures Consistent() && modules == old(modules)
      ensures view.stack == (if failed then [] else [Resolving(m, rest)]) + old(view.stack)[1..]
      ensures Leads(old(view), view)
    {
      failed := modules[dependency.Target()].error;
      if failed {
        ghost var next := FailedNext(view, m, dependency, rest);
        Fail(m, next);
      } else {
        ghost var next := SettledNext(view, m, dependency, rest);
        CountDown(m, next);
      }
    }

    // The dependency closes a cycle: the module does not wait for it.
    method BreakCycle(m: Id, dependency: Dependency, ghost rest: seq<Dependency>)
      requires Consistent() && m in modules && !dependency.IsPseudo() && !view.Complete(dependency.Target())
      requires view.stack != [] && view.stack[0] == Resolving(m, [dependency] + rest)
      requires Reach(DependencyGraph(view.modules), dependency.Target(), m)
      modifies this, modules[m]
      ensures Consistent() && modules == old(modules)
      ensures view.stack == [Resolving(m, rest)] + old(view.stack)[1..]
      ensures Leads(old(view), view)
    {
      Warn(m, dependency, rest);
      ghost var next := CutNext(view, m, dependency, rest);
      CutDependency(m, next);
    }

    // The warning that a cycle was found.
    method Warn(m: Id, dependency: Dependency, ghost rest: seq<Dependency>)
      requires Consistent() && !dependency.IsPseudo() && Reach(DependencyGraph(view.modules), dependency.Target(), m)
      requires m in modules && view.stack != [] && view.stack[0] == Resolving(m, [dependency] + rest)
    {
      TopEdge(view, m, dependency, rest);
      var _ := DescribeCycle(m, dependency.Target());
    }

    // Breaks the cycle.
    method CutDependency(m: Id, ghost next: State)
      requires Mirrors() && m in modules && CutRecorded(view, next, m)
      modifies this, modules[m]
      ensures Mirrors() && modules == old(modules) && view == next
    {
      CountDownOne(m, view.modules);
      hasDependencyCycle := true;
      Become(next);
    }

    // The module has to wait: records that, and asks for whatever is missing.
    method RecordWait(m: Id, dependency: Dependency, ghost rest: seq<Dependency>)
      requires Consistent() && m in modules && !dependency.IsPseudo() && !view.Complete(dependency.Target())
      requires view.stack != [] && view.stack[0] == Resolving(m, [dependency] + rest)
      requires !Reach(DependencyGraph(view.modules), dependency.Target(), m)
      modifies this
      ensures Consistent() && modules == old(modules)
      ensures view.stack == [Resolving(m, rest)] + old(view.stack)[1..]
      ensures Leads(old(view), view)
    {
      ghost var next := WaitNext(view, m, dependency, rest);
      AskFor(m, dependency, view, next);
      Become(next);
    }

    // Records the wait of m, and asks for the dependency or for its plugin.
    method AskFor(m: Id, dependency: Dependency, ghost s: State, ghost t: State)
      requires Matches(s) && WaitRecorded(s, t, m, dependency)
      modifies this`inverse, this`pluginWaits, this`known
      ensures Matches(t)
    {
      RecordInverse(dependency.Target(), m);
      var asked := Park(dependency, s);
      LoadModule(asked);
    }

    method RecordInverse(d: Id, m: Id)
      modifies this`inverse
      ensures inverse == AddEdge(old(inverse), d, m)
    {
      inverse := inverse[d := (if d in inverse then inverse[d] else []) + [m]];
    }

    // The module to ask for: a plugin resource is parked until its plugin is complete.
    method Park(dependency: Dependency, ghost s: State) returns (asked: Id)
      requires Stores(s.modules) && pluginWaits == s.pluginWaits
      modifies this`pluginWaits
      ensures asked == Supplier(s, dependency)
      ensures pluginWaits == if dependency.Plugin? && asked == dependency.pluginId && !s.Complete(asked)
                             then s.Park(dependency).pluginWaits else s.pluginWaits
    {
      if dependency.Plugin? && !(dependency.pluginId in modules && modules[dependency.pluginId].isComplete) {
        var plugin := dependency.pluginId;
        pluginWaits := pluginWaits[plugin := (if plugin in pluginWaits then pluginWaits[plugin] else []) + [dependency]];
        return plugin;
      }
      return dependency.Target();
    }

    // Runs the factory, then lets every waiting module know, then the waiting plugin resources.
    method OnModuleComplete(m: Id)
      requires Consistent() && m in modules && view.stack != [] && view.stack[0] == Completing(m)
      modifies this, Objects()
      ensures Consistent() && modules == old(modules) && view.stack == old(view.stack)[1..]
      ensures Leads(old(view), view)
      ensures Incomplete(view) <= old(Incomplete(view))
      decreases Incomplete(view), 1
    {
      ghost var below := view.stack[1..];
      if modules[m].isComplete {
        ghost var next := CompletedNext(view, m);
        Become(next);
        return;
      }
      var inverseDeps := RunFactory(m);
      NotifyAll(m, inverseDeps, old(view));
      FeedAll(m, old(view));
      LeadsInv(old(view), view);
    }

    // Completes the module, then fetches and clears its inverse dependencies.
    method RunFactory(m: Id) returns (inverseDeps: seq<Id>)
      requires Consistent() && m in modules && !modules[m].isComplete
      requires view.stack != [] && view.stack[0] == Completing(m)
      modifies this, modules[m]
      ensures Consistent() && modules == old(modules)
      ensures view.stack == [Notifying(m, inverseDeps)] + old(view.stack)[1..]
      ensures Leads(old(view), view) && Incomplete(view) < old(Incomplete(view))
    {
      ghost var next := FactoryNext(view, m);
      inverseDeps := CompleteModule(m, next);
    }

    method CompleteModule(m: Id, ghost next: State) returns (inverseDeps: seq<Id>)
      requires Mirrors() && m in modules && FactoryDone(view, next, m)
      modifies this`reports, this`inverse, this`view, modules[m]
      ensures Mirrors() && view == next && inverseDeps == Successors(old(inverse), m)
    {
      var failed := CompleteOne(m, view.modules);
      inverseDeps := EndFactory(m, failed, next);
    }

    method EndFactory(m: Id, failed: bool, ghost next: State) returns (inverseDeps: seq<Id>)
      requires Stores(next.modules) && FieldsMatch(view) && m in view.modules && FactoryDone(view, next, m)
      requires failed == view.modules[m].throws
      modifies this`reports, this`inverse, this`view
      ensures Mirrors() && view == next && inverseDeps == Successors(old(inverse), m)
    {
      reports := if failed then reports + 1 else reports;
      inverseDeps := TakeInverse(m);
      Become(next);
    }

    // Fetches and clears the inverse dependencies of m.
    method TakeInverse(m: Id) returns (inverseDeps: seq<Id>)
      modifies this`inverse
      ensures inverse == old(inverse) - {m} && inverseDeps == Successors(old(inverse), m)
    {
      inverseDeps := if m in inverse then inverse[m] else [];
      inverse := inverse - {m};
    }

    method CompleteOne(m: Id, ghost records: map<Id, Record>) returns (failed: bool)
      requires Stores(records) && m in modules
      modifies modules[m]
      ensures Stores(records[m := AfterFactory(records[m])]) && failed == records[m].throws
    {
      failed := modules[m].Complete();
    }

    // The machine follows the fields.
    ghost method Become(t: State)
      requires Matches(t)
      modifies this`view
      ensures Mirrors() && view == t
    {
      view := t;
    }

    // The loop over inverse dependencies.
    method NotifyAll(m: Id, inverseDeps: seq<Id>, ghost start: State)
      requires Consistent() && view.stack != [] && view.stack[0] == Notifying(m, inverseDeps)
      requires Leads(start, view) && Incomplete(view) < Incomplete(start)
      modifies this, Objects()
      ensures Consistent() && modules == old(modules)
      ensures view.stack == [Notifying(m, [])] + old(view.stack)[1..] && Leads(start, view)
      decreases Incomplete(start), 0
    {
      for i := 0 to |inverseDeps|
        invariant Consistent() && modules == old(modules)
        invariant view.stack == [Notifying(m, inverseDeps[i..])] + old(view.stack)[1..]
        invariant Leads(start, view) && Incomplete(view) < Incomplete(start)
      {
        assert inverseDeps[i..] == [inverseDeps[i]] + inverseDeps[i + 1..];
        ghost var before := view;
        NotifyDependent(m, inverseDeps[i], inverseDeps[i + 1..]);
        LeadsTrans(start, before, view);
      }
      assert inverseDeps[|inverseDeps|..] == [];
    }

    // The loop over the plugin resources that wait for this module.
    method FeedAll(m: Id, ghost start: State)
      requires Consistent() && view.stack != [] && view.stack[0] == Notifying(m, []) && Leads(start, view)
      modifies this
      ensures Consistent() && modules == old(modules)
      ensures view.stack == old(view.stack)[1..] && Leads(start, view)
    {
      var resources := TakeResources(m);
      LeadsTrans(start, old(view), view);
      for i := 0 to |resources|
        invariant Consistent() && modules == old(modules)
        invariant view.stack == [Feeding(m, resources[i..])] + old(view.stack)[1..]
        invariant Leads(start, view)
      {
        assert resources[i..] == [resources[i]] + resources[i + 1..];
        ghost var before := view;
        LoadPluginDependency(m, resources[i], resources[i + 1..]);
        LeadsTrans(start, before, view);
      }
      assert resources[|resources|..] == [];
      ghost var next := PopNext(view);
      LeadsTrans(start, view, next);
      Become(next);
    }

    // Fetches and clears the plugin resources that wait for m.
    method TakeResources(m: Id) returns (resources: seq<Dependency>)
      requires Consistent() && view.stack != [] && view.stack[0] == Notifying(m, [])
      modifies this`pluginWaits, this`view
      ensures Consistent() && Leads(old(view), view)
      ensures view.stack == [Feeding(m, resources)] + old(view.stack)[1..]
    {
      ghost var next := NotifyEndNext(view, m);
      resources := if m in pluginWaits then pluginWaits[m] else [];
      pluginWaits := pluginWaits - {m};
      Become(next);
    }

    // One round of the loop over inverse dependencies.
    method NotifyDependent(m: Id, x: Id, ghost rest: seq<Id>)
      requires Consistent() && view.stack != [] && view.stack[0] == Notifying(m, [x] + rest)
      modifies this, Objects()
      ensures Consistent() && modules == old(modules) && view.stack == [Notifying(m, rest)] + old(view.stack)[1..]
      ensures Leads(old(view), view) && Incomplete(view) <= old(Incomplete(view))
      decreases Incomplete(view), 2
    {
      ghost var next := ToldNext(view, m, x, rest);
      CountDown(x, next);
      if modules[x].unresolved == 0 {
        ghost var before := view;
        assert view.stack == [Completing(x)] + ([Notifying(m, rest)] + old(view.stack)[1..]);
        LeadsInv(old(view), view);
        OnModuleComplete(x);
        LeadsTrans(old(view), before, view);
      }
      LeadsInv(old(view), view);
    }

    // Hands one resource to the plugin that has just become available.
    method LoadPluginDependency(m: Id, resource: Dependency, ghost rest: seq<Dependency>)
      requires Consistent() && view.stack != [] && view.stack[0] == Feeding(m, [resource] + rest)
      modifies this
      ensures Consistent() && modules == old(modules) && view.stack == [Feeding(m, rest)] + old(view.stack)[1..]
      ensures Leads(old(view), view)
    {
      ghost var next := FeedNext(view, m, resource, rest);
      LoadModule(resource.Target());
      Become(next);
    }

    // Defines a module and resolves its dependencies at once.
    method DefineModule(m: Id, dependencies: seq<Dependency>, errorback: bool, throws: bool)
      requires Valid()
      modifies this, Objects()
      ensures Valid() && fresh(Objects() - old(Objects()))
      ensures Inv(Define(old(view), m, dependencies, errorback, throws))
      ensures view == Settle(Define(old(view), m, dependencies, errorback, throws))
    {
      ReachableInv(view);
      DefineKeeps(view, m, dependencies, errorback, throws);
      if m in modules {
        // A second definition is ignored.
        return;
      }
      ghost var start := Define(view, m, dependencies, errorback, throws);
      assert Apply(view, Defines(m, dependencies, errorback, throws)) == start;
      ReachableStep(view, start);
      AddModule(m, dependencies, errorback, throws, start);
      Resolve(m);
      LeadsEnd(start, view);
    }

    // A new module object, stored under its id.
    method AddModule(m: Id, dependencies: seq<Dependency>, errorback: bool, throws: bool, ghost next: State)
      requires Mirrors() && m !in modules && OnlyModules(view, next)
      requires next.modules == view.modules[m := Record(Some(dependencies), |dependencies|, false, false, errorback, throws)]
      modifies this`modules, this`view
      ensures Mirrors() && view == next && m in modules && modules == old(modules)[m := modules[m]] && fresh(modules[m])
    {
      var created := new Module(m, dependencies, errorback, throws);
      modules := modules[m := created];
      Become(next);
    }

    // The script of x could not be loaded: everything that waits on x, directly
    // or not, fails; the global handler is called when no local one was.
    method OnLoadError(x: Id)
      requires Valid() && x in known
      modifies this, Objects()
      ensures Valid() && fresh(Objects() - old(Objects()))
      ensures view == LoadError(old(view), x)
    {
      LoadErrorStep(view, x);
      LoadErrorFields(view, x);
      FailDependents(x);
    }

    // The body of OnLoadError.
    method FailDependents(x: Id)
      requires Mirrors()
      requires forall d: Id, m: Id :: Edge(inverse, d, m) ==> m in modules
      requires LoadErrorExplained(view, x)
      modifies this, Objects()
      ensures Mirrors() && fresh(Objects() - old(Objects()))
      ensures view == LoadError(old(view), x)
    {
      ghost var start := view;
      Place(x);
      var someoneNotified := Spread(x);
      Report(x, someoneNotified, start);
    }

    // The global handler is called unless a local one was.
    method Report(x: Id, someoneNotified: bool, ghost start: State)
      requires MarkedOnly(set m | m in modules && Star(inverse, x, m))
      requires FieldsMatch(view)
      requires view == Placed(start, x) && LoadErrorExplained(start, x)
      requires someoneNotified <==> exists m :: m in view.modules && Star(inverse, x, m) && view.modules[m].errorback
      modifies this`reports, this`view
      ensures Mirrors() && view == LoadError(start, x)
    {
      reports := if someoneNotified then reports else reports + 1;
      Become(LoadError(start, x));
    }

    // An id that was never defined gets a module without dependencies.
    method Place(x: Id)
      requires Mirrors()
      modifies this
      ensures Mirrors() && view == Placed(old(view), x) && x in modules
      ensures fresh(Objects() - old(Objects()))
    {
      if x !in modules {
        AddModule(x, [], false, false, Placed(view, x));
      }
    }

    // The modules in `failed` have been marked, the others are as in the view.
    ghost predicate MarkedOnly(failed: set<Id>)
      reads this, Objects()
    {
      && modules.Keys == view.modules.Keys
      && (forall m :: m in modules ==> modules[m].id == m)
      && (forall m :: m in modules ==>
            modules[m].Contents() ==
              if m in failed then view.modules[m].(complete := true, error := true) else view.modules[m])
    }

    method FailOne(m: Id, ghost failed: set<Id>) returns (told: bool)
      requires MarkedOnly(failed) && m in modules && m !in failed
      modifies modules[m]
      ensures MarkedOnly(failed + {m}) && told == view.modules[m].errorback
    {
      told := modules[m].OnDependencyError();
    }

    // The walk along inverse dependencies.  Reports whether some module had an error handler.
    method Spread(x: Id) returns (told: bool)
      requires MarkedOnly({}) && x in modules
      requires forall d: Id, m: Id :: Edge(inverse, d, m) ==> m in modules
      modifies Objects()
      ensures MarkedOnly(set m | m in modules && Star(inverse, x, m))
      ensures told <==> exists m :: m in view.modules && Star(inverse, x, m) && view.modules[m].errorback
    {
      told := false;
      var seen := {x};
      var queue := [x];
      ghost var visited: set<Id> := {};
      while queue != []
        invariant Walk(inverse, x, modules.Keys, visited, seen, queue)
        invariant MarkedOnly(visited)
        invariant told <==> HandlerAmong(view.modules, visited)
        decreases modules.Keys - visited
      {
        var element := queue[0];
        WalkHead(inverse, x, modules.Keys, visited, seen, queue);
        var notified := FailOne(element, visited);
        told := notified || told;
        ghost var met, waiting := seen, queue;
        seen, queue := EnqueueUnseen(if element in inverse then inverse[element] else [], seen, queue[1..]);
        WalkRound(inverse, x, modules.Keys, visited, met, waiting, seen, queue);
        visited := visited + {element};
      }
      WalkDone(inverse, x, modules.Keys, visited, seen);
      assert visited == set m | m in modules && Star(inverse, x, m);
    }

    // Puts the ids that were not met before into the queue.
    method EnqueueUnseen(ids: seq<Id>, met: set<Id>, waiting: seq<Id>) returns (seen: set<Id>, queue: seq<Id>)
      requires NoRepeats(waiting) && Elements(waiting) <= met
      ensures seen == met + Elements(ids)
      ensures NoRepeats(queue) && Elements(queue) == Elements(waiting) + (seen - met)
    {
      seen, queue := met, waiting;
      for i := 0 to |ids|
        invariant seen == met + Elements(ids[..i])
        invariant NoRepeats(queue) && Elements(queue) == Elements(waiting) + (seen - met)
      {
        assert ids[..i + 1] == ids[..i] + [ids[i]];
        if ids[i] !in seen {
          seen := seen + {ids[i]};
          queue := queue + [ids[i]];
        }
      }
      assert ids[..|ids|] == ids;
    }
  }

  /* ---- The steps of the machine, field by field ---- */

  // t differs from s in its modules, and in what no field stands for.
  ghost predicate OnlyModules(s: State, t: State) {
    t.inverse == s.inverse && t.pluginWaits == s.pluginWaits && t.known == s.known && t.reports == s.reports
    && t.cycleSeen == s.cycleSeen
  }

  ghost predicate CountRecorded(s: State, t: State, m: Id)
    requires m in s.modules
  {
    && OnlyModules(s, t)
    && t.modules == s.modules[m := s.modules[m].(unresolved := s.modules[m].unresolved - 1)]
  }

  ghost predicate FailRecorded(s: State, t: State, m: Id)
    requires m in s.modules
  {
    && OnlyModules(s, t)
    && t.modules == s.modules[m := s.modules[m].(complete := true, error := true)]
  }

  // From s to t a dependency of m on a cycle has been cut.
  ghost predicate CutRecorded(s: State, t: State, m: Id)
    requires m in s.modules
  {
    && t.modules == s.modules[m := s.modules[m].(unresolved := s.modules[m].unresolved - 1)]
    && t.inverse == s.inverse && t.pluginWaits == s.pluginWaits && t.known == s.known && t.reports == s.reports
    && t.cycleSeen
  }

  // From s to t the wait of m on d has been recorded and what is missing asked for.
  ghost predicate WaitRecorded(s: State, t: State, m: Id, d: Dependency) {
    && t.modules == s.modules && t.inverse == AddEdge(s.inverse, d.Target(), m)
    && t.known == (if Supplier(s, d) in s.modules then s.known else s.known + {Supplier(s, d)})
    && t.pluginWaits == (if d.Plugin? && !s.Complete(d.pluginId) then s.Park(d).pluginWaits else s.pluginWaits)
    && t.reports == s.reports && t.cycleSeen == s.cycleSeen
  }

  // From s to t the factory of m has run and its inverse dependencies have been cleared.
  ghost predicate FactoryDone(s: State, t: State, m: Id)
    requires m in s.modules
  {
    && t.modules == s.modules[m := AfterFactory(s.modules[m])]
    && t.reports == s.reports + (if s.modules[m].throws then 1 else 0)
    && t.inverse == s.inverse - {m}
    && t.pluginWaits == s.pluginWaits && t.known == s.known && t.cycleSeen == s.cycleSeen
  }

  // The lemmas below give the state after a step of the machine by its fields only.

  lemma SettledNext(s: State, m: Id, d: Dependency, rest: seq<Dependency>) returns (t: State)
    requires Inv(s) && s.stack != [] && s.stack[0] == Resolving(m, [d] + rest) && m in s.modules
    requires d.IsPseudo() || (s.Complete(d.Target()) && !s.modules[d.Target()].error)
    ensures Leads(s, t) && Inv(t) && CountRecorded(s, t, m) && t.stack == [Resolving(m, rest)] + s.stack[1..]
  {
    SettledLeads(s, m, d, rest);
    t := s.Decrement(m).Swap(Resolving(m, rest));
  }

  lemma FailedNext(s: State, m: Id, d: Dependency, rest: seq<Dependency>) returns (t: State)
    requires Inv(s) && s.stack != [] && s.stack[0] == Resolving(m, [d] + rest) && m in s.modules
    requires !d.IsPseudo() && s.Complete(d.Target()) && s.modules[d.Target()].error
    ensures Leads(s, t) && Inv(t) && FailRecorded(s, t, m) && t.stack == s.stack[1..]
  {
    FailedLeads(s, m, d, rest);
    t := s.Fail(m).Pop();
  }

  lemma CutNext(s: State, m: Id, d: Dependency, rest: seq<Dependency>) returns (t: State)
    requires Inv(s) && s.stack != [] && s.stack[0] == Resolving(m, [d] + rest) && m in s.modules
    requires !d.IsPseudo() && !s.Complete(d.Target()) && Reach(DependencyGraph(s.modules), d.Target(), m)
    ensures Leads(s, t) && Inv(t) && CutRecorded(s, t, m) && t.stack == [Resolving(m, rest)] + s.stack[1..]
  {
    CutLeads(s, m, d, rest);
    t := CutEdge(s, m, d.Target(), rest);
  }

  lemma WaitNext(s: State, m: Id, d: Dependency, rest: seq<Dependency>) returns (t: State)
    requires Inv(s) && s.stack != [] && s.stack[0] == Resolving(m, [d] + rest) && m in s.modules
    requires !d.IsPseudo() && !s.Complete(d.Target()) && !Reach(DependencyGraph(s.modules), d.Target(), m)
    ensures Leads(s, t) && Inv(t) && WaitRecorded(s, t, m, d) && t.stack == [Resolving(m, rest)] + s.stack[1..]
  {
    WaitLeads(s, m, d, rest);
    WaitedFields(s.Swap(Resolving(m, rest)), m, d);
    t := Waited(s.Swap(Resolving(m, rest)), m, d);
  }

  lemma FactoryNext(s: State, m: Id) returns (t: State)
    requires Inv(s) && s.stack != [] && s.stack[0] == Completing(m) && m in s.modules && !s.modules[m].complete
    ensures Leads(s, t) && Inv(t) && FactoryDone(s, t, m) && Incomplete(t) < Incomplete(s)
    ensures t.stack == [Notifying(m, Successors(s.inverse, m))] + s.stack[1..]
  {
    CompleteLeads(s, m);
    t := FactoryRun(s, m);
  }

  lemma ToldNext(s: State, m: Id, x: Id, rest: seq<Id>) returns (t: State)
    requires Inv(s) && s.stack != [] && s.stack[0] == Notifying(m, [x] + rest)
    ensures x in s.modules && Leads(s, t) && Inv(t) && CountRecorded(s, t, x)
    ensures t.stack == (if t.modules[x].unresolved == 0 then [Completing(x)] else []) + [Notifying(m, rest)] + s.stack[1..]
  {
    NotifyOneLeads(s, m, x, rest);
    t := Told(s, m, x, rest);
  }

  lemma FeedNext(s: State, m: Id, d: Dependency, rest: seq<Dependency>) returns (t: State)
    requires Inv(s) && s.stack != [] && s.stack[0] == Feeding(m, [d] + rest)
    ensures Leads(s, t) && Inv(t) && OnlyKnown(s, t) && t.stack == [Feeding(m, rest)] + s.stack[1..]
    ensures t.known == if d.Target() in s.modules then s.known else s.known + {d.Target()}
  {
    FeedOneLeads(s, m, d, rest);
    t := Asked(s.Swap(Feeding(m, rest)), d.Target());
    assert d.Target() in s.known ==> s.known + {d.Target()} == s.known;
  }

  lemma NotifyEndNext(s: State, m: Id) returns (t: State)
    requires Inv(s) && s.stack != [] && s.stack[0] == Notifying(m, [])
    ensures Leads(s, t) && Inv(t) && t.pluginWaits == s.pluginWaits - {m}
    ensures t.modules == s.modules && t.inverse == s.inverse && t.known == s.known
    ensures t.reports == s.reports && t.cycleSeen == s.cycleSeen
    ensures t.stack == [Feeding(m, if m in s.pluginWaits then s.pluginWaits[m] else [])] + s.stack[1..]
  {
    NotifyEndLeads(s, m);
    t := NotifyEnd(s, m);
  }

  lemma PopNext(s: State) returns (t: State)
    requires Inv(s) && s.stack != []
    requires s.stack[0].Loading? || (s.stack[0].Feeding? && s.stack[0].resources == [])
    ensures Leads(s, t) && Inv(t) && SameFields(s, t) && t.stack == s.stack[1..]
  {
    PopLeads(s);
    t := s.Pop();
  }

  lemma CompletedNext(s: State, m: Id) returns (t: State)
    requires Inv(s) && s.stack != [] && s.stack[0] == Completing(m) && m in s.modules && s.modules[m].complete
    ensures Leads(s, t) && Inv(t) && SameFields(s, t) && t.stack == s.stack[1..] && Incomplete(t) == Incomplete(s)
  {
    CompletedLeads(s, m);
    t := s.Pop();
  }

  lemma ResolveEndNext(s: State, m: Id) returns (t: State)
    requires Inv(s) && s.stack != [] && s.stack[0] == Resolving(m, []) && m in s.modules
    ensures Leads(s, t) && Inv(t) && SameFields(s, t)
    ensures t.stack == (if s.modules[m].unresolved == 0 then [Completing(m)] else []) + s.stack[1..]
  {
    ResolveEndLeads(s, m);
    t := ResolveEnd(s, m);
  }

  ghost predicate SameFields(s: State, t: State) {
    OnlyModules(s, t) && t.modules == s.modules
  }

  ghost predicate OnlyKnown(s: State, t: State) {
    t.modules == s.modules && t.inverse == s.inverse && t.pluginWaits == s.pluginWaits && t.reports == s.reports
    && t.cycleSeen == s.cycleSeen
  }

  // A dependency chain from a of at most n nodes that ends where it meets b, or is cut off at n.
  ghost predicate Trail(g: Graph, p: seq<Id>, a: Id, b: Id, n: nat) {
    && 1 <= |p| <= n && p[0] == a && IsPath(g, p)
    && (forall i :: 0 <= i < |p| - 1 ==> p[i] != b)
    && (p[|p| - 1] == b || |p| == n)
  }

  ghost predicate NoTrail(g: Graph, a: Id, b: Id, n: nat) {
    forall p: seq<Id> :: !Trail(g, p, a, b, n)
  }

  // A chain of as many nodes as the search follows that misses b.
  ghost predicate Detour(g: Graph, a: Id, b: Id, n: nat) {
    exists p: seq<Id> :: |p| == n && n > 0 && p[0] == a && IsPath(g, p) && b !in p
  }

  // A path to b, stopped where it meets b or fills the limit.
  lemma {:induction false} StoppedPath(g: Graph, p: seq<Id>, b: Id, n: nat) returns (q: seq<Id>)
    requires n >= 1 && |p| >= 1 && IsPath(g, p) && p[|p| - 1] == b
    ensures Trail(g, q, p[0], b, n)
  {
    if p[0] == b || n == 1 {
      q := [p[0]];
    } else {
      var rest := StoppedPath(g, p[1..], b, n - 1);
      q := [p[0]] + rest;
      assert q[1..] == rest;
    }
  }

  lemma SomeTrail(g: Graph, a: Id, b: Id, n: nat)
    requires Reach(g, a, b) && n >= 1
    ensures !NoTrail(g, a, b, n)
  {
    var p :| Connects(g, p, a, b);
    var q := StoppedPath(g, p, b, n);
  }

  function Reversed(s: seq<Id>): (r: seq<Id>)
    ensures |r| == |s|
  {
    if s == [] then [] else [s[|s| - 1]] + Reversed(s[..|s| - 1])
  }

  ghost function Elements(s: seq<Id>): set<Id> {
    set x | x in s
  }

  ghost predicate NoRepeats(s: seq<Id>) {
    forall i, j :: 0 <= i < j < |s| ==> s[i] != s[j]
  }

  // The search has followed every edge that leaves `visited` and has not met the goal.
  ghost predicate Explored(g: Graph, visited: set<Id>, met: set<Id>, defined: set<Id>, to: Id) {
    forall x: Id, y: Id :: x in visited && Edge(g, x, y) ==> y != to && (y in defined ==> y in met)
  }

  lemma NoEdgeNoPath(g: Graph, a: Id, b: Id)
    requires a !in g
    ensures !Reach(g, a, b)
  {
    if Reach(g, a, b) {
      var x := ReachFirst(g, a, b);
    }
  }

  ghost predicate Met(g: Graph, from: Id, met: set<Id>) {
    forall x: Id :: x in met ==> Star(g, from, x)
  }

  lemma SearchHit(g: Graph, from: Id, element: Id, to: Id, met: set<Id>)
    requires Met(g, from, met) && element in met && Edge(g, element, to)
    ensures Reach(g, from, to)
  {
    EdgeReach(g, element, to);
    StarTrans(g, from, element, to);
  }

  lemma SearchRound(g: Graph, from: Id, element: Id, to: Id, visited: set<Id>, before: set<Id>,
                    after: set<Id>, defined: set<Id>)
    requires Met(g, from, before) && element in before && Explored(g, visited, before, defined, to)
    requires to !in Successors(g, element)
    requires after == before + Elements(Successors(g, element)) * defined
    ensures Met(g, from, after) && Explored(g, visited + {element}, after, defined, to)
  {
    forall x: Id | x in after
      ensures Star(g, from, x)
    {
      if x !in before {
        SearchHit(g, from, element, x, before);
      }
    }
  }

  ghost predicate Walked(g: Graph, visited: set<Id>, met: set<Id>) {
    forall a: Id, b: Id :: a in visited && Edge(g, a, b) ==> b in met
  }

  // A breadth-first walk from x: `visited` has been walked, `queue` is still to walk.
  ghost predicate Walk(g: Graph, x: Id, defined: set<Id>, visited: set<Id>, seen: set<Id>, queue: seq<Id>) {
    && x in seen && seen <= defined
    && NoRepeats(queue) && visited !! Elements(queue) && visited + Elements(queue) == seen
    && Met(g, x, seen) && Walked(g, visited, seen)
  }

  lemma WalkHead(g: Graph, x: Id, defined: set<Id>, visited: set<Id>, seen: set<Id>, queue: seq<Id>)
    requires Walk(g, x, defined, visited, seen, queue) && queue != []
    ensures queue[0] in defined && queue[0] !in visited
    ensures NoRepeats(queue[1..]) && Elements(queue[1..]) == Elements(queue) - {queue[0]} && Elements(queue[1..]) <= seen
  {
    assert queue == [queue[0]] + queue[1..];
    assert queue[0] in Elements(queue);
  }

  lemma WalkRound(g: Graph, x: Id, defined: set<Id>, visited: set<Id>, before: set<Id>, queue: seq<Id>,
                  after: set<Id>, queue': seq<Id>)
    requires Walk(g, x, defined, visited, before, queue) && queue != []
    requires forall d: Id, m: Id :: Edge(g, d, m) ==> m in defined
    requires after == before + Elements(Successors(g, queue[0]))
    requires NoRepeats(queue') && Elements(queue') == Elements(queue[1..]) + (after - before)
    ensures Walk(g, x, defined, visited + {queue[0]}, after, queue')
  {
    WalkHead(g, x, defined, visited, before, queue);
    assert queue[0] in Elements(queue);
    forall y: Id | y in after
      ensures Star(g, x, y) && y in defined
    {
      if y !in before {
        assert Edge(g, queue[0], y);
        SearchHit(g, x, queue[0], y, before);
      }
    }
  }

  lemma WalkDone(g: Graph, x: Id, defined: set<Id>, visited: set<Id>, seen: set<Id>)
    requires Walk(g, x, defined, visited, seen, [])
    ensures forall m: Id :: m in visited <==> Star(g, x, m)
  {
    assert visited == seen;
    forall m: Id | Star(g, x, m)
      ensures m in visited
    {
      if m != x {
        ReachStays(g, visited, x, m);
      }
    }
  }

  ghost predicate HandlerAmong(records: map<Id, Record>, visited: set<Id>) {
    exists m :: m in visited && m in records && records[m].errorback
  }

  function Placed(s: State, x: Id): State {
    if x in s.modules then s
    else s.(modules := s.modules[x := PLACEHOLDER], declared := s.declared[x := []])
  }

  // LoadError, field by field.
  ghost predicate LoadErrorExplained(s: State, x: Id) {
    var t, u := LoadError(s, x), Placed(s, x);
    && t == u.(modules := t.modules, reports := t.reports)
    && t.modules.Keys == u.modules.Keys
    && (forall m :: m in u.modules ==>
         t.modules[m] == if Star(u.inverse, x, m) then u.modules[m].(complete := true, error := true) else u.modules[m])
    && t.reports == u.reports
         + (if exists m :: m in u.modules && Star(u.inverse, x, m) && u.modules[m].errorback then 0 else 1)
  }

  lemma LoadErrorFields(s: State, x: Id)
    ensures LoadErrorExplained(s, x)
  {
    assert SomeoneTold(Placed(s, x), x) <==>
        exists m :: m in Placed(s, x).modules && Star(s.inverse, x, m) && Placed(s, x).modules[m].errorback;
  }

  lemma LoadErrorStep(s: State, x: Id)
    requires Reachable(s) && Quiet(s) && x in s.known
    ensures Reachable(LoadError(s, x)) && Quiet(LoadError(s, x))
    ensures forall d: Id, m: Id :: Edge(s.inverse, d, m) ==> m in s.modules
  {
    ReachableInv(s);
    assert Holds(s, Scopes);
    assert Apply(s, LoadFails(x)) == LoadError(s, x);
    ReachableStep(s, LoadError(s, x));
  }

  lemma NotReached(g: Graph, s: set<Id>, defined: set<Id>, a: Id, b: Id)
    requires g.Keys <= defined && a in s && Explored(g, s, s, defined, b)
    ensures !Reach(g, a, b)
  {
    if Reach(g, a, b) {
      var p :| Connects(g, p, a, b);
      PathInside(g, s, defined, b, p);
    }
  }

  // Edges leave s only towards nodes that are not defined, which have no edges of their own.
  lemma {:induction false} PathInside(g: Graph, s: set<Id>, defined: set<Id>, b: Id, p: seq<Id>)
    requires g.Keys <= defined && |p| >= 2 && IsPath(g, p) && p[0] in s && Explored(g, s, s, defined, b)
    ensures p[|p| - 1] != b
  {
    assert Edge(g, p[0], p[1]);
    if |p| > 2 {
      assert Edge(g, p[1], p[2]);
      PathInside(g, s, defined, b, p[1..]);
    }
  }
}
