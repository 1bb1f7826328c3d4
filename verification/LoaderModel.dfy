/**
  The AMD module manager as a state machine.  The manager's recursive calls are
  frames on an explicit stack, so that foreign code (factories, script loaders,
  plugins) may call back into the loader wherever the program lets it.
 */
module LoaderModel {
  import opened Graphs
  import opened Wrappers

  // An entry of a dependency list.  The first three are the pseudo dependencies.
  datatype Dependency =
    | Exports
    | ModuleObject
    | Require
    | Regular(regularId: Id)
    | Plugin(resourceId: Id, pluginId: Id)
  {
    predicate IsPseudo() {
      Exports? || ModuleObject? || Require?
    }

    // The pseudo dependencies own the first three module ids.
    function Target(): Id {
      match this
      case Exports => 0
      case ModuleObject => 1
      case Require => 2
      case Regular(id) => id
      case Plugin(id, _) => id
    }
  }

  // dependencies becomes None when the module has run its factory; throws tells
  // whether the factory ends with an exception that the loader catches.
  datatype Record = Record(
    dependencies: Option<seq<Dependency>>,
    unresolved: int,
    complete: bool,
    error: bool,
    errorback: bool,
    throws: bool)

  // The calls in progress, innermost first.
  datatype Frame =
    | Resolving(owner: Id, rest: seq<Dependency>)   // _resolve, with the dependencies still to examine
    | Completing(owner: Id)                         // _onModuleComplete is about to start
    | Factory(owner: Id)                            // _onModuleComplete, inside the factory
    | Notifying(owner: Id, tail: seq<Id>)           // _onModuleComplete, in the loop over inverse dependencies
    | Feeding(owner: Id, resources: seq<Dependency>) // _onModuleComplete, in the loop over plugin resources
    | Loading(owner: Id)                            // inside the script loader or a plugin's load

  // A factory invocation: which module, and with which dependency list.
  datatype Invocation = Invocation(id: Id, dependencies: seq<Dependency>)

  // The last four fields are history: they are never read by a step.
  datatype State = State(
    modules: map<Id, Record>,
    inverse: map<Id, seq<Id>>,
    pluginWaits: map<Id, seq<Dependency>>,
    known: set<Id>,
    stack: seq<Frame>,
    reports: nat,
    cycleSeen: bool,
    log: seq<Invocation>,
    cut: set<(Id, Id)>,
    declared: map<Id, seq<Dependency>>)
  {
    predicate Complete(m: Id) {
      m in modules && modules[m].complete
    }

    // Known to the loader, so that nobody asks for it again.
    predicate Requested(m: Id) {
      m in modules || m in known
    }

    function Push(f: Frame): State {
      this.(stack := [f] + stack)
    }

    function Pop(): State
      requires stack != []
    {
      this.(stack := stack[1..])
    }

    function Swap(f: Frame): State
      requires stack != []
    {
      this.(stack := [f] + stack[1..])
    }

    function Decrement(m: Id): State
      requires m in modules
    {
      this.(modules := modules[m := modules[m].(unresolved := modules[m].unresolved - 1)])
    }

    function Fail(m: Id): State
      requires m in modules
    {
      this.(modules := modules[m := modules[m].(complete := true, error := true)])
    }

    // _loadModule, and the guard of _loadPluginDependency.
    function Load(m: Id): State {
      if Requested(m) then this
      else this.(known := known + {m}).Push(Loading(m))
    }

    function Park(d: Dependency): State
      requires d.Plugin?
    {
      this.(pluginWaits := pluginWaits[d.pluginId :=
        (if d.pluginId in pluginWaits then pluginWaits[d.pluginId] else []) + [d]])
    }
  }

  function Targets(deps: seq<Dependency>): (ids: seq<Id>)
    ensures |ids| == |deps|
    ensures forall i :: 0 <= i < |deps| ==> ids[i] == deps[i].Target()
  {
    seq(|deps|, i requires 0 <= i < |deps| => deps[i].Target())
  }

  // The graph that the cycle check walks.
  function DependencyGraph(modules: map<Id, Record>): Graph {
    map m | m in modules && modules[m].dependencies.Some? :: Targets(modules[m].dependencies.value)
  }

  const EMPTY_STATE := State(map[], map[], map[], {}, [], 0, false, [], {}, map[])

  /* ---- Steps of the loader itself ---- */

  // One round of the loop in _resolve.
  ghost function ResolveOne(s: State, m: Id, d: Dependency, rest: seq<Dependency>): State
    requires s.stack != [] && m in s.modules
  {
    var t := s.Swap(Resolving(m, rest));
    if d.IsPseudo() then
      t.Decrement(m)
    else if s.Complete(d.Target()) then
      if s.modules[d.Target()].error then s.Fail(m).Pop() else t.Decrement(m)
    else if Reach(DependencyGraph(s.modules), d.Target(), m) then
      t.(cycleSeen := true, cut := s.cut + {(m, d.Target())}).Decrement(m)
    else
      Await(t, m, d)
  }

  // Records the wait of m on d and asks for whatever is missing.
  function Await(s: State, m: Id, d: Dependency): State {
    var t := s.(inverse := AddEdge(s.inverse, d.Target(), m));
    if d.Plugin? then
      if s.Complete(d.pluginId) then t.Load(d.resourceId) else t.Park(d).Load(d.pluginId)
    else
      t.Load(d.Target())
  }

  function ResolveEnd(s: State, m: Id): State
    requires s.stack != [] && m in s.modules
  {
    if s.modules[m].unresolved == 0 then s.Swap(Completing(m)) else s.Pop()
  }

  function CompleteBegin(s: State, m: Id): State
    requires s.stack != [] && m in s.modules
  {
    if s.modules[m].complete then
      s.Pop()
    else
      s.(modules := s.modules[m := s.modules[m].(complete := true)],
         log := s.log + [Invocation(m, if s.modules[m].dependencies.Some? then s.modules[m].dependencies.value else [])])
       .Swap(Factory(m))
  }

  function NotifyOne(s: State, m: Id, x: Id, rest: seq<Id>): State
    requires s.stack != [] && x in s.modules
  {
    var t := s.Swap(Notifying(m, rest)).Decrement(x);
    if t.modules[x].unresolved == 0 then t.Push(Completing(x)) else t
  }

  function NotifyEnd(s: State, m: Id): State
    requires s.stack != []
  {
    s.(pluginWaits := s.pluginWaits - {m})
     .Swap(Feeding(m, if m in s.pluginWaits then s.pluginWaits[m] else []))
  }

  // The frames that run the loader's own code.
  predicate Running(s: State) {
    s.stack != [] && !s.stack[0].Factory? && !s.stack[0].Loading?
  }

  ghost function Internal(s: State): State
    requires Running(s)
    requires WellScoped(s)
  {
    match s.stack[0]
    case Resolving(m, rest) =>
      if rest == [] then ResolveEnd(s, m) else ResolveOne(s, m, rest[0], rest[1..])
    case Completing(m) => CompleteBegin(s, m)
    case Notifying(m, tail) =>
      if tail == [] then NotifyEnd(s, m) else NotifyOne(s, m, tail[0], tail[1..])
    case Feeding(m, resources) =>
      if resources == [] then s.Pop()
      else s.Swap(Feeding(m, resources[1..])).Load(resources[0].Target())
  }

  // Every module that the stack mentions is defined.
  predicate WellScoped(s: State) {
    forall f :: f in s.stack && !f.Loading? ==>
      && f.owner in s.modules
      && (f.Notifying? ==> forall x :: x in f.tail ==> x in s.modules)
  }

  /* ---- Steps of the environment, taken when foreign code is in control ---- */

  predicate Yielded(s: State) {
    !Running(s)
  }

  // defineModule: a second definition of the same id is ignored.
  function Define(s: State, m: Id, deps: seq<Dependency>, errorback: bool, throws: bool): State {
    if m in s.modules then s
    else
      s.(modules := s.modules[m := Record(Some(deps), |deps|, false, false, errorback, throws)],
         declared := s.declared[m := deps])
       .Push(Resolving(m, deps))
  }

  // The factory of the innermost frame returns.  The inverse dependencies are
  // fetched and cleared at once, before they are walked.
  function FactoryReturns(s: State, failed: bool): State
    requires s.stack != [] && s.stack[0].Factory? && s.stack[0].owner in s.modules
  {
    var m := s.stack[0].owner;
    s.(modules := s.modules[m := s.modules[m].(dependencies := None, errorback := false,
                                                error := s.modules[m].error || failed)],
       reports := s.reports + (if failed then 1 else 0),
       inverse := s.inverse - {m})
     .Swap(Notifying(m, Successors(s.inverse, m)))
  }

  // The module created for an id whose script could not be loaded.
  const PLACEHOLDER := Record(Some([]), 0, false, false, false, false)

  // _onLoadError: everything that waits on x, directly or not, fails.
  ghost function LoadError(s: State, x: Id): State {
    var t := if x in s.modules then s
             else s.(modules := s.modules[x := PLACEHOLDER], declared := s.declared[x := []]);
    t.(modules := map m | m in t.modules :: if Star(s.inverse, x, m) then t.modules[m].(complete := true, error := true)
                                            else t.modules[m],
       reports := s.reports + (if SomeoneTold(t, x) then 0 else 1))
  }

  // Some module reached by the error has an error handler.
  ghost predicate SomeoneTold(s: State, x: Id) {
    exists m :: m in s.modules && Star(s.inverse, x, m) && s.modules[m].errorback
  }
}
