/**
  Running a call into the loader to its end, when factories and script loads
  return without calling back.  Every such call ends.
 */
module LoaderSettle {
  import opened Graphs
  import opened LoaderModel
  import opened LoaderInvariant
  import opened LoaderSteps
  import opened LoaderRuns
  import opened Wrappers

  // What happens next when foreign code returns at once.
  ghost function NextEvent(s: State): Event
    requires Inv(s) && s.stack != []
    ensures Enabled(s, NextEvent(s))
  {
    assert s.stack[0] in s.stack && Holds(s, Scopes);
    match s.stack[0]
    case Factory(m) => FactoryEnds(s.modules[m].throws)
    case Loading(_) => LoadEnds
    case _ => Tick
  }

  ghost function Next(s: State): (t: State)
    requires Inv(s) && s.stack != []
    ensures Inv(t)
  {
    var t := Apply(s, NextEvent(s));
    assert Steps(s, t);
    StepKeeps(s, t);
    t
  }

  /* ---- The measure that every step lowers ---- */

  function Incomplete(s: State): set<Id> {
    set m | m in s.modules && !s.modules[m].complete
  }

  function Factories(stack: seq<Frame>): nat {
    if stack == [] then 0 else (if stack[0].Factory? then 1 else 0) + Factories(stack[1..])
  }

  function Notifiers(stack: seq<Frame>): nat {
    if stack == [] then 0 else (if stack[0].Notifying? then 1 else 0) + Notifiers(stack[1..])
  }

  function Size(f: Frame): nat {
    match f
    case Resolving(_, rest) => 2 + 2 * |rest|
    case Notifying(_, tail) => 1 + 2 * |tail|
    case Feeding(_, resources) => 1 + 2 * |resources|
    case _ => 1
  }

  function Work(stack: seq<Frame>): nat {
    if stack == [] then 0 else Size(stack[0]) + Work(stack[1..])
  }

  // The top frame f is replaced by g, below at most one small frame h.
  lemma Restack(stack: seq<Frame>, f: Frame)
    ensures Factories([f] + stack) == Factories(stack) + (if f.Factory? then 1 else 0)
    ensures Notifiers([f] + stack) == Notifiers(stack) + (if f.Notifying? then 1 else 0)
    ensures Work([f] + stack) == Work(stack) + Size(f)
  {
    assert ([f] + stack)[1..] == stack;
  }

  ghost predicate Smaller(t: State, s: State) {
    || Incomplete(t) < Incomplete(s)
    || (Incomplete(t) == Incomplete(s) && Factories(t.stack) < Factories(s.stack))
    || (Incomplete(t) == Incomplete(s) && Factories(t.stack) == Factories(s.stack)
        && Notifiers(t.stack) < Notifiers(s.stack))
    || (Incomplete(t) == Incomplete(s) && Factories(t.stack) == Factories(s.stack)
        && Notifiers(t.stack) == Notifiers(s.stack) && Work(t.stack) < Work(s.stack))
  }

  // The top frame f becomes g, with at most one frame h of size one above it.
  ghost predicate Replaced(t: State, s: State, g: Frame) {
    && s.stack != []
    && !s.stack[0].Factory? && g.Factory? == false && g.Notifying? == s.stack[0].Notifying?
    && Size(g) + 2 <= Size(s.stack[0])
    && (t.stack == [g] + s.stack[1..]
        || exists h: Frame :: (h.Loading? || h.Completing?) && t.stack == [h] + ([g] + s.stack[1..]))
  }

  lemma ReplacedSmaller(t: State, s: State, g: Frame)
    requires Replaced(t, s, g) && Incomplete(t) <= Incomplete(s)
    ensures Smaller(t, s)
  {
    Restack(s.stack[1..], g);
    if t.stack != [g] + s.stack[1..] {
      var h: Frame :| (h.Loading? || h.Completing?) && t.stack == [h] + ([g] + s.stack[1..]);
      Restack([g] + s.stack[1..], h);
    }
  }

  lemma LoadReplaced(s: State, u: State, g: Frame, d: Id)
    requires Replaced(u, s, g) && u.stack == [g] + s.stack[1..]
    ensures Replaced(u.Load(d), s, g)
  {
    if !u.Requested(d) {
      assert u.Load(d).stack == [Loading(d)] + ([g] + s.stack[1..]);
    }
  }

  lemma ResolveSmaller(s: State, m: Id, d: Dependency, rest: seq<Dependency>)
    requires s.stack != [] && s.stack[0] == Resolving(m, [d] + rest) && m in s.modules
    ensures Smaller(ResolveOne(s, m, d, rest), s)
  {
    var t, g := ResolveOne(s, m, d, rest), Resolving(m, rest);
    if !d.IsPseudo() && s.Complete(d.Target()) && s.modules[d.Target()].error {
      assert Incomplete(t) <= Incomplete(s);
    } else if d.IsPseudo() || s.Complete(d.Target()) || Reach(DependencyGraph(s.modules), d.Target(), m) {
      assert Incomplete(t) == Incomplete(s);
      ReplacedSmaller(t, s, g);
    } else {
      AwaitReplaced(s, m, d, rest);
      ReplacedSmaller(t, s, g);
    }
  }

  lemma AwaitReplaced(s: State, m: Id, d: Dependency, rest: seq<Dependency>)
    requires s.stack != [] && s.stack[0] == Resolving(m, [d] + rest)
    ensures Replaced(Await(s.Swap(Resolving(m, rest)), m, d), s, Resolving(m, rest))
    ensures Await(s.Swap(Resolving(m, rest)), m, d).modules == s.modules
  {
    var g := Resolving(m, rest);
    var u := s.Swap(g).(inverse := AddEdge(s.inverse, d.Target(), m));
    if d.Plugin? && !s.Complete(d.pluginId) {
      LoadReplaced(s, u.Park(d), g, d.pluginId);
    } else {
      LoadReplaced(s, u, g, d.Target());
    }
  }

  lemma NotifySmaller(s: State, m: Id, x: Id, rest: seq<Id>)
    requires s.stack != [] && s.stack[0] == Notifying(m, [x] + rest) && x in s.modules
    ensures Smaller(NotifyOne(s, m, x, rest), s)
  {
    var t, g := NotifyOne(s, m, x, rest), Notifying(m, rest);
    assert Incomplete(t) == Incomplete(s);
    assert t.stack == [g] + s.stack[1..] || t.stack == [Completing(x)] + ([g] + s.stack[1..]);
    ReplacedSmaller(t, s, g);
  }

  lemma FeedSmaller(s: State, m: Id, d: Dependency, rest: seq<Dependency>)
    requires s.stack != [] && s.stack[0] == Feeding(m, [d] + rest)
    ensures Smaller(s.Swap(Feeding(m, rest)).Load(d.Target()), s)
  {
    var g := Feeding(m, rest);
    var u := s.Swap(g);
    LoadReplaced(s, u, g, d.Target());
    assert Incomplete(u.Load(d.Target())) == Incomplete(s);
    ReplacedSmaller(u.Load(d.Target()), s, g);
  }

  // A frame goes, or a factory starts or returns, or a walk ends.
  lemma OtherSmaller(s: State, t: State, g: Frame)
    requires s.stack != []
    requires Incomplete(t) <= Incomplete(s)
    requires t.stack == s.stack[1..] || t.stack == [g] + s.stack[1..]
    requires t.stack == [g] + s.stack[1..] ==>
      || (s.stack[0].Resolving? && g.Completing?)
      || (s.stack[0].Completing? && g.Factory? && Incomplete(t) < Incomplete(s))
      || (s.stack[0].Factory? && g.Notifying?)
      || (s.stack[0].Notifying? && g.Feeding?)
    ensures Smaller(t, s)
  {
    Restack(s.stack[1..], g);
  }

  lemma CompleteSmaller(s: State, m: Id)
    requires s.stack != [] && s.stack[0] == Completing(m) && m in s.modules
    ensures Smaller(CompleteBegin(s, m), s)
  {
    var t := CompleteBegin(s, m);
    if !s.modules[m].complete {
      assert m in Incomplete(s) && m !in Incomplete(t);
    }
    OtherSmaller(s, t, Factory(m));
  }

  lemma NextSmaller(s: State)
    requires Inv(s) && s.stack != []
    ensures Smaller(Next(s), s)
  {
    assert s.stack[0] in s.stack && Holds(s, Scopes);
    var t := Next(s);
    match s.stack[0]
    case Resolving(m, rest) =>
      if rest == [] {
        OtherSmaller(s, t, Completing(m));
      } else {
        assert rest == [rest[0]] + rest[1..];
        ResolveSmaller(s, m, rest[0], rest[1..]);
      }
    case Completing(m) =>
      CompleteSmaller(s, m);
    case Factory(m) => OtherSmaller(s, t, Notifying(m, Successors(s.inverse, m)));
    case Notifying(m, tail) =>
      if tail == [] {
        OtherSmaller(s, t, t.stack[0]);
      } else {
        assert tail == [tail[0]] + tail[1..];
        NotifySmaller(s, m, tail[0], tail[1..]);
      }
    case Feeding(m, resources) =>
      if resources == [] {
        OtherSmaller(s, t, Loading(0));
      } else {
        assert resources == [resources[0]] + resources[1..];
        FeedSmaller(s, m, resources[0], resources[1..]);
      }
    case Loading(_) => OtherSmaller(s, t, Loading(0));
  }

  // The state in which the outermost call returns.
  ghost function Settle(s: State): (t: State)
    requires Inv(s)
    ensures Inv(t) && Quiet(t)
    decreases Incomplete(s), Factories(s.stack), Notifiers(s.stack), Work(s.stack)
  {
    if s.stack == [] then s
    else
      NextSmaller(s);
      Settle(Next(s))
  }

  lemma {:induction false} SettleReachable(s: State)
    requires Inv(s) && Reachable(s)
    ensures Reachable(Settle(s))
    decreases Incomplete(s), Factories(s.stack), Notifiers(s.stack), Work(s.stack)
  {
    if s.stack != [] {
      NextSmaller(s);
      ReachableStep(s, Next(s));
      SettleReachable(Next(s));
    }
  }

  /* ---- Progress of one call ---- */

  ghost predicate SameEnd(x: Sealed, s: State, t: State) {
    Inv(s) && Inv(t) && Settle(s) == Settle(t) && (Reachable(s) ==> Reachable(t)) && Incomplete(t) <= Incomplete(s)
  }

  // From s the loader gets to t, and nothing that can still happen has been
  // decided otherwise.  (The quantifier keeps proofs from unrolling Settle.)
  ghost predicate Leads(s: State, t: State) {
    forall x: Sealed :: SameEnd(x, s, t)
  }

  lemma LeadsTrans(s: State, t: State, u: State)
    requires Leads(s, t) && Leads(t, u)
    ensures Leads(s, u)
  {
    assert SameEnd(Sealed, s, t) && SameEnd(Sealed, t, u);
  }

  lemma LeadsRefl(s: State)
    requires Inv(s)
    ensures Leads(s, s)
  {
  }

  lemma LeadsInv(s: State, t: State)
    requires Leads(s, t)
    ensures Inv(t) && Incomplete(t) <= Incomplete(s)
  {
    assert SameEnd(Sealed, s, t);
  }

  lemma LeadsEnd(s: State, t: State)
    requires Leads(s, t) && Quiet(t)
    ensures Inv(s) && t == Settle(s) && (Reachable(s) ==> Reachable(t))
  {
    assert SameEnd(Sealed, s, t);
  }

  lemma NextLeads(s: State)
    requires Inv(s) && s.stack != []
    ensures Leads(s, Next(s))
  {
    NextSmaller(s);
    assert Incomplete(Next(s)) <= Incomplete(s);
    assert Steps(s, Next(s));
    if Reachable(s) {
      ReachableStep(s, Next(s));
    }
  }

  lemma ResolveEndLeads(s: State, m: Id)
    requires Inv(s) && s.stack != [] && s.stack[0] == Resolving(m, []) && m in s.modules
    ensures Leads(s, ResolveEnd(s, m)) && Inv(ResolveEnd(s, m))
  {
    NextLeads(s);
  }

  lemma ResolveOneLeads(s: State, m: Id, d: Dependency, rest: seq<Dependency>)
    requires Inv(s) && s.stack != [] && s.stack[0] == Resolving(m, [d] + rest) && m in s.modules
    ensures Leads(s, ResolveOne(s, m, d, rest)) && Inv(ResolveOne(s, m, d, rest))
  {
    assert ([d] + rest)[1..] == rest;
    NextLeads(s);
  }

  lemma SettledLeads(s: State, m: Id, d: Dependency, rest: seq<Dependency>)
    requires Inv(s) && s.stack != [] && s.stack[0] == Resolving(m, [d] + rest) && m in s.modules
    requires d.IsPseudo() || (s.Complete(d.Target()) && !s.modules[d.Target()].error)
    ensures Leads(s, s.Decrement(m).Swap(Resolving(m, rest))) && Inv(s.Decrement(m).Swap(Resolving(m, rest)))
  {
    ResolveOneLeads(s, m, d, rest);
    assert s.Decrement(m).Swap(Resolving(m, rest)) == ResolveOne(s, m, d, rest);
  }

  lemma FailedLeads(s: State, m: Id, d: Dependency, rest: seq<Dependency>)
    requires Inv(s) && s.stack != [] && s.stack[0] == Resolving(m, [d] + rest) && m in s.modules
    requires !d.IsPseudo() && s.Complete(d.Target()) && s.modules[d.Target()].error
    ensures Leads(s, s.Fail(m).Pop()) && Inv(s.Fail(m).Pop())
  {
    ResolveOneLeads(s, m, d, rest);
  }

  function CutEdge(s: State, m: Id, d: Id, rest: seq<Dependency>): State
    requires m in s.modules && s.stack != []
  {
    s.(modules := s.Decrement(m).modules, stack := [Resolving(m, rest)] + s.stack[1..],
       cycleSeen := true, cut := s.cut + {(m, d)})
  }

  lemma CutLeads(s: State, m: Id, d: Dependency, rest: seq<Dependency>)
    requires Inv(s) && s.stack != [] && s.stack[0] == Resolving(m, [d] + rest) && m in s.modules
    requires !d.IsPseudo() && !s.Complete(d.Target()) && Reach(DependencyGraph(s.modules), d.Target(), m)
    ensures Leads(s, CutEdge(s, m, d.Target(), rest)) && Inv(CutEdge(s, m, d.Target(), rest))
  {
    ResolveOneLeads(s, m, d, rest);
    assert CutEdge(s, m, d.Target(), rest) == ResolveOne(s, m, d, rest);
  }

  // An id has been asked for, and the load has returned without calling back.
  function Asked(s: State, d: Id): State {
    if s.Requested(d) then s else s.(known := s.known + {d})
  }

  function Waited(s: State, m: Id, d: Dependency): State {
    var t := s.(inverse := AddEdge(s.inverse, d.Target(), m));
    if d.Plugin? then
      if s.Complete(d.pluginId) then Asked(t, d.resourceId) else Asked(t.Park(d), d.pluginId)
    else
      Asked(t, d.Target())
  }

  // Whom to ask when d has to be waited for.
  function Supplier(s: State, d: Dependency): Id {
    if d.Plugin? && !s.Complete(d.pluginId) then d.pluginId else d.Target()
  }

  lemma WaitedFields(s: State, m: Id, d: Dependency)
    ensures var t := Waited(s, m, d);
            && t.modules == s.modules && t.inverse == AddEdge(s.inverse, d.Target(), m)
            && t.known == (if Supplier(s, d) in s.modules then s.known else s.known + {Supplier(s, d)})
            && t.pluginWaits == (if d.Plugin? && !s.Complete(d.pluginId) then s.Park(d).pluginWaits else s.pluginWaits)
            && t.reports == s.reports && t.cycleSeen == s.cycleSeen && t.stack == s.stack
  {
    assert Supplier(s, d) in s.known ==> s.known + {Supplier(s, d)} == s.known;
  }

  lemma LoadLeads(s: State, t: State, d: Id)
    requires Leads(s, t.Load(d))
    ensures Leads(s, Asked(t, d)) && Inv(Asked(t, d))
  {
    LeadsInv(s, t.Load(d));
    if !t.Requested(d) {
      PopLeads(t.Load(d));
      assert t.Load(d).Pop() == Asked(t, d);
      LeadsTrans(s, t.Load(d), Asked(t, d));
    }
  }

  lemma WaitLeads(s: State, m: Id, d: Dependency, rest: seq<Dependency>)
    requires Inv(s) && s.stack != [] && s.stack[0] == Resolving(m, [d] + rest) && m in s.modules
    requires !d.IsPseudo() && !s.Complete(d.Target()) && !Reach(DependencyGraph(s.modules), d.Target(), m)
    ensures Leads(s, Waited(s.Swap(Resolving(m, rest)), m, d)) && Inv(Waited(s.Swap(Resolving(m, rest)), m, d))
  {
    ResolveOneLeads(s, m, d, rest);
    var u := s.Swap(Resolving(m, rest));
    var t := u.(inverse := AddEdge(u.inverse, d.Target(), m));
    if d.Plugin? && !s.Complete(d.pluginId) {
      LoadLeads(s, t.Park(d), d.pluginId);
    } else {
      LoadLeads(s, t, d.Target());
    }
  }

  lemma CompletedLeads(s: State, m: Id)
    requires Inv(s) && s.stack != [] && s.stack[0] == Completing(m) && m in s.modules && s.modules[m].complete
    ensures Leads(s, s.Pop()) && Inv(s.Pop())
  {
    NextLeads(s);
  }

  // The record of a module whose factory has run.
  function AfterFactory(r: Record): Record {
    r.(complete := true, dependencies := None, errorback := false, error := r.error || r.throws)
  }

  // The factory of m has run and its inverse dependencies have been fetched.
  function FactoryRun(s: State, m: Id): State
    requires m in s.modules && s.stack != []
  {
    var r := s.modules[m];
    s.(modules := s.modules[m := AfterFactory(r)],
       reports := s.reports + (if r.throws then 1 else 0),
       inverse := s.inverse - {m},
       log := s.log + [Invocation(m, if r.dependencies.Some? then r.dependencies.value else [])],
       stack := [Notifying(m, Successors(s.inverse, m))] + s.stack[1..])
  }

  lemma CompleteLeads(s: State, m: Id)
    requires Inv(s) && s.stack != [] && s.stack[0] == Completing(m) && m in s.modules && !s.modules[m].complete
    ensures Leads(s, FactoryRun(s, m)) && Inv(FactoryRun(s, m))
    ensures Incomplete(FactoryRun(s, m)) < Incomplete(s)
  {
    var t := CompleteBegin(s, m);
    NextLeads(s);
    NextLeads(t);
    assert FactoryReturns(t, s.modules[m].throws) == FactoryRun(s, m);
    LeadsTrans(s, t, FactoryRun(s, m));
    assert m in Incomplete(s) && m !in Incomplete(FactoryRun(s, m));
  }

  // x has one dependency fewer to wait for, and is completed if that was the last.
  function Told(s: State, m: Id, x: Id, rest: seq<Id>): State
    requires x in s.modules && s.stack != []
  {
    s.(modules := s.Decrement(x).modules,
       stack := (if s.modules[x].unresolved == 1 then [Completing(x)] else []) + [Notifying(m, rest)] + s.stack[1..])
  }

  lemma NotifyOneLeads(s: State, m: Id, x: Id, rest: seq<Id>)
    requires Inv(s) && s.stack != [] && s.stack[0] == Notifying(m, [x] + rest)
    ensures x in s.modules && Leads(s, Told(s, m, x, rest)) && Inv(Told(s, m, x, rest))
  {
    assert Holds(s, Scopes) && s.stack[0] in s.stack && x in s.stack[0].tail;
    assert ([x] + rest)[1..] == rest;
    NextLeads(s);
    assert Told(s, m, x, rest) == NotifyOne(s, m, x, rest);
  }

  lemma NotifyEndLeads(s: State, m: Id)
    requires Inv(s) && s.stack != [] && s.stack[0] == Notifying(m, [])
    ensures Leads(s, NotifyEnd(s, m)) && Inv(NotifyEnd(s, m))
  {
    NextLeads(s);
  }

  lemma PopLeads(s: State)
    requires Inv(s) && s.stack != []
    requires s.stack[0].Loading? || (s.stack[0].Feeding? && s.stack[0].resources == [])
    ensures Leads(s, s.Pop()) && Inv(s.Pop())
  {
    NextLeads(s);
  }

  lemma FeedOneLeads(s: State, m: Id, d: Dependency, rest: seq<Dependency>)
    requires Inv(s) && s.stack != [] && s.stack[0] == Feeding(m, [d] + rest)
    ensures Leads(s, Asked(s.Swap(Feeding(m, rest)), d.Target())) && Inv(Asked(s.Swap(Feeding(m, rest)), d.Target()))
  {
    assert ([d] + rest)[1..] == rest;
    NextLeads(s);
    LoadLeads(s, s.Swap(Feeding(m, rest)), d.Target());
  }
}
