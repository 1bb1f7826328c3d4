/** What every step of the module manager keeps. */
module LoaderInvariant {
  import opened Graphs
  import opened LoaderModel

  /* ---- Outstanding decrements of a module ---- */

  // Occurrences of m in all inverse dependency lists, with multiplicity.
  ghost function Listed(inverse: map<Id, seq<Id>>, m: Id): nat
    decreases |inverse|
  {
    if inverse == map[] then 0
    else
      var d: Id :| d in inverse;
      multiset(inverse[d])[m] + Listed(inverse - {d}, m)
  }

  // Decrements that a call in progress still owes to m: the dependencies that
  // its own _resolve has not examined, and its occurrences in list tails that
  // some _onModuleComplete has fetched but not walked.
  function InFrame(f: Frame, m: Id): nat {
    match f
    case Resolving(x, rest) => if x == m then |rest| else 0
    case Notifying(_, tail) => multiset(tail)[m]
    case _ => 0
  }

  function InFlight(stack: seq<Frame>, m: Id): nat {
    if stack == [] then 0 else InFrame(stack[0], m) + InFlight(stack[1..], m)
  }

  ghost function Outstanding(s: State, m: Id): nat {
    Listed(s.inverse, m) + InFlight(s.stack, m)
  }

  lemma {:induction false} ListedSplit(inverse: map<Id, seq<Id>>, d: Id, m: Id)
    requires d in inverse
    ensures Listed(inverse, m) == multiset(inverse[d])[m] + Listed(inverse - {d}, m)
    decreases |inverse|
  {
    var c: Id :| c in inverse && Listed(inverse, m) == multiset(inverse[c])[m] + Listed(inverse - {c}, m);
    if c != d {
      ListedSplit(inverse - {c}, d, m);
      assert inverse - {c} - {d} == inverse - {d} - {c};
      ListedSplit(inverse - {d}, c, m);
    }
  }

  lemma ListedAdd(inverse: map<Id, seq<Id>>, d: Id, x: Id, m: Id)
    ensures Listed(AddEdge(inverse, d, x), m) == Listed(inverse, m) + (if x == m then 1 else 0)
  {
    var after := AddEdge(inverse, d, x);
    ListedSplit(after, d, m);
    assert after[d] == Successors(inverse, d) + [x];
    if d in inverse {
      ListedSplit(inverse, d, m);
      assert after - {d} == inverse - {d};
    } else {
      assert after - {d} == inverse;
    }
  }

  lemma ListedRemove(inverse: map<Id, seq<Id>>, d: Id, m: Id)
    ensures Listed(inverse, m) == multiset(Successors(inverse, d))[m] + Listed(inverse - {d}, m)
  {
    if d in inverse {
      ListedSplit(inverse, d, m);
    } else {
      assert inverse - {d} == inverse;
    }
  }

  lemma ListedEdge(inverse: map<Id, seq<Id>>, d: Id, m: Id)
    requires Edge(inverse, d, m)
    ensures Listed(inverse, m) > 0
  {
    ListedSplit(inverse, d, m);
  }

  lemma {:induction false} ListedNowhere(inverse: map<Id, seq<Id>>, m: Id)
    requires forall d: Id :: !Edge(inverse, d, m)
    ensures Listed(inverse, m) == 0
    decreases |inverse|
  {
    if inverse != map[] {
      var d: Id :| d in inverse && Listed(inverse, m) == multiset(inverse[d])[m] + Listed(inverse - {d}, m);
      assert !Edge(inverse, d, m);
      forall c: Id
        ensures !Edge(inverse - {d}, c, m)
      {
        assert !Edge(inverse, c, m);
      }
      ListedNowhere(inverse - {d}, m);
    }
  }

  lemma ListedSomewhere(inverse: map<Id, seq<Id>>, m: Id) returns (d: Id)
    requires Listed(inverse, m) > 0
    ensures Edge(inverse, d, m)
  {
    if forall c: Id :: !Edge(inverse, c, m) {
      ListedNowhere(inverse, m);
    }
    d :| Edge(inverse, d, m);
  }

  lemma {:induction false} InFlightMember(stack: seq<Frame>, f: Frame, m: Id)
    requires f in stack
    ensures InFlight(stack, m) >= InFrame(f, m)
  {
    if f != stack[0] {
      InFlightMember(stack[1..], f, m);
    }
  }

  lemma {:induction false} InFlightNowhere(stack: seq<Frame>, m: Id)
    requires forall f :: f in stack ==> InFrame(f, m) == 0
    ensures InFlight(stack, m) == 0
  {
    if stack != [] {
      InFlightNowhere(stack[1..], m);
    }
  }

  lemma InFlightCons(f: Frame, stack: seq<Frame>, m: Id)
    ensures InFlight([f] + stack, m) == InFrame(f, m) + InFlight(stack, m)
  {
    assert ([f] + stack)[1..] == stack;
  }

  /* ---- The invariant, clause by clause ---- */

  ghost predicate Ran(s: State, m: Id) {
    exists k :: 0 <= k < |s.log| && s.log[k].id == m
  }

  // The factory of m has returned.
  ghost predicate Done(s: State, m: Id) {
    m in s.modules && s.modules[m].dependencies.None?
  }

  // Failed without having run its factory.
  ghost predicate Poisoned(s: State, m: Id) {
    s.Complete(m) && !Ran(s, m)
  }

  // Lists and frames mention only defined modules; a dependency list never changes.
  ghost predicate Scoped(s: State) {
    && WellScoped(s)
    && s.declared.Keys == s.modules.Keys
    && (forall d: Id, x: Id :: Edge(s.inverse, d, x) ==> x in s.modules)
    && (forall m :: m in s.modules && s.modules[m].dependencies.Some?
          ==> s.modules[m].dependencies.value == s.declared[m])
    && (forall f :: f in s.stack && f.Resolving? ==> forall d :: d in f.rest ==> d in s.declared[f.owner])
  }

  // The counting invariant.
  ghost predicate Counted(s: State) {
    forall m :: m in s.modules ==>
      && s.modules[m].unresolved >= Outstanding(s, m)
      && (!s.modules[m].complete ==> s.modules[m].unresolved == Outstanding(s, m))
      && (Ran(s, m) ==> s.modules[m].unresolved == 0)
  }

  // Completion, errors and factories.
  ghost predicate Lifecycle(s: State) {
    && (forall m :: Ran(s, m) ==> s.Complete(m))
    && (forall m :: s.Complete(m) && !s.modules[m].error ==> Ran(s, m))
    && (forall m :: Done(s, m) ==> Ran(s, m))
    && (forall m :: Ran(s, m) && !Done(s, m) ==> Factory(m) in s.stack)
    && (forall f :: f in s.stack && (f.Factory? || f.Notifying? || f.Feeding?) ==> Ran(s, f.owner))
    && (forall i, j :: 0 <= i < j < |s.log| ==> s.log[i].id != s.log[j].id)
    && (forall i :: 0 <= i < |s.log| ==> s.log[i].id in s.declared && s.log[i].dependencies == s.declared[s.log[i].id])
  }

  // Waits are dependencies, nobody waits on a finished module, and waits form no cycle.
  ghost predicate WaitsSound(s: State) {
    && (forall d: Id, x: Id :: Edge(s.inverse, d, x) ==> x in s.declared && DependsOn(s.declared[x], d))
    && (forall d :: Done(s, d) ==> d !in s.inverse)
    && Acyclic(s.inverse)
  }

  ghost predicate DependsOn(deps: seq<Dependency>, d: Id) {
    exists e :: e in deps && !e.IsPseudo() && e.Target() == d
  }

  // A module with nothing left to wait for is about to be completed.
  ghost predicate NoLostWakeup(s: State) {
    && (forall m :: m in s.modules && !s.modules[m].complete && s.modules[m].unresolved == 0 ==> Awake(s, m))
    && (forall f :: f in s.stack && f.Completing? ==> f.owner in s.modules && s.modules[f.owner].unresolved == 0)
  }

  ghost predicate Awake(s: State, m: Id) {
    exists f :: f in s.stack && (f.Resolving? || f.Completing?) && f.owner == m
  }

  // Where dependency d of the incomplete module m stands.
  ghost predicate Tracked(s: State, m: Id, d: Dependency) {
    || Ran(s, d.Target())
    || (m, d.Target()) in s.cut
    || Edge(s.inverse, d.Target(), m)
    || Unexamined(s, m, d)
  }

  ghost predicate Unexamined(s: State, m: Id, d: Dependency) {
    exists f :: f in s.stack && f.Resolving? && f.owner == m && d in f.rest
  }

  ghost predicate RanBefore(log: seq<Invocation>, k: nat, d: Id) {
    exists j :: 0 <= j < k && j < |log| && log[j].id == d
  }

  // Factories run after the factories of their dependencies, cut edges aside.
  ghost predicate Ordered(s: State) {
    && (forall m, d :: m in s.modules && !s.modules[m].complete && m in s.declared && d in s.declared[m] && !d.IsPseudo()
          ==> Tracked(s, m, d))
    && (forall k, d :: 0 <= k < |s.log| && d in s.log[k].dependencies && !d.IsPseudo()
          ==> RanBefore(s.log, k, d.Target()) || (s.log[k].id, d.Target()) in s.cut)
  }

  // The graph of all dependency lists ever declared.
  function DeclaredGraph(declared: map<Id, seq<Dependency>>): Graph {
    map m | m in declared :: Targets(declared[m])
  }

  // A cut edge lies on a cycle of declared dependencies.
  ghost predicate CutsOnCycles(s: State) {
    forall m: Id, d: Id :: (m, d) in s.cut ==>
      Edge(DeclaredGraph(s.declared), m, d) && Reach(DeclaredGraph(s.declared), d, m)
  }

  // Whatever is waited for has been asked for, or is parked at a plugin that has
  // not finished, or is about to be asked for.
  ghost predicate AllRequested(s: State) {
    && (forall d: Id, x: Id :: Edge(s.inverse, d, x) ==> s.Requested(d) || Parked(s, d) || Fed(s, d))
    && (forall p, d :: p in s.pluginWaits && d in s.pluginWaits[p] ==> d.Plugin? && d.pluginId == p)
    && (forall p :: p in s.pluginWaits ==> s.Requested(p))
    && (forall p :: p in s.pluginWaits && Done(s, p) ==> exists f :: f in s.stack && f.Notifying? && f.owner == p)
  }

  ghost predicate Parked(s: State, d: Id) {
    exists p, e :: p in s.pluginWaits && e in s.pluginWaits[p] && e.Target() == d
  }

  ghost predicate Fed(s: State, d: Id) {
    exists f, e :: f in s.stack && f.Feeding? && e in f.resources && e.Target() == d
  }

  /* ---- The invariant as a whole ---- */

  // Naming the clauses lets a proof open just the ones it needs.
  datatype Clause = Scopes | Counts | Lives | Waits | Wakes | Orders | Cuts | Requests

  ghost predicate Holds(s: State, c: Clause) {
    match c
    case Scopes => Scoped(s)
    case Counts => Counted(s)
    case Lives => Lifecycle(s)
    case Waits => WaitsSound(s)
    case Wakes => NoLostWakeup(s)
    case Orders => Ordered(s)
    case Cuts => CutsOnCycles(s)
    case Requests => AllRequested(s)
  }

  ghost predicate Inv(s: State) {
    forall c: Clause :: Holds(s, c)
  }

  // Everything but the last clause.
  ghost predicate Core(s: State) {
    forall c: Clause :: c != Requests ==> Holds(s, c)
  }

  lemma OpenCore(s: State)
    requires Core(s)
    ensures Scoped(s) && Counted(s) && Lifecycle(s) && WaitsSound(s)
    ensures NoLostWakeup(s) && Ordered(s) && CutsOnCycles(s)
  {
    assert Holds(s, Scopes) && Holds(s, Counts) && Holds(s, Lives) && Holds(s, Waits);
    assert Holds(s, Wakes) && Holds(s, Orders) && Holds(s, Cuts);
  }

  lemma CloseCore(s: State)
    requires Scoped(s) && Counted(s) && Lifecycle(s) && WaitsSound(s)
    requires NoLostWakeup(s) && Ordered(s) && CutsOnCycles(s)
    ensures Core(s)
  {
  }

  lemma CloseInv(s: State)
    requires Core(s) && AllRequested(s)
    ensures Inv(s)
  {
  }

  lemma InitInv()
    ensures Inv(EMPTY_STATE)
  {
    assert Acyclic(EMPTY_STATE.inverse) by {
      forall x: Id
        ensures !Reach(EMPTY_STATE.inverse, x, x)
      {
        if Reach(EMPTY_STATE.inverse, x, x) {
          var y := ReachFirst(EMPTY_STATE.inverse, x, x);
        }
      }
    }
    CloseCore(EMPTY_STATE);
    CloseInv(EMPTY_STATE);
  }
}
