/**
  Waits that the cycle check does not see: a plugin resource waits for its plugin.
 */
module LoaderPlugins {
  import opened Graphs
  import opened LoaderModel
  import opened LoaderInvariant
  import opened LoaderRuns
  import opened Wrappers

  // The waits on modules, and the waits of parked resources on their plugins.
  function AllWaits(s: State): Graph {
    map p | p in s.inverse.Keys + s.pluginWaits.Keys ::
      Successors(s.inverse, p) + if p in s.pluginWaits then Targets(s.pluginWaits[p]) else []
  }

  ghost predicate ParkedAt(s: State, p: Id, r: Id) {
    p in s.pluginWaits && exists e :: e in s.pluginWaits[p] && e.Target() == r
  }

  lemma AllWaitsEdge(s: State, a: Id, b: Id)
    ensures Edge(AllWaits(s), a, b) <==> Edge(s.inverse, a, b) || ParkedAt(s, a, b)
  {
    if a in s.pluginWaits {
      var entries := s.pluginWaits[a];
      if e :| e in entries && e.Target() == b {
        var i :| 0 <= i < |entries| && entries[i] == e;
        assert Targets(entries)[i] == b;
      }
    }
  }

  // Walking backwards inside a finite set ends outside it, or goes round in a cycle.
  lemma {:induction false} WalksBack(g: Graph, inside: set<Id>, outside: set<Id>, m: Id, rest: set<Id>, x: Id)
    returns (r: Id)
    requires rest <= inside && x in inside - rest && Star(g, x, m)
    requires forall y: Id :: y in inside ==> exists z: Id :: Edge(g, z, y) && (z in inside || z in outside)
    requires forall v: Id :: v in inside - rest ==> Star(g, x, v)
    ensures Reach(g, r, m) && (r in outside || Reach(g, r, r))
    decreases rest
  {
    var y: Id :| Edge(g, y, x) && (y in inside || y in outside);
    EdgeReach(g, y, x);
    StarTrans(g, y, x, m);
    if y in outside {
      r := y;
    } else if y in inside - rest {
      StarTrans(g, y, x, y);
      r := y;
    } else {
      forall v: Id | v in inside - (rest - {y})
        ensures Star(g, y, v)
      {
        if v != y {
          StarTrans(g, y, x, v);
        }
      }
      r := WalksBack(g, inside, outside, m, rest - {y}, y);
    }
  }

  // Still waiting: incomplete modules, and awaited ids that nobody has defined or asked for.
  function Hanging(s: State): set<Id> {
    (set x | x in s.modules && !s.modules[x].complete)
    + (set d | d in s.inverse && s.inverse[d] != [] && d !in s.modules && d !in s.known)
  }

  // Out of the loader's hands: failed modules, and ids that were asked for and not defined.
  ghost predicate Blocked(s: State, r: Id) {
    Poisoned(s, r) || (r !in s.modules && r in s.known)
  }

  ghost function AllBlocked(s: State): set<Id> {
    set r | r in s.modules.Keys + s.known && Blocked(s, r)
  }

  lemma ModuleWaits(s: State, x: Id) returns (d: Id)
    requires Reachable(s) && Quiet(s) && x in s.modules && !s.modules[x].complete
    ensures Edge(s.inverse, d, x) && (d in Hanging(s) || d in AllBlocked(s))
  {
    ReachableInv(s);
    d := QuietWaits(s, x);
    QuietAwaited(s, d, x);
  }

  lemma ResourceWaits(s: State, r: Id) returns (p: Id)
    requires Reachable(s) && Quiet(s) && r in s.inverse && s.inverse[r] != [] && r !in s.modules && r !in s.known
    ensures ParkedAt(s, p, r) && (p in Hanging(s) || p in AllBlocked(s))
  {
    assert Edge(s.inverse, r, s.inverse[r][0]);
    ObstacleRequested(s, r, s.inverse[r][0]);
    ReachableInv(s);
    assert Holds(s, Lives);
    var q, e :| q in s.pluginWaits && e in s.pluginWaits[q] && e == Plugin(r, q) && s.Requested(q) && !Done(s, q);
    p := q;
  }

  // Behind a module that is incomplete between calls there is a failed module, an
  // id that was asked for and never defined, or a cycle.  Waits on modules alone form
  // no cycle, so it leads through a resource that waits for its own plugin.
  lemma StuckBehind(s: State, m: Id) returns (r: Id)
    requires Reachable(s) && Quiet(s) && m in s.modules && !s.modules[m].complete
    ensures Reach(AllWaits(s), r, m)
    ensures Blocked(s, r) || (Reach(AllWaits(s), r, r) && !Reach(s.inverse, r, r))
  {
    var g, inside := AllWaits(s), Hanging(s);
    forall y: Id | y in inside
      ensures exists z: Id :: Edge(g, z, y) && (z in inside || z in AllBlocked(s))
    {
      if y in s.modules {
        var d := ModuleWaits(s, y);
        AllWaitsEdge(s, d, y);
      } else {
        var p := ResourceWaits(s, y);
        AllWaitsEdge(s, p, y);
      }
    }
    r := WalksBack(g, inside, AllBlocked(s), m, inside - {m}, m);
    WaitsNeverCycle(s, r);
  }

  // Without such cycles, and once everything asked for is defined and nothing has
  // failed, every module is complete - plugins and their resources included.
  lemma NoPluginDeadlock(s: State)
    requires Reachable(s) && Quiet(s) && Acyclic(AllWaits(s))
    requires forall r: Id :: !Blocked(s, r)
    ensures forall m :: m in s.modules ==> s.modules[m].complete
  {
    forall m | m in s.modules
      ensures s.modules[m].complete
    {
      if !s.modules[m].complete {
        var r := StuckBehind(s, m);
      }
    }
  }
}
