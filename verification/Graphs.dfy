/** Finite directed graphs given by successor lists, and reachability in them. */
module Graphs {

  type Id = nat
  type Graph = map<Id, seq<Id>>

  ghost predicate Edge(g: Graph, a: Id, b: Id) {
    a in g && b in g[a]
  }

  // Every two neighbours of p are joined by an edge.
  ghost predicate IsPath(g: Graph, p: seq<Id>) {
    |p| <= 1 || (Edge(g, p[0], p[1]) && IsPath(g, p[1..]))
  }

  ghost predicate Connects(g: Graph, p: seq<Id>, a: Id, b: Id) {
    |p| >= 2 && IsPath(g, p) && p[0] == a && p[|p| - 1] == b
  }

  // There is a path with at least one edge.
  ghost predicate Reach(g: Graph, a: Id, b: Id) {
    exists p: seq<Id> :: Connects(g, p, a, b)
  }

  // There is a path, possibly without edges.
  ghost predicate Star(g: Graph, a: Id, b: Id) {
    a == b || Reach(g, a, b)
  }

  ghost predicate Acyclic(g: Graph) {
    forall x: Id :: !Reach(g, x, x)
  }

  // g with one more edge, appended to the list of a.
  function Successors(g: Graph, a: Id): seq<Id> {
    if a in g then g[a] else []
  }

  function AddEdge(g: Graph, a: Id, b: Id): Graph {
    g[a := Successors(g, a) + [b]]
  }

  ghost predicate Closed(g: Graph, s: set<Id>) {
    forall x: Id, y: Id :: x in s && Edge(g, x, y) ==> y in s
  }

  lemma EdgeReach(g: Graph, a: Id, b: Id)
    requires Edge(g, a, b)
    ensures Reach(g, a, b)
  {
    assert Connects(g, [a, b], a, b);
  }

  lemma {:induction false} PathConcat(g: Graph, p: seq<Id>, q: seq<Id>)
    requires |p| > 0 && |q| > 0 && IsPath(g, p) && IsPath(g, q) && p[|p| - 1] == q[0]
    ensures IsPath(g, p + q[1..])
  {
    if |p| == 1 {
      assert p + q[1..] == q;
    } else {
      PathConcat(g, p[1..], q);
      assert (p + q[1..])[1..] == p[1..] + q[1..];
    }
  }

  lemma ReachTrans(g: Graph, a: Id, b: Id, c: Id)
    requires Reach(g, a, b) && Reach(g, b, c)
    ensures Reach(g, a, c)
  {
    var p :| Connects(g, p, a, b);
    var q :| Connects(g, q, b, c);
    PathConcat(g, p, q);
    assert Connects(g, p + q[1..], a, c);
  }

  lemma StarTrans(g: Graph, a: Id, b: Id, c: Id)
    requires Star(g, a, b) && Star(g, b, c)
    ensures Star(g, a, c)
    ensures Reach(g, a, b) || Reach(g, b, c) ==> Reach(g, a, c)
  {
    if a != b && b != c {
      ReachTrans(g, a, b, c);
    } else if Reach(g, a, b) && Reach(g, b, c) {
      ReachTrans(g, a, b, c);
    }
  }

  // The first edge of a path.
  lemma ReachFirst(g: Graph, a: Id, b: Id) returns (c: Id)
    requires Reach(g, a, b)
    ensures Edge(g, a, c) && Star(g, c, b)
  {
    var p :| Connects(g, p, a, b);
    c := p[1];
    if |p| > 2 {
      assert Connects(g, p[1..], c, b);
    }
  }

  // The last edge of a path.
  lemma ReachLast(g: Graph, a: Id, b: Id) returns (c: Id)
    requires Reach(g, a, b)
    ensures Star(g, a, c) && Edge(g, c, b)
  {
    var p :| Connects(g, p, a, b);
    c := PathLast(g, p);
  }

  lemma {:induction false} PathLast(g: Graph, p: seq<Id>) returns (c: Id)
    requires |p| >= 2 && IsPath(g, p)
    ensures Star(g, p[0], c) && Edge(g, c, p[|p| - 1])
  {
    if |p| == 2 {
      c := p[0];
    } else {
      c := PathLast(g, p[1..]);
      EdgeReach(g, p[0], p[1]);
      StarTrans(g, p[0], p[1], c);
    }
  }

  // A path never leaves a closed set.
  lemma {:induction false} PathStays(g: Graph, s: set<Id>, p: seq<Id>)
    requires Closed(g, s) && |p| > 0 && IsPath(g, p) && p[0] in s
    ensures p[|p| - 1] in s
    ensures |p| >= 2 ==> exists x: Id :: x in s && Edge(g, x, p[|p| - 1])
  {
    if |p| >= 2 {
      PathStays(g, s, p[1..]);
      if |p| == 2 {
        assert Edge(g, p[0], p[1]);
      }
    }
  }

  lemma ReachStays(g: Graph, s: set<Id>, a: Id, b: Id)
    requires Closed(g, s) && a in s && Reach(g, a, b)
    ensures b in s
    ensures exists x: Id :: x in s && Edge(g, x, b)
  {
    var p :| Connects(g, p, a, b);
    PathStays(g, s, p);
  }

  // More edges, more paths.
  lemma {:induction false} PathMonotone(g: Graph, h: Graph, p: seq<Id>)
    requires forall x: Id, y: Id :: Edge(g, x, y) ==> Edge(h, x, y)
    requires IsPath(g, p)
    ensures IsPath(h, p)
  {
    if |p| > 1 {
      PathMonotone(g, h, p[1..]);
    }
  }

  lemma ReachMonotone(g: Graph, h: Graph, a: Id, b: Id)
    requires forall x: Id, y: Id :: Edge(g, x, y) ==> Edge(h, x, y)
    requires Reach(g, a, b)
    ensures Reach(h, a, b)
  {
    var p :| Connects(g, p, a, b);
    PathMonotone(g, h, p);
    assert Connects(h, p, a, b);
  }

  // Paths of the reversed graph run the other way.
  lemma {:induction false} PathReversed(g: Graph, h: Graph, p: seq<Id>)
    requires forall x: Id, y: Id :: Edge(g, x, y) ==> Edge(h, y, x)
    requires |p| >= 2 && IsPath(g, p)
    ensures Reach(h, p[|p| - 1], p[0])
  {
    EdgeReach(h, p[1], p[0]);
    if |p| > 2 {
      PathReversed(g, h, p[1..]);
      ReachTrans(h, p[|p| - 1], p[1], p[0]);
    }
  }

  lemma ReachReversed(g: Graph, h: Graph, a: Id, b: Id)
    requires forall x: Id, y: Id :: Edge(g, x, y) ==> Edge(h, y, x)
    requires Reach(g, a, b)
    ensures Reach(h, b, a)
  {
    var p :| Connects(g, p, a, b);
    PathReversed(g, h, p);
  }

  // A path of the extended graph either avoids the new edge or passes over it.
  lemma {:induction false} PathWithEdge(g: Graph, d: Id, m: Id, p: seq<Id>)
    requires |p| >= 2 && IsPath(AddEdge(g, d, m), p)
    ensures Reach(g, p[0], p[|p| - 1]) || (Star(g, p[0], d) && Star(g, m, p[|p| - 1]))
  {
    var a, c, b := p[0], p[1], p[|p| - 1];
    assert Edge(AddEdge(g, d, m), a, c);
    assert Edge(g, a, c) || (a == d && c == m);
    if Edge(g, a, c) {
      EdgeReach(g, a, c);
    }
    if |p| > 2 {
      PathWithEdge(g, d, m, p[1..]);
      if Edge(g, a, c) {
        if Reach(g, c, b) {
          ReachTrans(g, a, c, b);
        } else {
          StarTrans(g, a, c, d);
        }
      }
    }
  }

  // An edge that closes no cycle keeps the graph acyclic.
  lemma AddEdgeAcyclic(g: Graph, d: Id, m: Id)
    requires Acyclic(g) && !Star(g, m, d)
    ensures Acyclic(AddEdge(g, d, m))
  {
    forall x: Id
      ensures !Reach(AddEdge(g, d, m), x, x)
    {
      if Reach(AddEdge(g, d, m), x, x) {
        var p :| Connects(AddEdge(g, d, m), p, x, x);
        PathWithEdge(g, d, m, p);
        StarTrans(g, m, x, d);
      }
    }
  }

  lemma SubgraphAcyclic(g: Graph, h: Graph)
    requires Acyclic(g) && forall x: Id, y: Id :: Edge(h, x, y) ==> Edge(g, x, y)
    ensures Acyclic(h)
  {
    forall x: Id
      ensures !Reach(h, x, x)
    {
      if Reach(h, x, x) {
        ReachMonotone(h, g, x, x);
      }
    }
  }

  // In an acyclic graph, walking backwards from a node of a finite set in which
  // every node has a predecessor must leave the set.
  lemma {:induction false} LeavesBackwards(g: Graph, s: set<Id>, m: Id, rest: set<Id>, x: Id) returns (r: Id)
    requires Acyclic(g) && rest <= s && x in s - rest
    requires forall y: Id :: y in s ==> exists z: Id :: Edge(g, z, y)
    requires forall v: Id :: v in s - rest ==> Star(g, x, v)
    requires Star(g, x, m)
    ensures r !in s && Reach(g, r, m)
    decreases rest
  {
    var y: Id :| Edge(g, y, x);
    EdgeReach(g, y, x);
    StarTrans(g, y, x, m);
    if y !in s {
      r := y;
    } else {
      if y in s - rest {
        StarTrans(g, y, x, y);
        assert false;
      }
      forall v: Id | v in s - (rest - {y})
        ensures Star(g, y, v)
      {
        if v != y {
          StarTrans(g, y, x, v);
        }
      }
      r := LeavesBackwards(g, s, m, rest - {y}, y);
    }
  }
}
