/**
  Finite directed graphs: walks, reachability and cycles.

  The same notions serve the dependency relation of the build engine, its run-time
  "waiting parents" relation, and the library-alias relation.
  */
module Digraphs {
  type Node = nat
  type Digraph = map<Node, set<Node>>

  /** Every edge leads to a node of the graph. */
  ghost predicate Closed(g: Digraph) {
    forall n | n in g :: g[n] <= g.Keys
  }

  ghost predicate IsWalk(g: Digraph, w: seq<Node>) {
    && |w| > 0
    && (forall i | 0 <= i < |w| :: w[i] in g)
    && (forall i, j {:trigger w[i], w[j]} | 0 <= i < j < |w| && j == i + 1 :: w[j] in g[w[i]])
  }

  ghost predicate IsWalkFromTo(g: Digraph, w: seq<Node>, a: Node, b: Node) {
    IsWalk(g, w) && w[0] == a && w[|w| - 1] == b
  }

  ghost predicate Reaches(g: Digraph, a: Node, b: Node) {
    exists w :: IsWalkFromTo(g, w, a, b)
  }

  ghost predicate OnCycle(g: Digraph, n: Node) {
    exists w :: IsWalkFromTo(g, w, n, n) && |w| > 1
  }

  ghost predicate ReachesCycle(g: Digraph, n: Node) {
    exists m :: Reaches(g, n, m) && OnCycle(g, m)
  }

  ghost predicate Acyclic(g: Digraph) {
    forall n :: !OnCycle(g, n)
  }

  /** The reflexive-transitive closure of `from`. */
  ghost function ReachSet(g: Digraph, from: set<Node>): set<Node> {
    set n | n in g && exists f :: f in from && Reaches(g, f, n)
  }

  /** `s` is closed under the edges of `g`. */
  ghost predicate ClosedUnder(g: Digraph, s: set<Node>) {
    forall n | n in s && n in g :: g[n] <= s
  }

  lemma ReachesRefl(g: Digraph, a: Node)
    requires a in g
    ensures Reaches(g, a, a)
  {
    assert IsWalkFromTo(g, [a], a, a);
  }

  lemma ReachesStep(g: Digraph, a: Node, b: Node, c: Node)
    requires Reaches(g, a, b) && c in g[b] && c in g
    ensures Reaches(g, a, c)
  {
    var w :| IsWalkFromTo(g, w, a, b);
    assert IsWalkFromTo(g, w + [c], a, c);
  }

  lemma WalkStays(g: Digraph, w: seq<Node>, s: set<Node>)
    requires IsWalk(g, w) && w[0] in s && ClosedUnder(g, s)
    ensures w[|w| - 1] in s
  {
    if |w| > 1 {
      WalkStays(g, w[..|w| - 1], s);
    }
  }

  /** A closed set holding `from` holds everything reachable from it. */
  lemma ReachSetLeast(g: Digraph, from: set<Node>, s: set<Node>)
    requires from <= s && ClosedUnder(g, s)
    ensures ReachSet(g, from) <= s
  {
    forall n | n in ReachSet(g, from) ensures n in s {
      var f :| f in from && Reaches(g, f, n);
      var w :| IsWalkFromTo(g, w, f, n);
      WalkStays(g, w, s);
    }
  }

  /** The closure of `from` is itself closed, and stays inside any closed set of nodes. */
  lemma ReachSetWithin(g: Digraph, from: set<Node>, all: set<Node>)
    requires from <= all <= g.Keys && ClosedUnder(g, all)
    ensures from <= ReachSet(g, from) <= all
    ensures ClosedUnder(g, ReachSet(g, from))
  {
    ReachSetLeast(g, from, all);
    forall f | f in from ensures f in ReachSet(g, from) {
      ReachesRefl(g, f);
    }
    forall n, c | n in ReachSet(g, from) && c in g[n] ensures c in ReachSet(g, from) {
      var f :| f in from && Reaches(g, f, n);
      assert n in all;
      ReachesStep(g, f, n, c);
    }
  }

  lemma ReachSetClosed(g: Digraph, from: set<Node>)
    requires Closed(g) && from <= g.Keys
    ensures from <= ReachSet(g, from)
    ensures ClosedUnder(g, ReachSet(g, from))
  {
    ReachSetWithin(g, from, g.Keys);
  }

  /**
    A knotted set: every member has a successor inside the set. Knotted sets are what a
    scheduler cannot untie: they describe cycles without mentioning walks.
    */
  ghost predicate Knotted(g: Digraph, s: set<Node>) {
    s <= g.Keys && forall n | n in s :: g[n] * s != {}
  }

  function Elements(w: seq<Node>): set<Node> {
    set n | n in w
  }

  /** A walk of the given length that never leaves the knotted set. */
  lemma LongWalk(g: Digraph, s: set<Node>, n: Node, len: nat) returns (w: seq<Node>)
    requires Knotted(g, s) && n in s
    ensures IsWalk(g, w) && w[0] == n && |w| == len + 1 && Elements(w) <= s
  {
    if len == 0 {
      w := [n];
    } else {
      var v := LongWalk(g, s, n, len - 1);
      var c :| c in g[v[|v| - 1]] * s;
      w := v + [c];
    }
  }

  lemma Pigeonhole(w: seq<Node>, s: set<Node>)
    requires Elements(w) <= s && |w| > |s|
    ensures exists i, j :: 0 <= i < j < |w| && w[i] == w[j]
  {
    var x := w[|w| - 1];
    if x in w[..|w| - 1] {
      var i :| 0 <= i < |w| - 1 && w[..|w| - 1][i] == x;
      assert w[i] == w[|w| - 1];
    } else {
      var v := w[..|w| - 1];
      assert x in Elements(w);
      forall y | y in Elements(v) ensures y in s - {x} {
        assert y in Elements(w);
      }
      Pigeonhole(v, s - {x});
      var i, j :| 0 <= i < j < |v| && v[i] == v[j];
      assert w[i] == w[j];
    }
  }

  /** From every member of a knotted set, a cycle lying inside that set is reachable. */
  lemma KnotHasCycle(g: Digraph, s: set<Node>, n: Node) returns (m: Node)
    requires Knotted(g, s) && n in s
    ensures m in s && Reaches(g, n, m) && OnCycle(g, m)
  {
    var w := LongWalk(g, s, n, |s|);
    Pigeonhole(w, s);
    var i, j :| 0 <= i < j < |w| && w[i] == w[j];
    m := w[i];
    assert m in Elements(w);
    assert IsWalkFromTo(g, w[..i + 1], n, m);
    assert IsWalkFromTo(g, w[i..j + 1], m, m);
  }

  /** The nodes of a walk that ends in a set where every member goes on form a knot with it. */
  lemma WalkIntoKnot(g: Digraph, w: seq<Node>, s: set<Node>)
    requires IsWalk(g, w) && Knotted(g, s) && w[|w| - 1] in s
    ensures Knotted(g, Elements(w) + s)
  {
    var t := Elements(w) + s;
    forall n | n in t ensures n in g && g[n] * t != {} {
      if n in s {
        var c :| c in g[n] * s;
        assert c in g[n] * t;
      } else {
        var i :| 0 <= i < |w| && w[i] == n;
        assert w[i + 1] in Elements(w);
        assert w[i + 1] in g[n] * t;
      }
    }
  }

  lemma CycleIsKnotted(g: Digraph, w: seq<Node>)
    requires IsWalk(g, w) && |w| > 1 && w[0] == w[|w| - 1]
    ensures Knotted(g, Elements(w))
  {
    forall n | n in Elements(w) ensures n in g && g[n] * Elements(w) != {} {
      var i :| 0 <= i < |w| && w[i] == n;
      var k := if i == |w| - 1 then 0 else i;
      assert w[k] == n && w[k + 1] in Elements(w);
      assert w[k + 1] in g[n] * Elements(w);
    }
  }

  /** Leading to a cycle is the same as belonging to some knotted set. */
  lemma ReachesCycleIffKnotted(g: Digraph, n: Node)
    ensures ReachesCycle(g, n) <==> exists s :: Knotted(g, s) && n in s
  {
    if ReachesCycle(g, n) {
      var m :| Reaches(g, n, m) && OnCycle(g, m);
      var w :| IsWalkFromTo(g, w, n, m);
      var v :| IsWalkFromTo(g, v, m, m) && |v| > 1;
      CycleIsKnotted(g, v);
      WalkIntoKnot(g, w, Elements(v));
      assert w[0] in Elements(w);
      assert n in Elements(w) + Elements(v);
    }
    if exists s :: Knotted(g, s) && n in s {
      var s :| Knotted(g, s) && n in s;
      var m := KnotHasCycle(g, s, n);
    }
  }

  /** A cycle can be entered at any of its nodes. */
  lemma Rotate(g: Digraph, w: seq<Node>, i: nat)
    requires IsWalk(g, w) && |w| > 1 && w[0] == w[|w| - 1] && i < |w|
    ensures OnCycle(g, w[i])
  {
    var v := w[i..] + w[1..i + 1];
    forall a, b | 0 <= a < b < |v| && b == a + 1 ensures v[b] in g[v[a]] {
      if a < |w| - i - 1 {
        assert v[a] == w[i + a] && v[b] == w[i + b];
      } else {
        var k := a - (|w| - i - 1);
        assert v[b] == w[k + 1] && v[a] == w[k];
      }
    }
    assert IsWalkFromTo(g, v, w[i], w[i]);
  }

  /** `h` has the edges of `g` turned around. */
  ghost predicate Converse(g: Digraph, h: Digraph) {
    && g.Keys == h.Keys
    && forall a, b {:trigger b in g[a]} | a in g && b in g[a] :: b in h && a in h[b]
  }

  lemma ConverseCycle(g: Digraph, h: Digraph, n: Node)
    requires Converse(g, h) && OnCycle(g, n)
    ensures OnCycle(h, n)
  {
    var w :| IsWalkFromTo(g, w, n, n) && |w| > 1;
    var v := seq(|w|, i requires 0 <= i < |w| => w[|w| - 1 - i]);
    forall a, b | 0 <= a < b < |v| && b == a + 1 ensures v[b] in h[v[a]] {
      assert v[a] == w[|w| - 1 - a] && v[b] == w[|w| - 1 - b];
      assert w[|w| - 1 - a] in g[w[|w| - 1 - b]];
    }
    assert IsWalkFromTo(h, v, n, n);
  }
}
