/** The depth-first search for cycles among waiting parents. */
module CycleSearch {
  import opened Digraphs

  ghost predicate Distinct(s: seq<Node>) {
    forall i, j | 0 <= i < j < |s| :: s[i] != s[j]
  }

  /** A closed walk from `n` that meets no node twice before it returns to `n`. */
  ghost predicate SimpleCycle(g: Digraph, w: seq<Node>, n: Node) {
    IsWalkFromTo(g, w, n, n) && |w| > 1 && Distinct(w[..|w| - 1])
  }

  /** A stack that the search can go on from. */
  ghost predicate SearchStack(g: Digraph, stack: seq<Node>, visited: set<Node>) {
    && IsWalk(g, stack)
    && Distinct(stack[..|stack| - 1])
    && Elements(stack[..|stack| - 1]) <= visited
  }

  /** Everything in `done` has been searched without meeting `root` again. */
  ghost predicate Exhausted(g: Digraph, done: set<Node>, visited: set<Node>, root: Node) {
    forall v {:trigger g[v]} | v in done && v in g :: g[v] <= visited && root !in g[v]
  }

  /** Extends `stack` to a cycle through its bottom element, or exhausts what its top leads to. */
  method FindCycle(g: Digraph, stack: seq<Node>, visited: set<Node>, ghost all: set<Node>)
    returns (found: bool, stack': seq<Node>, visited': set<Node>)
    requires ClosedUnder(g, all) && all <= g.Keys
    requires SearchStack(g, stack, visited) && visited <= all && stack[|stack| - 1] in all
    ensures visited <= visited' <= all && stack[|stack| - 1] in visited'
    ensures found ==> SimpleCycle(g, stack', stack[0])
    ensures !found ==> stack' == stack && Exhausted(g, visited' - visited, visited', stack[0])
    decreases |all - visited|
  {
    stack', visited', found := stack, visited, false;
    var top := stack[|stack| - 1];
    if top in visited {
      return;
    }
    visited' := visited + {top};
    var parents := g[top];
    while parents != {}
      invariant stack' == stack
      invariant visited + {top} <= visited' <= all
      invariant parents <= g[top]
      invariant g[top] - parents <= visited' && stack[0] !in g[top] - parents
      invariant Exhausted(g, visited' - visited - {top}, visited', stack[0])
    {
      var n :| n in parents;
      parents := parents - {n};
      stack' := stack' + [n];
      assert SearchStack(g, stack', visited') by {
        assert stack'[..|stack'| - 1] == stack;
        StackDistinct(stack, visited);
      }
      if stack'[0] == stack'[|stack'| - 1] {
        assert stack'[..|stack'| - 1] == stack;
        found := true;
        return;
      }
      Smaller(all, visited, visited', top);
      ghost var before := visited';
      found, stack', visited' := FindCycle(g, stack', visited', all);
      if found {
        return;
      }
      assert visited' - visited - {top} == (before - visited - {top}) + (visited' - before);
      stack' := stack'[..|stack'| - 1];
    }
  }

  lemma StackDistinct(stack: seq<Node>, visited: set<Node>)
    requires |stack| > 0 && Distinct(stack[..|stack| - 1]) && Elements(stack[..|stack| - 1]) <= visited
    requires stack[|stack| - 1] !in visited
    ensures Distinct(stack) && Elements(stack) <= visited + {stack[|stack| - 1]}
  {
    var v := stack[..|stack| - 1];
    forall i | 0 <= i < |v| ensures stack[i] in visited && stack[i] == v[i] {
      assert v[i] in Elements(v);
    }
  }

  lemma Smaller(all: set<Node>, visited: set<Node>, visited': set<Node>, top: Node)
    requires visited <= visited' && top in visited' - visited && top in all
    ensures |all - visited'| < |all - visited|
  {
    assert top in all - visited;
    assert all - visited' <= (all - visited) - {top};
    Subset(all - visited', (all - visited) - {top});
  }

  lemma Subset(a: set<Node>, b: set<Node>)
    requires a <= b
    ensures |a| <= |b|
  {
    assert b == a + (b - a);
  }

  lemma WalkMissesRoot(g: Digraph, w: seq<Node>, n: Node, visited: set<Node>)
    requires Exhausted(g, visited, visited, n) && IsWalk(g, w) && |w| > 1 && w[0] in visited
    ensures w[|w| - 1] != n
  {
    var v := w[..|w| - 1];
    assert IsWalk(g, v);
    WalkStays(g, v, visited);
    assert w[|w| - 1] in g[w[|w| - 2]];
  }

  /** A search that comes back empty-handed has proved that its root is on no cycle. */
  lemma ExhaustedNoCycle(g: Digraph, n: Node, visited: set<Node>)
    requires n in visited && Exhausted(g, visited, visited, n)
    ensures !OnCycle(g, n)
  {
    forall w | IsWalk(g, w) && |w| > 1 && w[0] == n ensures w[|w| - 1] != n {
      WalkMissesRoot(g, w, n, visited);
    }
  }

  /** `find_cycle([n], set())`. */
  method CycleThrough(g: Digraph, n: Node, ghost all: set<Node>) returns (found: bool, cycle: seq<Node>)
    requires ClosedUnder(g, all) && n in all && all <= g.Keys
    ensures found <==> OnCycle(g, n)
    ensures found ==> SimpleCycle(g, cycle, n)
  {
    var visited;
    found, cycle, visited := FindCycle(g, [n], {}, all);
    if !found {
      assert visited - {} == visited;
      ExhaustedNoCycle(g, n, visited);
    }
  }
}
