/** What a failure-free run has achieved when no candidate is left. */
module Outcome {
  import opened Digraphs
  import opened Scheduling
  import opened TurnLemmas

  /** No candidate is left and no task is being executed. */
  ghost predicate Drained(s: State) {
    && s.candidates == [] && s.topLeft == []
    && forall n {:trigger s.status[n]} | n in s.status :: !s.status[n].Executing?
  }

  /** The state in which every failure-free run leaves a node, whatever the schedule. */
  ghost function FinalStatus(cfg: Config, n: Node): Status {
    if n !in Needed(cfg) then NoState
    else if ReachesCycle(Deps(cfg), n) then Pending
    else if n in cfg.upToDate then UpToDate
    else Executed
  }

  /** The condition under which the final clean-up reports dependency cycles. */
  ghost predicate CycleReported(s: State) {
    exists n :: n in s.pendingChildren && n in s.status && (OnCycle(s.waiting, n) || s.status[n] != Executed)
  }

  ghost predicate CycleNeeded(cfg: Config) {
    exists n :: n in Needed(cfg) && OnCycle(Deps(cfg), n)
  }

  /** A failure-free state between two calls of the main thread. */
  ghost predicate FailureFree(cfg: Config, s: State) {
    && ValidConfig(cfg)
    && Inv(Deps(cfg), s, {})
    && Live(Deps(cfg), cfg.tops, s)
    && Clean(Deps(cfg), cfg.upToDate, s, {})
    && Confined(Needed(cfg), s)
  }

  lemma AllVisited(g: Digraph, tops: seq<Node>, s: State)
    requires Drained(s) && Over(g, s) && Closed(g) && Live(g, tops, s) && NoneFailed(s.status) && BuildOrder(g, s.status, {})
    ensures forall n | n in ReachSet(g, Elements(tops)) :: n in s.status && !s.status[n].NoState?
  {
    var seen := set n | n in s.status && !s.status[n].NoState?;
    forall n, c | n in seen && n in g && c in g[n] ensures c in seen {
      assert c in g;
    }
    ReachSetLeast(g, Elements(tops), seen);
  }

  ghost function PendingNodes(s: State): set<Node> {
    set n | n in s.status && s.status[n].Pending?
  }

  /** Whoever is still pending waits for another pending node. */
  lemma PendingWaits(g: Digraph, s: State, needed: set<Node>, p: Node) returns (c: Node)
    requires Drained(s) && Inv(g, s, {}) && NoneFailed(s.status) && NoneForgotten(s, {})
    requires Confined(needed, s) && ClosedUnder(g, needed)
    requires forall n | n in needed :: n in s.status && !s.status[n].NoState?
    requires p in PendingNodes(s)
    ensures p in g && c in g[p] && c in s.waiting && p in s.waiting[c] && c in PendingNodes(s)
  {
    assert WaitsForSome(s.waiting, p);
    c :| c in s.waiting && p in s.waiting[c];
    assert c in g[p] && p in needed;
    assert s.waiting[c] != {};
    assert !s.status[c].Failed? && !s.status[c].Executing?;
  }

  lemma PendingKnotted(g: Digraph, s: State, needed: set<Node>)
    requires Drained(s) && Inv(g, s, {}) && NoneFailed(s.status) && NoneForgotten(s, {})
    requires Confined(needed, s) && ClosedUnder(g, needed)
    requires forall n | n in needed :: n in s.status && !s.status[n].NoState?
    ensures Knotted(g, PendingNodes(s))
  {
    forall p | p in PendingNodes(s) ensures p in g && g[p] * PendingNodes(s) != {} {
      var c := PendingWaits(g, s, needed, p);
      assert c in g[p] * PendingNodes(s);
    }
  }

  lemma DrainedVisited(cfg: Config, s: State)
    requires FailureFree(cfg, s) && Drained(s)
    ensures forall n | n in Needed(cfg) :: n in s.status && !s.status[n].NoState?
    ensures Knotted(Deps(cfg), PendingNodes(s))
  {
    DepsClosed(cfg);
    AllVisited(Deps(cfg), cfg.tops, s);
    PendingKnotted(Deps(cfg), s, Needed(cfg));
  }

  /**
    Every failure-free run ends in the same node states: the needed nodes that lead to no cycle
    are built (or found up to date), the others are left pending, and nothing else is touched.
    */
  lemma FinalStates(cfg: Config, s: State)
    requires FailureFree(cfg, s) && Drained(s)
    ensures forall n | n in cfg.children :: n in s.status && s.status[n] == FinalStatus(cfg, n)
  {
    DrainedVisited(cfg, s);
    forall n | n in cfg.children ensures n in s.status && s.status[n] == FinalStatus(cfg, n) {
      assert n in Deps(cfg);
      ReachesCycleIffKnotted(Deps(cfg), n);
    }
  }

  // ---------------------------------------------------------------- Dependency cycles

  /** Who waits for whom: the waiting-parents relation turned around. */
  ghost function WaitGraph(waiting: map<Node, set<Node>>): Digraph {
    map p | p in waiting :: Waits(waiting, p)
  }

  lemma WaitsForPending(g: Digraph, s: State, needed: set<Node>, p: Node, c: Node)
    requires Drained(s) && Over(g, s) && WaitersSound(g, s.status, s.waiting) && NoneWaitsForDone(s.status, s.waiting, {})
    requires NoneFailed(s.status) && ClosedUnder(g, needed)
    requires forall n | n in needed :: n in s.status && !s.status[n].NoState?
    requires p in needed && p in PendingNodes(s) && c in s.waiting && p in s.waiting[c]
    ensures p in g && c in g[p] && c in PendingNodes(s)
  {
    assert p in g && c in g[p];
    assert c in needed && s.waiting[c] != {};
    assert !s.status[c].Failed? && !s.status[c].Executing?;
  }

  lemma PendingInWaits(g: Digraph, s: State, needed: set<Node>, p: Node)
    requires Drained(s) && Inv(g, s, {}) && NoneFailed(s.status) && NoneForgotten(s, {})
    requires Confined(needed, s) && ClosedUnder(g, needed)
    requires forall n | n in needed :: n in s.status && !s.status[n].NoState?
    requires p in PendingNodes(s)
    ensures p in needed && p in WaitGraph(s.waiting) && WaitGraph(s.waiting)[p] * PendingNodes(s) != {}
  {
    var c := PendingWaits(g, s, needed, p);
    assert c in WaitGraph(s.waiting)[p] * PendingNodes(s);
  }

  lemma PendingKnottedInWaits(g: Digraph, s: State, needed: set<Node>)
    requires Drained(s) && Inv(g, s, {}) && NoneFailed(s.status) && NoneForgotten(s, {})
    requires Confined(needed, s) && ClosedUnder(g, needed)
    requires forall n | n in needed :: n in s.status && !s.status[n].NoState?
    ensures Knotted(WaitGraph(s.waiting), PendingNodes(s))
    ensures forall p, c {:trigger c in WaitGraph(s.waiting)[p]} | p in PendingNodes(s) && c in WaitGraph(s.waiting)[p] ::
              c in PendingNodes(s) && c in g[p]
  {
    var w, pending := WaitGraph(s.waiting), PendingNodes(s);
    forall p | p in pending ensures p in needed && p in w && w[p] * pending != {} {
      PendingInWaits(g, s, needed, p);
    }
    forall p, c | p in pending && c in w[p] ensures c in pending && c in g[p] {
      assert c in s.waiting && p in s.waiting[c];
      WaitsForPending(g, s, needed, p, c);
    }
  }

  /** A walk among waiting nodes is a walk along dependencies, and all its nodes are pending. */
  lemma WaitWalk(g: Digraph, h: Digraph, pending: set<Node>, w: seq<Node>)
    requires IsWalk(h, w) && w[0] in pending && pending <= g.Keys && pending <= h.Keys
    requires forall p, c {:trigger c in h[p]} | p in pending && c in h[p] :: c in pending && c in g[p]
    ensures Elements(w) <= pending && IsWalk(g, w)
  {
    if |w| > 1 {
      var v := w[..|w| - 1];
      WaitWalk(g, h, pending, v);
      assert v[|v| - 1] in Elements(v);
      assert w[|w| - 1] in h[w[|w| - 2]];
      forall n | n in Elements(w) ensures n in pending {
        assert n in Elements(v) || n == w[|w| - 1];
      }
      forall i, j | 0 <= i < j < |w| && j == i + 1 ensures w[j] in g[w[i]] {
        if j < |w| - 1 {
          assert v[j] in g[v[i]];
        }
      }
    }
  }

  /** A cycle of the waiting nodes has a member among the pending children. */
  lemma CycleDetected(g: Digraph, h: Digraph, s: State, w: seq<Node>) returns (x: Node)
    requires IsWalk(h, w) && |w| > 1 && w[0] == w[|w| - 1] && w[0] in PendingNodes(s)
    requires PendingNodes(s) <= g.Keys && PendingNodes(s) <= h.Keys
    requires forall p, c {:trigger c in h[p]} | p in PendingNodes(s) && c in h[p] :: c in PendingNodes(s) && c in g[p]
    requires KnotsDetected(g, s.status, s.pendingChildren)
    ensures x in s.pendingChildren && OnCycle(g, x) && OnCycle(h, x)
  {
    WaitWalk(g, h, PendingNodes(s), w);
    CycleIsKnotted(g, w);
    assert w[0] in Elements(w);
    assert AllPending(Elements(w), s.status);
    x :| x in Elements(w) * s.pendingChildren;
    var i :| 0 <= i < |w| && w[i] == x;
    Rotate(g, w, i);
    Rotate(h, w, i);
  }

  lemma WaitGraphConverse(waiting: map<Node, set<Node>>, n: Node)
    requires OnCycle(WaitGraph(waiting), n)
    ensures OnCycle(waiting, n)
  {
    assert Converse(WaitGraph(waiting), waiting);
    ConverseCycle(WaitGraph(waiting), waiting, n);
  }

  lemma KnotDetected(g: Digraph, h: Digraph, s: State, p: Node) returns (x: Node)
    requires Knotted(h, PendingNodes(s)) && p in PendingNodes(s) && PendingNodes(s) <= g.Keys
    requires forall p, c {:trigger c in h[p]} | p in PendingNodes(s) && c in h[p] :: c in PendingNodes(s) && c in g[p]
    requires KnotsDetected(g, s.status, s.pendingChildren)
    ensures x in s.pendingChildren && OnCycle(g, x) && OnCycle(h, x)
  {
    var m := KnotHasCycle(h, PendingNodes(s), p);
    var w :| IsWalkFromTo(h, w, m, m) && |w| > 1;
    x := CycleDetected(g, h, s, w);
  }

  lemma StuckOnCycle(g: Digraph, s: State, needed: set<Node>, p: Node) returns (x: Node)
    requires Drained(s) && Inv(g, s, {}) && NoneFailed(s.status) && NoneForgotten(s, {})
    requires Confined(needed, s) && ClosedUnder(g, needed)
    requires forall n | n in needed :: n in s.status && !s.status[n].NoState?
    requires KnotsDetected(g, s.status, s.pendingChildren) && p in PendingNodes(s)
    ensures x in s.pendingChildren && OnCycle(s.waiting, x) && OnCycle(g, x)
  {
    PendingKnottedInWaits(g, s, needed);
    PendingKnotted(g, s, needed);
    x := KnotDetected(g, WaitGraph(s.waiting), s, p);
    WaitGraphConverse(s.waiting, x);
  }

  /** If anything is left pending, some pending child lies on a cycle of waiting parents. */
  lemma StuckHasCycle(cfg: Config, s: State, p: Node) returns (x: Node)
    requires FailureFree(cfg, s) && Drained(s) && p in PendingNodes(s)
    ensures x in s.pendingChildren && OnCycle(s.waiting, x) && OnCycle(Deps(cfg), x)
  {
    DepsClosed(cfg);
    DrainedVisited(cfg, s);
    x := StuckOnCycle(Deps(cfg), s, Needed(cfg), p);
  }

  lemma CycleIsReported(cfg: Config, s: State, n: Node)
    requires FailureFree(cfg, s) && Drained(s) && n in Needed(cfg) && OnCycle(Deps(cfg), n)
    ensures n in PendingNodes(s)
  {
    DepsClosed(cfg);
    FinalStates(cfg, s);
    ReachesRefl(Deps(cfg), n);
  }

  /**
    At the end of every failure-free run the clean-up reports dependency cycles if and only if
    the top targets depend on a cycle, and then it names at least one genuine cycle. If they do
    not, no pending child is left over at all.
    */
  lemma CycleReportExact(cfg: Config, s: State)
    requires FailureFree(cfg, s) && Drained(s)
    ensures CycleReported(s) <==> CycleNeeded(cfg)
    ensures CycleReported(s) ==> exists x :: x in s.pendingChildren && OnCycle(s.waiting, x) && OnCycle(Deps(cfg), x)
    ensures !CycleNeeded(cfg) ==> s.pendingChildren == {}
  {
    if t :| t in s.pendingChildren {
      assert t in PendingNodes(s);
      var x := StuckHasCycle(cfg, s, t);
      assert !s.status[x].NoState?;
    }
    if CycleNeeded(cfg) {
      var n :| n in Needed(cfg) && OnCycle(Deps(cfg), n);
      CycleIsReported(cfg, s, n);
      var x := StuckHasCycle(cfg, s, n);
    }
  }
}
