/** What one turn of the walk over the dependency graph keeps. */
module TurnLemmas {
  import opened Digraphs
  import opened Scheduling

  lemma DepsClosed(cfg: Config)
    requires ValidConfig(cfg)
    ensures Closed(Deps(cfg)) && Deps(cfg).Keys == cfg.children.Keys
    ensures Elements(cfg.tops) <= Needed(cfg) <= cfg.children.Keys
    ensures ClosedUnder(Deps(cfg), Needed(cfg))
  {
    assert Closed(Deps(cfg));
    ReachSetClosed(Deps(cfg), Elements(cfg.tops));
  }

  lemma InitInv(cfg: Config)
    requires ValidConfig(cfg)
    ensures Inv(Deps(cfg), Init(cfg), {})
    ensures Live(Deps(cfg), cfg.tops, Init(cfg)) && Clean(Deps(cfg), cfg.upToDate, Init(cfg), {})
    ensures Confined(Needed(cfg), Init(cfg))
  {
    var s := Init(cfg);
    DepsClosed(cfg);
    forall p | p in s.refCount ensures s.refCount[p] == |Waits(s.waiting, p)| {
      assert Waits(s.waiting, p) == {};
    }
    forall n | n in s.topLeft ensures n in Needed(cfg) {
      assert n in Elements(cfg.tops);
    }
  }

  lemma PopInv(g: Digraph, s: State)
    requires Inv(g, s, {}) && HasCandidate(s)
    ensures Inv(g, PopCandidate(s), {})
    ensures NextCandidate(s) in g && PopCandidate(s).currentTop.Some?
  {
  }

  lemma VisitInv(g: Digraph, s: State, n: Node, l: seq<Node>)
    requires Inv(g, s, {}) && n in g && !Handled(s, n)
    requires s.currentTop.Some? && forall c {:trigger c in l} | c in l :: c in g
    ensures Inv(g, Visit(s, n, l), {})
  {
  }

  lemma FailInv(g: Digraph, s: State, n: Node)
    requires Inv(g, s, {}) && n in g && s.status[n].Pending?
    ensures Inv(g, SetStatus(s, n, Failed), {})
  {
  }

  lemma AddWaiterSound(g: Digraph, status: map<Node, Status>, waiting: map<Node, set<Node>>, n: Node, kids: set<Node>)
    requires WaitersSound(g, status, waiting) && n in g && kids <= g[n] && n in status && status[n].Pending?
    ensures WaitersSound(g, status, AddWaiter(waiting, n, kids))
  {
  }

  lemma WaitInv(g: Digraph, s: State, n: Node)
    requires Inv(g, s, {}) && n in g && s.status[n].Pending? && g[n] <= g.Keys
    ensures Inv(g, WaitForKids(g, s, n), {})
  {
    AddWaiterSound(g, s.status, s.waiting, n, UnfinishedOf(g[n], s.status));
  }

  lemma AddWaiterExact(refCount: map<Node, int>, waiting: map<Node, set<Node>>, n: Node, kids: set<Node>)
    requires CountsExact(refCount, waiting) && kids <= waiting.Keys && n in refCount
    ensures CountsExact(refCount[n := refCount[n] + |kids - Waits(waiting, n)|], AddWaiter(waiting, n, kids))
  {
    var waiting' := AddWaiter(waiting, n, kids);
    var before := Waits(waiting, n);
    assert Waits(waiting', n) == before + (kids - before);
    assert before !! (kids - before);
    forall p | p in refCount && p != n ensures Waits(waiting', p) == Waits(waiting, p) {
    }
  }

  /** What the walk promises about a node it hands out. */
  ghost predicate ReadyNode(g: Digraph, s: State, n: Node) {
    && n in g && n in s.status
    && s.status[n].Pending?
    && (forall c {:trigger c in g[n]} | c in g[n] :: c in s.status && s.status[c].Succeeded())
  }

  ghost predicate CanTurn(cfg: Config, s: State) {
    && ValidConfig(cfg)
    && Over(Deps(cfg), s)
    && HasCandidate(s)
    && NextCandidate(s) in Deps(cfg)
  }

  /** One turn of the walk: a candidate is popped and looked at. */
  ghost function Turn(cfg: Config, s: State): (State, Verdict)
    requires CanTurn(cfg, s)
  {
    Consider(cfg, PopCandidate(s), NextCandidate(s))
  }

  lemma TurnInv(cfg: Config, s: State)
    requires ValidConfig(cfg) && Inv(Deps(cfg), s, {}) && HasCandidate(s)
    ensures CanTurn(cfg, s)
    ensures Inv(Deps(cfg), Turn(cfg, s).0, {})
    ensures Turn(cfg, s).1.Ready? ==> ReadyNode(Deps(cfg), Turn(cfg, s).0, NextCandidate(s))
  {
    PopInv(Deps(cfg), s);
    ConsiderInv(cfg, PopCandidate(s), NextCandidate(s));
  }

  lemma SettleInv(cfg: Config, s: State, n: Node)
    requires ValidConfig(cfg) && Inv(Deps(cfg), s, {}) && n in Deps(cfg) && s.status[n].Pending?
    ensures Inv(Deps(cfg), Settle(cfg, s, n), {})
  {
    DepsClosed(cfg);
    match Judge(Deps(cfg), s.status, n)
    case ChildFailed => FailInv(Deps(cfg), s, n);
    case NotReady => WaitInv(Deps(cfg), s, n);
    case _ =>
  }

  lemma JudgedReady(g: Digraph, s: State, n: Node)
    requires Over(g, s) && n in g && g[n] <= g.Keys && s.status[n].Pending? && Judge(g, s.status, n).Ready?
    ensures ReadyNode(g, s, n)
  {
    forall c | c in g[n] ensures c in s.status && s.status[c].Succeeded() {
      assert c in g;
      assert c !in FailedOf(g[n], s.status) && c !in UnfinishedOf(g[n], s.status);
    }
  }

  lemma ConsiderInv(cfg: Config, s: State, n: Node)
    requires ValidConfig(cfg) && Inv(Deps(cfg), s, {}) && n in Deps(cfg) && s.currentTop.Some?
    ensures Inv(Deps(cfg), Consider(cfg, s, n).0, {})
    ensures Consider(cfg, s, n).1.Ready? ==> ReadyNode(Deps(cfg), Consider(cfg, s, n).0, n)
  {
    DepsClosed(cfg);
    if !Handled(s, n) {
      var l := NewCandidates(cfg, n, s.status[n := Pending]);
      VisitInv(Deps(cfg), s, n, l);
      SettleInv(cfg, Visit(s, n, l), n);
      if Consider(cfg, s, n).1.Ready? {
        JudgedReady(Deps(cfg), Visit(s, n, l), n);
      }
    }
  }

  // ---------------------------------------------------------------- Until a stop

  /** Popping the top `x` of the stack only hurts the pairs whose lower part is `x`. */
  ghost predicate StackSoundBut(g: Digraph, status: map<Node, Status>, stack: seq<Node>, x: Node) {
    forall p, c {:trigger c in g[p]} |
      && p in g && p in status && status[p].Pending? && c in g[p] && c in status && status[c].NoState? && c != x ::
      Above(stack, c, p)
  }

  lemma PopStack(g: Digraph, s: State)
    requires HasCandidate(s) && StackSound(g, s.status, s.candidates)
    ensures StackSoundBut(g, s.status, PopCandidate(s).candidates, NextCandidate(s))
  {
    var x := NextCandidate(s);
    var rest := PopCandidate(s).candidates;
    forall p, c | p in g && p in s.status && s.status[p].Pending? && c in g[p] && c in s.status && s.status[c].NoState? && c != x
      ensures Above(rest, c, p)
    {
      var j :| 0 <= j < |s.candidates| && s.candidates[j] == c && p !in s.candidates[j..];
      assert rest[j] == c && forall i | j <= i < |rest| :: rest[i] == s.candidates[j..][i - j];
    }
  }

  /** A pending candidate has no unvisited child, so looking at it again adds no candidate. */
  lemma PendingHasNoUnvisited(g: Digraph, s: State)
    requires HasCandidate(s) && StackSound(g, s.status, s.candidates)
    requires NextCandidate(s) in g && NextCandidate(s) in s.status && s.status[NextCandidate(s)].Pending?
    ensures forall c | c in g[NextCandidate(s)] && c in s.status :: !s.status[c].NoState?
  {
  }

  lemma VisitStack(g: Digraph, status: map<Node, Status>, stack: seq<Node>, x: Node, l: seq<Node>)
    requires StackSoundBut(g, status, stack, x) && x in g && x in status
    requires status[x].NoState? || status[x].Pending?
    requires forall c {:trigger c in l} :: c in l <==> c in g[x] && c in status && status[c].NoState? && c != x
    ensures StackSound(g, status[x := Pending], stack + l)
  {
    var status' := status[x := Pending];
    forall p, c | p in g && p in status' && status'[p].Pending? && c in g[p] && c in status' && status'[c].NoState?
      ensures Above(stack + l, c, p)
    {
      if p == x {
        assert c in l;
        var i :| 0 <= i < |l| && l[i] == c;
        assert x !in l && (stack + l)[|stack| + i] == c && (stack + l)[|stack| + i..] == l[i..];
      } else {
        var j :| 0 <= j < |stack| && stack[j] == c && p !in stack[j..];
        assert p !in l && (stack + l)[j] == c && (stack + l)[j..] == stack[j..] + l;
      }
    }
  }

  lemma VisitWaits(g: Digraph, status: map<Node, Status>, waiting: map<Node, set<Node>>, n: Node)
    requires WaitersSound(g, status, waiting) && WaitsComplete(g, status, waiting)
    requires n in status && (status[n].NoState? || status[n].Pending?)
    ensures WaitsComplete(g, status[n := Pending], waiting)
  {
  }

  lemma AddWaiterComplete(g: Digraph, status: map<Node, Status>, waiting: map<Node, set<Node>>, n: Node)
    requires WaitsComplete(g, status, waiting) && n in g && g[n] <= waiting.Keys
    ensures WaitsComplete(g, status, AddWaiter(waiting, n, UnfinishedOf(g[n], status)))
  {
    var waiting' := AddWaiter(waiting, n, UnfinishedOf(g[n], status));
    forall p | p != n && WaitsForSome(waiting', p) ensures WaitsForSome(waiting, p) {
      var c :| c in waiting' && p in waiting'[c];
      assert c in waiting && p in waiting[c];
    }
  }

  lemma FailLive(g: Digraph, tops: seq<Node>, s: State, n: Node)
    requires Live(g, tops, s) && n in s.status
    ensures Live(g, tops, SetStatus(s, n, Failed))
  {
  }

  lemma SettleLive(cfg: Config, s: State, n: Node)
    requires ValidConfig(cfg) && Over(Deps(cfg), s) && n in Deps(cfg)
    requires Live(Deps(cfg), cfg.tops, s)
    ensures Live(Deps(cfg), cfg.tops, Settle(cfg, s, n))
  {
    DepsClosed(cfg);
    match Judge(Deps(cfg), s.status, n)
    case ChildFailed => FailLive(Deps(cfg), cfg.tops, s, n);
    case NotReady => AddWaiterComplete(Deps(cfg), s.status, s.waiting, n);
    case _ =>
  }

  lemma PopTops(tops: seq<Node>, s: State)
    requires TopsSeen(tops, s) && HasCandidate(s)
    ensures forall t | t in tops && t != NextCandidate(s) ::
              t in PopCandidate(s).topLeft || (t in s.status && !s.status[t].NoState?)
  {
    var rest := PopCandidate(s).topLeft;
    forall t | t in s.topLeft && t != NextCandidate(s) ensures t in rest {
      var i :| 0 <= i < |s.topLeft| && s.topLeft[i] == t;
      assert rest[i] == t;
    }
  }

  lemma TurnLive(cfg: Config, s: State)
    requires CanTurn(cfg, s) && WaitersSound(Deps(cfg), s.status, s.waiting) && Live(Deps(cfg), cfg.tops, s)
    ensures Live(Deps(cfg), cfg.tops, Turn(cfg, s).0)
  {
    var g, n, s1 := Deps(cfg), NextCandidate(s), PopCandidate(s);
    PopStack(g, s);
    PopTops(cfg.tops, s);
    if !Handled(s1, n) {
      var l := NewCandidates(cfg, n, s1.status[n := Pending]);
      VisitStack(g, s1.status, s1.candidates, n, l);
      VisitWaits(g, s1.status, s1.waiting, n);
      SettleLive(cfg, Visit(s1, n, l), n);
    }
  }

  // ---------------------------------------------------------------- Staying inside a closed set

  lemma TurnConfined(cfg: Config, r: set<Node>, s: State)
    requires CanTurn(cfg, s)
    requires Confined(r, s) && ClosedUnder(Deps(cfg), r)
    ensures Confined(r, Turn(cfg, s).0)
  {
    var n, s1 := NextCandidate(s), PopCandidate(s);
    assert n in r;
    if !Handled(s1, n) {
      var l := NewCandidates(cfg, n, s1.status[n := Pending]);
      assert Confined(r, Visit(s1, n, l));
    }
  }

  // ---------------------------------------------------------------- Termination of the walk

  ghost function Unseen(g: Digraph, status: map<Node, Status>): set<Node> {
    set n | n in g && n in status && status[n].NoState?
  }

  lemma SettleUnseen(cfg: Config, s: State, n: Node)
    requires Over(Deps(cfg), s) && n in Deps(cfg) && s.status[n].Pending?
    ensures Unseen(Deps(cfg), Settle(cfg, s, n).status) == Unseen(Deps(cfg), s.status)
    ensures Settle(cfg, s, n).candidates == s.candidates && Settle(cfg, s, n).topLeft == s.topLeft
  {
  }

  lemma VisitUnseen(g: Digraph, status: map<Node, Status>, n: Node)
    requires n in g && n in status && (status[n].NoState? || status[n].Pending?)
    ensures status[n].NoState? ==> Unseen(g, status[n := Pending]) < Unseen(g, status)
    ensures status[n].Pending? ==> status[n := Pending] == status
  {
    assert status[n].NoState? ==> n in Unseen(g, status);
  }

  /** Every turn visits a new node, or leaves fewer candidates and top targets. */
  ghost predicate Shrinks(g: Digraph, s: State, s': State) {
    || Unseen(g, s'.status) < Unseen(g, s.status)
    || (Unseen(g, s'.status) == Unseen(g, s.status)
        && |s'.candidates| + |s'.topLeft| < |s.candidates| + |s.topLeft|)
  }

  lemma TurnDecreases(cfg: Config, s: State)
    requires CanTurn(cfg, s) && StackSound(Deps(cfg), s.status, s.candidates)
    ensures Shrinks(Deps(cfg), s, Turn(cfg, s).0)
  {
    var g, n, s1 := Deps(cfg), NextCandidate(s), PopCandidate(s);
    if !Handled(s1, n) {
      var l := NewCandidates(cfg, n, s1.status[n := Pending]);
      SettleUnseen(cfg, Visit(s1, n, l), n);
      VisitUnseen(g, s1.status, n);
      if s.status[n].Pending? {
        PendingHasNoUnvisited(g, s);
        assert |l| > 0 ==> l[0] in l;
      }
    }
  }

  lemma WaitCounts(g: Digraph, s: State, n: Node, kids: set<Node>)
    requires CountsExact(s.refCount, s.waiting) && n in s.refCount && n in g
    requires kids == UnfinishedOf(g[n], s.status) && kids <= s.waiting.Keys
    ensures CountsExact(WaitForKids(g, s, n).refCount, WaitForKids(g, s, n).waiting)
  {
    AddWaiterExact(s.refCount, s.waiting, n, kids);
  }

  lemma UnfinishedKnown(cfg: Config, s: State, n: Node)
    requires ValidConfig(cfg) && Over(Deps(cfg), s) && n in Deps(cfg)
    ensures UnfinishedOf(Deps(cfg)[n], s.status) <= s.waiting.Keys
  {
    DepsClosed(cfg);
  }

  lemma SettleCounts(cfg: Config, s: State, n: Node)
    requires ValidConfig(cfg) && Over(Deps(cfg), s) && n in Deps(cfg) && CountsExact(s.refCount, s.waiting)
    ensures CountsExact(Settle(cfg, s, n).refCount, Settle(cfg, s, n).waiting)
  {
    match Judge(Deps(cfg), s.status, n)
    case NotReady =>
      UnfinishedKnown(cfg, s, n);
      WaitCounts(Deps(cfg), s, n, UnfinishedOf(Deps(cfg)[n], s.status));
    case ChildFailed => assert Settle(cfg, s, n).refCount == s.refCount && Settle(cfg, s, n).waiting == s.waiting;
    case _ => assert Settle(cfg, s, n) == s;
  }

  lemma TurnCounts(cfg: Config, s: State)
    requires CanTurn(cfg, s) && CountsExact(s.refCount, s.waiting)
    ensures CountsExact(Turn(cfg, s).0.refCount, Turn(cfg, s).0.waiting)
  {
    var n, s1 := NextCandidate(s), PopCandidate(s);
    if !Handled(s1, n) {
      SettleCounts(cfg, Visit(s1, n, NewCandidates(cfg, n, s1.status[n := Pending])), n);
    }
  }

  // ---------------------------------------------------------------- As long as nothing has failed

  /** In a failure-free state a visited node is either ready or waits for some child. */
  lemma CleanSettle(cfg: Config, s: State, n: Node)
    requires Over(Deps(cfg), s) && n in Deps(cfg) && s.status[n].Pending? && NoneFailed(s.status)
    ensures !Judge(Deps(cfg), s.status, n).ChildFailed?
    ensures NoneFailed(Settle(cfg, s, n).status) && Settle(cfg, s, n).status == s.status
  {
  }

  lemma AddWaiterForgotten(g: Digraph, s: State, n: Node)
    requires Over(g, s) && n in g && g[n] <= g.Keys
    requires NoneForgotten(s, {n}) && UnfinishedOf(g[n], s.status) != {}
    ensures NoneForgotten(WaitForKids(g, s, n), {})
  {
    var s' := WaitForKids(g, s, n);
    var c :| c in UnfinishedOf(g[n], s.status);
    assert c in s'.waiting && n in s'.waiting[c];
    forall p | p in s.status && WaitsForSome(s.waiting, p) ensures WaitsForSome(s'.waiting, p) {
      var d :| d in s.waiting && p in s.waiting[d];
      assert d in s'.waiting && p in s'.waiting[d];
    }
  }

  lemma VisitForgotten(s: State, n: Node, l: seq<Node>)
    requires HasCandidate(s) && NextCandidate(s) == n && NoneForgotten(s, {})
    ensures NoneForgotten(Visit(PopCandidate(s), n, l), {n})
    ensures Handled(s, n) ==> NoneForgotten(PopCandidate(s), {})
  {
    var rest := PopCandidate(s).candidates;
    forall p | p in s.candidates && p != n ensures p in rest {
      var i :| 0 <= i < |s.candidates| && s.candidates[i] == p;
      assert rest[i] == p;
    }
  }

  lemma TurnForgotten(cfg: Config, s: State)
    requires CanTurn(cfg, s)
    requires NoneFailed(s.status) && NoneForgotten(s, {})
    ensures NoneForgotten(Turn(cfg, s).0, if Turn(cfg, s).1.Ready? then {NextCandidate(s)} else {})
  {
    var g, n, s1 := Deps(cfg), NextCandidate(s), PopCandidate(s);
    DepsClosed(cfg);
    var l := if Handled(s1, n) then [] else NewCandidates(cfg, n, s1.status[n := Pending]);
    VisitForgotten(s, n, l);
    if !Handled(s1, n) {
      CleanSettle(cfg, Visit(s1, n, l), n);
      if Judge(g, Visit(s1, n, l).status, n).NotReady? {
        AddWaiterForgotten(g, Visit(s1, n, l), n);
      }
    }
  }

  lemma AddWaiterPendingChildren(g: Digraph, s: State, n: Node)
    requires Over(g, s) && n in g && g[n] <= g.Keys && PendingChildrenValid(s, {})
    ensures PendingChildrenValid(WaitForKids(g, s, n), {})
  {
    var s' := WaitForKids(g, s, n);
    forall t | t in PendingOf(g[n], s.status) ensures t in s'.waiting && n in s'.waiting[t] {
      assert t in UnfinishedOf(g[n], s.status) && t in g;
    }
  }

  lemma TurnPendingChildren(cfg: Config, s: State)
    requires CanTurn(cfg, s) && NoneFailed(s.status) && PendingChildrenValid(s, {})
    ensures PendingChildrenValid(Turn(cfg, s).0, {})
  {
    var n, s1 := NextCandidate(s), PopCandidate(s);
    DepsClosed(cfg);
    if !Handled(s1, n) {
      var visited := Visit(s1, n, NewCandidates(cfg, n, s1.status[n := Pending]));
      CleanSettle(cfg, visited, n);
      AddWaiterPendingChildren(Deps(cfg), visited, n);
    }
  }

  lemma TurnStatus(cfg: Config, s: State)
    requires CanTurn(cfg, s) && NoneFailed(s.status)
    ensures var n := NextCandidate(s);
            Turn(cfg, s).0.status == if Handled(s, n) then s.status else s.status[n := Pending]
  {
    var n, s1 := NextCandidate(s), PopCandidate(s);
    if !Handled(s1, n) {
      CleanSettle(cfg, Visit(s1, n, NewCandidates(cfg, n, s1.status[n := Pending])), n);
    }
  }

  /** The node that completes the walk of a knot finds a member of the knot pending. */
  lemma VisitDetects(g: Digraph, status: map<Node, Status>, k: set<Node>, n: Node)
    requires Knotted(g, k) && n in k && n in status && AllPending(k, status[n := Pending])
    ensures k * PendingOf(g[n], status[n := Pending]) != {}
    ensures UnfinishedOf(g[n], status[n := Pending]) != {}
  {
    var c :| c in g[n] * k;
    assert c in k * PendingOf(g[n], status[n := Pending]);
    assert c in UnfinishedOf(g[n], status[n := Pending]);
  }

  lemma SettleDetects(cfg: Config, status: map<Node, Status>, s: State, n: Node)
    requires Over(Deps(cfg), s) && n in Deps(cfg) && n in status && s.status == status[n := Pending] && NoneFailed(s.status)
    requires KnotsDetected(Deps(cfg), status, s.pendingChildren)
    ensures KnotsDetected(Deps(cfg), s.status, Settle(cfg, s, n).pendingChildren)
  {
    var g, pending := Deps(cfg), Settle(cfg, s, n).pendingChildren;
    CleanSettle(cfg, s, n);
    assert s.pendingChildren <= pending;
    forall k | Knotted(g, k) && k != {} && AllPending(k, s.status) ensures k * pending != {} {
      if n in k {
        VisitDetects(g, status, k, n);
        assert pending == s.pendingChildren + PendingOf(g[n], s.status);
      } else {
        assert AllPending(k, status);
      }
    }
  }

  lemma TurnDetects(cfg: Config, s: State)
    requires CanTurn(cfg, s) && NoneFailed(s.status)
    requires KnotsDetected(Deps(cfg), s.status, s.pendingChildren)
    ensures KnotsDetected(Deps(cfg), Turn(cfg, s).0.status, Turn(cfg, s).0.pendingChildren)
  {
    var n, s1 := NextCandidate(s), PopCandidate(s);
    if !Handled(s1, n) {
      var visited := Visit(s1, n, NewCandidates(cfg, n, s1.status[n := Pending]));
      CleanSettle(cfg, visited, n);
      SettleDetects(cfg, s.status, visited, n);
    }
  }

  lemma TurnKnots(cfg: Config, s: State)
    requires CanTurn(cfg, s) && NoneFailed(s.status)
    requires KnotsUntouched(Deps(cfg), s.status)
    ensures KnotsUntouched(Deps(cfg), Turn(cfg, s).0.status)
  {
    TurnStatus(cfg, s);
  }

  lemma TurnClean(cfg: Config, s: State)
    requires CanTurn(cfg, s) && Clean(Deps(cfg), cfg.upToDate, s, {})
    ensures Clean(Deps(cfg), cfg.upToDate, Turn(cfg, s).0, if Turn(cfg, s).1.Ready? then {NextCandidate(s)} else {})
  {
    TurnStatus(cfg, s);
    TurnForgotten(cfg, s);
    TurnPendingChildren(cfg, s);
    TurnDetects(cfg, s);
    TurnKnots(cfg, s);
  }
}
