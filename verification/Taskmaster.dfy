/** The Taskmaster: the engine that walks the dependency graph and hands out tasks. */
module Taskmasters {
  import opened Digraphs
  import opened Scheduling
  import opened TurnLemmas
  import opened TaskLemmas
  import opened Outcome
  import opened Walk
  import opened CycleSearch
  import opened TaskSteps
  import opened TaskLog
  import opened Wrappers

  class Taskmaster {
    const cfg: Config

    var candidates: seq<Node>
    var topTargetsLeft: seq<Node>
    var currentTop: Option<Node>
    var pendingChildren: set<Node>
    var stopped: bool
    // The fields that the engine keeps on node objects.
    var status: map<Node, Status>
    var refCount: map<Node, int>
    var waitingParents: map<Node, set<Node>>

    ghost function Snapshot(): State
      reads this
    {
      State(candidates, topTargetsLeft, currentTop, pendingChildren, status, refCount, waitingParents, stopped)
    }

    constructor (cfg: Config)
      requires ValidConfig(cfg)
      ensures this.cfg == cfg && Snapshot() == Init(cfg)
    {
      this.cfg := cfg;
      topTargetsLeft := Reverse(cfg.tops);
      candidates, currentTop, pendingChildren, stopped := [], None, {}, false;
      status := map n | n in cfg.children :: NoState;
      refCount := map n | n in cfg.children :: 0;
      waitingParents := map n | n in cfg.children :: {};
    }

    /** Gives up on `nodes` and on everything that waits for them. */
    method WillNotBuild(nodes: set<Node>, fail: bool)
      requires Over(Deps(cfg), Snapshot()) && ClosedUnder(waitingParents, Deps(cfg).Keys) && nodes <= Deps(cfg).Keys
      modifies `pendingChildren, `status, `refCount, `waitingParents
      ensures Snapshot() == Scheduling.WillNotBuild(old(Snapshot()), nodes, fail)
    {
      ghost var s := Snapshot();
      ReachSetWithin(s.waiting, nodes, Deps(cfg).Keys);
      ghost var log := GiveUp(nodes, fail, ReachSet(s.waiting, nodes));
      SweptClosure(s, fail, nodes, log);
    }

    /** The loop of `WillNotBuild`; `log` lists the visited nodes in the order of their visits. */
    method GiveUp(nodes: set<Node>, fail: bool, ghost gone: set<Node>) returns (ghost log: seq<Node>)
      requires nodes <= gone <= waitingParents.Keys && ClosedUnder(waitingParents, gone)
      requires gone <= status.Keys && gone <= refCount.Keys
      modifies `pendingChildren, `status, `refCount, `waitingParents
      ensures nodes <= Elements(log) <= gone && ClosedUnder(old(waitingParents), Elements(log))
      ensures Snapshot() == Swept(old(Snapshot()), fail, log).(pendingChildren := old(pendingChildren) - Elements(log))
    {
      ghost var s := Snapshot();
      var toVisit := nodes;
      var pending := pendingChildren - toVisit;
      log := [];
      while toVisit != {}
        invariant Visiting(s.waiting, gone, Elements(log), toVisit)
        invariant nodes <= Elements(log) + toVisit
        invariant Elements(log) <= s.waiting.Keys && Snapshot() == Swept(s, fail, log)
        invariant pending == s.pendingChildren - (Elements(log) + toVisit)
        decreases gone - Elements(log), toVisit
      {
        var node :| node in toVisit;
        VisitingStep(s, fail, gone, log, toVisit, node);
        SweptMore(s, fail, log, node);
        var parents := Flush(node, fail);
        toVisit := (toVisit - {node}) + parents;
        pending := pending - parents;
        log := log + [node];
      }
      pendingChildren := pending;
    }

    /** Visits one node: its parents are taken off it and their counts reduced. */
    method Flush(node: Node, fail: bool) returns (parents: set<Node>)
      requires node in waitingParents && waitingParents[node] <= refCount.Keys
      modifies `status, `refCount, `waitingParents
      ensures parents == old(waitingParents)[node]
      ensures Snapshot() == Flushing(old(Snapshot()), node, fail)
    {
      if fail {
        status := status[node := Failed];
      }
      parents := waitingParents[node];
      waitingParents := waitingParents[node := {}];
      refCount := DropOne(refCount, parents);
    }

    // -------------------------------------------------------------- The walk

    method FindNextCandidate() returns (node: Option<Node>)
      modifies `candidates, `topTargetsLeft, `currentTop
      ensures node.Some? <==> HasCandidate(old(Snapshot()))
      ensures node.Some? ==> node.value == NextCandidate(old(Snapshot())) && Snapshot() == PopCandidate(old(Snapshot()))
      ensures node.None? ==> Snapshot() == old(Snapshot())
    {
      if candidates != [] {
        node := Some(candidates[|candidates| - 1]);
        candidates := candidates[..|candidates| - 1];
      } else if topTargetsLeft != [] {
        node := Some(topTargetsLeft[|topTargetsLeft| - 1]);
        topTargetsLeft := topTargetsLeft[..|topTargetsLeft| - 1];
        currentTop := node;
      } else {
        node := None;
      }
    }

    /** After a stop: no candidate is handed out, and those left are cleaned up. */
    method NoNextCandidate()
      requires Over(Deps(cfg), Snapshot()) && ClosedUnder(waitingParents, Deps(cfg).Keys)
      requires Elements(candidates) <= Deps(cfg).Keys
      modifies `candidates, `pendingChildren, `status, `refCount, `waitingParents
      ensures Snapshot() == Abandon(old(Snapshot()))
    {
      ghost var s := Snapshot();
      AbandonNothing(s);
      while candidates != []
        invariant Snapshot() == s || (Snapshot() == Abandon(s) && candidates == [])
        decreases |candidates|
      {
        var left := candidates;
        candidates := [];
        WillNotBuild(Elements(left), false);
      }
    }

    /** Sorts the children of `node` by what is left to do about them. */
    method ScanChildren(node: Node)
      returns (notVisited: seq<Node>, pending: set<Node>, notReady: seq<Node>, failed: bool)
      requires ValidConfig(cfg) && node in Deps(cfg) && Deps(cfg).Keys <= status.Keys
      ensures notVisited == Unvisited(cfg.children[node], status)
      ensures pending == PendingOf(Deps(cfg)[node], status)
      ensures Elements(notReady) == UnfinishedOf(Deps(cfg)[node], status)
      ensures failed <==> FailedOf(Deps(cfg)[node], status) != {}
    {
      notVisited, pending, notReady, failed := [], {}, [], false;
      var kids := cfg.children[node];
      forall c | c in kids ensures c in status {
        assert c in Deps(cfg);
      }
      for i := 0 to |kids|
        invariant Scanned(kids[..i], status, notVisited, pending, notReady, failed)
      {
        var child := kids[i];
        assert kids[..i + 1][..i] == kids[..i];
        ScanStep(kids[..i], child, status);
        assert kids[..i + 1] == kids[..i] + [child];
        match status[child] {
          case NoState => notVisited := notVisited + [child];
          case Pending => pending := pending + {child};
          case Failed => failed := true;
          case _ =>
        }
        if status[child].Unfinished() {
          notReady := notReady + [child];
          ElementsMore(notReady[..|notReady| - 1], child);
        }
      }
      assert kids[..|kids|] == kids;
    }

    /** Returns 1 if `node` becomes a new waiting parent of `child`, and 0 if it was one already. */
    method AddToWaitingParents(child: Node, node: Node) returns (added: int)
      requires child in waitingParents
      modifies `waitingParents
      ensures added == if node in old(waitingParents)[child] then 0 else 1
      ensures waitingParents == old(waitingParents)[child := old(waitingParents)[child] + {node}]
    {
      if node in waitingParents[child] {
        assert waitingParents[child] + {node} == waitingParents[child];
        return 0;
      }
      waitingParents := waitingParents[child := waitingParents[child] + {node}];
      added := 1;
    }

    /** Registers `node` with the children it must wait for. */
    method WaitForChildren(node: Node, notReady: seq<Node>)
      requires Elements(notReady) <= waitingParents.Keys && node in refCount
      modifies `waitingParents, `refCount
      ensures waitingParents == AddWaiter(old(waitingParents), node, Elements(notReady))
      ensures refCount == old(refCount)[node := old(refCount)[node] + |Elements(notReady) - Waits(old(waitingParents), node)|]
    {
      var added := Register(node, notReady);
      RegisteredExactly(old(waitingParents), node, notReady);
      refCount := refCount[node := refCount[node] + added];
    }

    method Register(node: Node, notReady: seq<Node>) returns (count: int)
      requires Elements(notReady) <= waitingParents.Keys
      modifies `waitingParents
      ensures waitingParents == Registered(old(waitingParents), node, notReady)
      ensures count == AddedBy(old(waitingParents), node, notReady)
    {
      count := 0;
      for i := 0 to |notReady|
        invariant Elements(notReady[..i]) <= old(waitingParents).Keys
        invariant waitingParents == Registered(old(waitingParents), node, notReady[..i])
        invariant count == AddedBy(old(waitingParents), node, notReady[..i])
      {
        ElementsPrefix(notReady, i);
        assert notReady[..i + 1][..i] == notReady[..i];
        var added := AddToWaitingParents(notReady[i], node);
        count := count + added;
      }
      assert notReady[..|notReady|] == notReady;
    }

    /** Looks at one candidate. */
    method Examine(node: Node) returns (verdict: Verdict)
      requires ValidConfig(cfg) && Over(Deps(cfg), Snapshot()) && node in Deps(cfg)
      modifies `candidates, `pendingChildren, `status, `refCount, `waitingParents
      ensures (Snapshot(), verdict) == Consider(cfg, old(Snapshot()), node)
    {
      if status[node] == NoState {
        status := status[node := Pending];
      } else if status[node].Rank() > Pending.Rank() {
        return AlreadyHandled;
      }
      assert status == old(status)[node := Pending];
      var notVisited, pending, notReady, failed := ScanChildren(node);
      candidates := candidates + cfg.order(Reverse(notVisited));
      assert Snapshot() == Visit(old(Snapshot()), node, NewCandidates(cfg, node, status));
      verdict := Decide(node, pending, notReady, failed);
    }

    /** What is done with a visited node after the scan of its children. */
    method Decide(node: Node, pending: set<Node>, notReady: seq<Node>, failed: bool) returns (verdict: Verdict)
      requires ValidConfig(cfg) && Over(Deps(cfg), Snapshot()) && node in Deps(cfg) && status[node].Pending?
      requires pending == PendingOf(Deps(cfg)[node], status)
      requires Elements(notReady) == UnfinishedOf(Deps(cfg)[node], status)
      requires failed <==> FailedOf(Deps(cfg)[node], status) != {}
      modifies `pendingChildren, `status, `refCount, `waitingParents
      ensures Snapshot() == Settle(cfg, old(Snapshot()), node)
      ensures verdict == Judge(Deps(cfg), old(status), node)
    {
      if failed {
        if node in cfg.hasAction {
          status := status[node := Failed];
        }
        return ChildFailed;
      }
      if notReady != [] {
        assert notReady[0] in Elements(notReady);
        UnfinishedKnown(cfg, Snapshot(), node);
        WaitForChildren(node, notReady);
        pendingChildren := pendingChildren + pending;
        return NotReady;
      }
      verdict := Ready;
    }

    /** The main loop of the walk. */
    method FindNextReadyNode() returns (node: Option<Node>)
      requires Sound(cfg, Snapshot())
      modifies this
      ensures (Snapshot(), node) == FindNextReady(cfg, old(Snapshot()))
    {
      while true
        invariant Sound(cfg, Snapshot())
        invariant FindNextReady(cfg, Snapshot()) == FindNextReady(cfg, old(Snapshot()))
        decreases Unseen(Deps(cfg), status), |candidates| + |topTargetsLeft|
      {
        ghost var s := Snapshot();
        if stopped {
          CandidatesKnown(Deps(cfg), s);
          NoNextCandidate();
          return None;
        }
        var candidate := FindNextCandidate();
        if candidate.None? {
          return None;
        }
        TurnSound(cfg, s);
        TurnDecreases(cfg, s);
        var verdict := Examine(candidate.value);
        if verdict.Ready? {
          return candidate;
        }
      }
    }

    /** Hands out the next task; its node is made ready unless that step itself fails. */
    method NextTask(readyFails: set<Node>) returns (node: Option<Node>)
      requires Sound(cfg, Snapshot())
      modifies this
      ensures node == FindNextReady(cfg, old(Snapshot())).1
      ensures Snapshot() == MadeReady(cfg, FindNextReady(cfg, old(Snapshot())), readyFails)
    {
      node := FindNextReadyNode();
      if node.Some? && node.value !in readyFails {
        MakeReadyCurrent(node.value);
      }
    }

    // -------------------------------------------------------------- The task of a node

    method MakeReadyCurrent(node: Node)
      modifies `status
      ensures Snapshot() == MakeReady(cfg, old(Snapshot()), node)
    {
      var needsExecuting := node !in cfg.upToDate;
      if needsExecuting {
        status := status[node := Executing];
      } else {
        status := status[node := UpToDate];
      }
    }

    method Executed(node: Node)
      requires node in status
      modifies `status
      ensures Snapshot() == MarkExecuted(old(Snapshot()), node)
    {
      if status[node] == Executing {
        status := status[node := Status.Executed];
      }
    }

    method FailContinue(node: Node)
      requires Over(Deps(cfg), Snapshot()) && ClosedUnder(waitingParents, Deps(cfg).Keys) && node in Deps(cfg)
      modifies `pendingChildren, `status, `refCount, `waitingParents
      ensures Snapshot() == Scheduling.WillNotBuild(old(Snapshot()), {node}, true)
    {
      WillNotBuild({node}, true);
    }

    /** Fails the node, stops the walk, and leaves the current top target to be post-processed. */
    method FailStop(node: Node) returns (target: Node)
      requires Over(Deps(cfg), Snapshot()) && ClosedUnder(waitingParents, Deps(cfg).Keys) && node in Deps(cfg)
      requires currentTop.Some?
      modifies `pendingChildren, `status, `refCount, `waitingParents, `stopped
      ensures Snapshot() == FailAndStop(old(Snapshot()), node)
      ensures currentTop == Some(target)
    {
      WillNotBuild({node}, true);
      stopped := true;
      target := currentTop.value;
    }

    method Postprocess(target: Node)
      requires target in waitingParents && waitingParents[target] <= refCount.Keys
      modifies `candidates, `pendingChildren, `refCount, `waitingParents
      ensures old(candidates) <= candidates
      ensures Wakes(old(Snapshot()), target, candidates[|old(candidates)|..])
      ensures Snapshot() == Scheduling.Postprocess(old(Snapshot()), target, candidates[|old(candidates)|..])
    {
      var parents := waitingParents[target];
      if parents != {} {
        pendingChildren := pendingChildren - {target};
      }
      var woken := ReleaseParents(parents);
      candidates := candidates + woken;
      waitingParents := waitingParents[target := {}];
    }

    /** Takes one off each parent's count and lists those that wait for nothing else. */
    method ReleaseParents(parents: set<Node>) returns (woken: seq<Node>)
      requires parents <= refCount.Keys
      modifies `refCount
      ensures refCount == Release(old(refCount), parents)
      ensures Lists(woken, Woken(old(refCount), parents))
    {
      woken := [];
      var rest := parents;
      while rest != {}
        invariant rest <= parents
        invariant refCount == Release(old(refCount), parents - rest)
        invariant Lists(woken, Woken(old(refCount), parents - rest))
      {
        var p :| p in rest;
        ReleaseStep(old(refCount), parents - rest, p, woken);
        assert parents - (rest - {p}) == (parents - rest) + {p};
        rest := rest - {p};
        refCount := refCount[p := refCount[p] - 1];
        if refCount[p] == 0 {
          woken := woken + [p];
        }
      }
    }

    /** Reports dependency cycles among the pending children that are left over. */
    method Cleanup() returns (raised: bool, report: map<Node, seq<Node>>)
      requires ClosedUnder(waitingParents, Deps(cfg).Keys)
      requires Over(Deps(cfg), Snapshot()) && pendingChildren <= Deps(cfg).Keys
      ensures raised <==> CycleReported(Snapshot())
      ensures report.Keys == pendingChildren
      ensures forall n | n in report ::
                if OnCycle(waitingParents, n) then SimpleCycle(waitingParents, report[n], n) else report[n] == []
    {
      raised, report := false, map[];
      var rest := pendingChildren;
      while rest != {}
        invariant rest <= pendingChildren && report.Keys == pendingChildren - rest
        invariant raised <==> exists n :: n in report && (OnCycle(waitingParents, n) || status[n] != Status.Executed)
        invariant forall n | n in report ::
                    if OnCycle(waitingParents, n) then SimpleCycle(waitingParents, report[n], n) else report[n] == []
      {
        var n :| n in rest;
        rest := rest - {n};
        var found, cycle := CycleThrough(waitingParents, n, Deps(cfg).Keys);
        report := report[n := if found then cycle else []];
        raised := raised || found || status[n] != Status.Executed;
      }
    }
  }

  lemma WaitersKnown(g: Digraph, s: State, busy: set<Node>)
    requires Inv(g, s, busy)
    ensures ClosedUnder(s.waiting, g.Keys)
    ensures forall t {:trigger s.waiting[t]} | t in s.waiting :: s.waiting[t] <= s.refCount.Keys
  {
  }

  lemma CandidatesKnown(g: Digraph, s: State)
    requires Inv(g, s, {})
    ensures ClosedUnder(s.waiting, g.Keys) && Elements(s.candidates) <= g.Keys
  {
    WaitersKnown(g, s, {});
  }

  lemma ReleaseStep(refCount: map<Node, int>, done: set<Node>, p: Node, woken: seq<Node>)
    requires p in refCount && p !in done && Lists(woken, Woken(refCount, done))
    ensures Release(refCount, done + {p}) == Release(refCount, done)[p := refCount[p] - 1]
    ensures Lists(if refCount[p] == 1 then woken + [p] else woken, Woken(refCount, done + {p}))
  {
    ElementsMore(woken, p);
    assert p !in Elements(woken);
    assert Woken(refCount, done + {p}) == Woken(refCount, done) + if refCount[p] == 1 then {p} else {};
  }

  ghost function Registered(w: map<Node, set<Node>>, node: Node, kids: seq<Node>): (w': map<Node, set<Node>>)
    requires Elements(kids) <= w.Keys
    ensures w'.Keys == w.Keys
  {
    if kids == [] then w
    else
      LogStep(kids);
      var before := Registered(w, node, kids[..|kids| - 1]);
      before[kids[|kids| - 1] := before[kids[|kids| - 1]] + {node}]
  }

  ghost function AddedBy(w: map<Node, set<Node>>, node: Node, kids: seq<Node>): int
    requires Elements(kids) <= w.Keys
  {
    if kids == [] then 0
    else
      LogStep(kids);
      var before := kids[..|kids| - 1];
      AddedBy(w, node, before) + if node in Registered(w, node, before)[kids[|kids| - 1]] then 0 else 1
  }

  /** Registering one child after the other, repetitions included, in one formula. */
  lemma {:induction false} RegisteredExactly(w: map<Node, set<Node>>, node: Node, kids: seq<Node>)
    requires Elements(kids) <= w.Keys
    ensures Registered(w, node, kids) == AddWaiter(w, node, Elements(kids))
    ensures AddedBy(w, node, kids) == |Elements(kids) - Waits(w, node)|
  {
    if kids == [] {
      AddWaiterNone(w, node);
    } else {
      LogStep(kids);
      RegisteredExactly(w, node, kids[..|kids| - 1]);
      AddWaiterStep(w, node, Elements(kids[..|kids| - 1]), kids[|kids| - 1]);
    }
  }

  lemma ElementsPrefix(s: seq<Node>, i: nat)
    requires i < |s|
    ensures Elements(s[..i + 1]) == Elements(s[..i]) + {s[i]}
    ensures s[i] in Elements(s)
  {
    assert s[..i + 1] == s[..i] + [s[i]];
    ElementsMore(s[..i], s[i]);
  }

  lemma ElementsMore(s: seq<Node>, n: Node)
    ensures Elements(s + [n]) == Elements(s) + {n}
  {
  }

  lemma AbandonNothing(s: State)
    ensures s.candidates == [] ==> Abandon(s) == s
  {
    if s.candidates == [] {
      assert ReachSet(s.waiting, Elements(s.candidates)) == {};
      DeductNothing(s.refCount, s.waiting);
    }
  }

  lemma AddWaiterNone(w: map<Node, set<Node>>, node: Node)
    ensures AddWaiter(w, node, {}) == w && |{} - Waits(w, node)| == 0
  {
    assert {} - Waits(w, node) == {};
  }

  lemma AddWaiterStep(w: map<Node, set<Node>>, node: Node, done: set<Node>, child: Node)
    requires child in w
    ensures var before := AddWaiter(w, node, done);
            && AddWaiter(w, node, done + {child}) == before[child := before[child] + {node}]
            && |(done + {child}) - Waits(w, node)|
               == |done - Waits(w, node)| + if node in before[child] then 0 else 1
  {
    if node in AddWaiter(w, node, done)[child] {
      assert (done + {child}) - Waits(w, node) == done - Waits(w, node);
    } else {
      assert (done + {child}) - Waits(w, node) == (done - Waits(w, node)) + {child};
    }
  }

  /** The four results of a scan over `kids`. */
  ghost predicate Scanned(kids: seq<Node>, status: map<Node, Status>,
                          notVisited: seq<Node>, pending: set<Node>, notReady: seq<Node>, failed: bool)
  {
    && (forall c | c in kids :: c in status)
    && notVisited == Unvisited(kids, status)
    && pending == PendingOf(Elements(kids), status)
    && Elements(notReady) == UnfinishedOf(Elements(kids), status)
    && (failed <==> FailedOf(Elements(kids), status) != {})
  }

  lemma ScanStep(kids: seq<Node>, child: Node, status: map<Node, Status>)
    requires child in status && forall c | c in kids :: c in status
    ensures var more := kids + [child];
            && (forall c | c in more :: c in status)
            && Unvisited(more, status) == Unvisited(kids, status) + (if status[child].NoState? then [child] else [])
            && PendingOf(Elements(more), status) == PendingOf(Elements(kids), status) + (if status[child].Pending? then {child} else {})
            && UnfinishedOf(Elements(more), status)
               == UnfinishedOf(Elements(kids), status) + (if status[child].Unfinished() then {child} else {})
            && FailedOf(Elements(more), status) == FailedOf(Elements(kids), status) + (if status[child].Failed? then {child} else {})
  {
    assert (kids + [child])[..|kids|] == kids;
    ElementsMore(kids, child);
  }

  ghost function Flushing(s: State, node: Node, fail: bool): State
    requires node in s.waiting
  {
    s.(status := if fail then s.status[node := Failed] else s.status,
       waiting := s.waiting[node := {}],
       refCount := Release(s.refCount, s.waiting[node]))
  }

  // ---------------------------------------------------------------- The visits of `GiveUp`

  ghost function Swept(s: State, fail: bool, log: seq<Node>): (s': State)
    requires Elements(log) <= s.waiting.Keys
    ensures s'.waiting.Keys == s.waiting.Keys && s'.refCount.Keys == s.refCount.Keys
  {
    if log == [] then s
    else
      LogStep(log);
      Flushing(Swept(s, fail, log[..|log| - 1]), log[|log| - 1], fail)
  }

  lemma LogStep(log: seq<Node>)
    requires log != []
    ensures Elements(log) == Elements(log[..|log| - 1]) + {log[|log| - 1]}
  {
    forall n | n in log ensures n in Elements(log[..|log| - 1]) + {log[|log| - 1]} {
      var i :| 0 <= i < |log| && log[i] == n;
      assert i < |log| - 1 ==> log[..|log| - 1][i] == n;
    }
  }

  /** A sweep over the nodes of `log`, in one formula. */
  lemma {:induction false} SweptExactly(s: State, fail: bool, log: seq<Node>)
    requires Elements(log) <= s.waiting.Keys && Elements(log) <= s.status.Keys
    ensures Swept(s, fail, log) == GiveUpOn(s, Elements(log), fail).(pendingChildren := s.pendingChildren)
  {
    if log == [] {
      DeductNothing(s.refCount, s.waiting);
    } else {
      var before, node := log[..|log| - 1], log[|log| - 1];
      LogStep(log);
      SweptExactly(s, fail, before);
      DetachStep(s.waiting, s.status, Elements(before), node);
      DeductStep(s.refCount, s.waiting, Elements(before), node);
    }
  }

  lemma GivenUpOnce(s: State, gone: set<Node>, nodes: set<Node>, fail: bool)
    requires gone == ReachSet(s.waiting, nodes)
    ensures GiveUpOn(s, gone, fail) == Scheduling.WillNotBuild(s, nodes, fail)
  {
  }

  lemma SweptClosure(s: State, fail: bool, nodes: set<Node>, log: seq<Node>)
    requires Elements(log) <= s.waiting.Keys && Elements(log) <= s.status.Keys
    requires nodes <= Elements(log) <= ReachSet(s.waiting, nodes) && ClosedUnder(s.waiting, Elements(log))
    ensures Swept(s, fail, log).(pendingChildren := s.pendingChildren - Elements(log)) == Scheduling.WillNotBuild(s, nodes, fail)
  {
    var gone := Elements(log);
    assert gone == ReachSet(s.waiting, nodes) by {
      ReachSetLeast(s.waiting, nodes, gone);
    }
    SweptExactly(s, fail, log);
    GivenUpOnce(s, gone, nodes, fail);
  }

  lemma DetachStep(waiting: map<Node, set<Node>>, status: map<Node, Status>, done: set<Node>, node: Node)
    requires node in waiting && node in status
    ensures Detach(waiting, done)[node := {}] == Detach(waiting, done + {node})
    ensures FailAll(status, done)[node := Failed] == FailAll(status, done + {node})
  {
  }

  lemma SweptMore(s: State, fail: bool, log: seq<Node>, node: Node)
    requires Elements(log) <= s.waiting.Keys && node in s.waiting
    ensures Elements(log + [node]) <= s.waiting.Keys
    ensures Swept(s, fail, log + [node]) == Flushing(Swept(s, fail, log), node, fail)
  {
    LogStep(log + [node]);
    assert (log + [node])[..|log|] == log;
  }

  /** Visited nodes and nodes to visit stay inside `gone`, and no parent of a visited one is missed. */
  ghost predicate Visiting(waiting: map<Node, set<Node>>, gone: set<Node>, done: set<Node>, toVisit: set<Node>) {
    && done + toVisit <= gone
    && forall c {:trigger waiting[c]} | c in done && c in waiting :: waiting[c] <= done + toVisit
  }

  lemma VisitingStep(s: State, fail: bool, gone: set<Node>, log: seq<Node>, toVisit: set<Node>, node: Node)
    requires Elements(log) <= s.waiting.Keys && gone <= s.waiting.Keys && ClosedUnder(s.waiting, gone)
    requires Elements(log) <= s.status.Keys
    requires Visiting(s.waiting, gone, Elements(log), toVisit) && node in toVisit
    ensures node in s.waiting
    ensures var parents := Swept(s, fail, log).waiting[node];
            var toVisit' := (toVisit - {node}) + parents;
            && parents <= gone
            && Elements(log + [node]) + toVisit' == Elements(log) + toVisit + parents
            && Visiting(s.waiting, gone, Elements(log + [node]), toVisit')
            && (gone - Elements(log + [node]) < gone - Elements(log)
                || (gone - Elements(log + [node]) == gone - Elements(log) && toVisit' < toVisit))
  {
    SweptExactly(s, fail, log);
    LogStep(log + [node]);
    assert (log + [node])[..|log|] == log;
    VisitingMore(s.waiting, gone, Elements(log), toVisit, node);
  }

  lemma VisitingMore(waiting: map<Node, set<Node>>, gone: set<Node>, done: set<Node>, toVisit: set<Node>, node: Node)
    requires gone <= waiting.Keys && ClosedUnder(waiting, gone)
    requires Visiting(waiting, gone, done, toVisit) && node in toVisit
    ensures var parents := if node in done then {} else waiting[node];
            var toVisit' := (toVisit - {node}) + parents;
            && parents <= gone
            && done + {node} + toVisit' == done + toVisit + parents
            && Visiting(waiting, gone, done + {node}, toVisit')
            && (gone - (done + {node}) < gone - done
                || (gone - (done + {node}) == gone - done && toVisit' < toVisit))
  {
    assert node in gone && waiting[node] <= gone;
    assert node !in done ==> node in gone - done;
  }

  /** Takes one off the count of each of `parents`. */
  method DropOne(refCount: map<Node, int>, parents: set<Node>) returns (r: map<Node, int>)
    requires parents <= refCount.Keys
    ensures r == Release(refCount, parents)
  {
    r := refCount;
    var rest := parents;
    while rest != {}
      invariant rest <= parents
      invariant r == Release(refCount, parents - rest)
    {
      var p :| p in rest;
      rest := rest - {p};
      r := r[p := r[p] - 1];
    }
  }

  lemma DeductNothing(refCount: map<Node, int>, waiting: map<Node, set<Node>>)
    ensures Deduct(refCount, waiting, {}) == refCount
    ensures Detach(waiting, {}) == waiting
  {
    assert forall p {:trigger Waits(waiting, p)} :: Waits(waiting, p) * {} == {};
  }

  lemma CountStep(ws: set<Node>, done: set<Node>, node: Node)
    ensures |ws * (done + {node})| == |ws * done| + if node in ws && node !in done then 1 else 0
  {
    if node in ws && node !in done {
      assert ws * (done + {node}) == ws * done + {node};
    } else {
      assert ws * (done + {node}) == ws * done;
    }
  }

  lemma DeductOne(waiting: map<Node, set<Node>>, done: set<Node>, node: Node, p: Node)
    requires node in waiting
    ensures |Waits(waiting, p) * (done + {node})|
         == |Waits(waiting, p) * done| + if p in Detach(waiting, done)[node] then 1 else 0
  {
    CountStep(Waits(waiting, p), done, node);
    assert p in Detach(waiting, done)[node] <==> node !in done && node in Waits(waiting, p);
  }

  lemma DeductStep(refCount: map<Node, int>, waiting: map<Node, set<Node>>, done: set<Node>, node: Node)
    requires node in waiting
    ensures Release(Deduct(refCount, waiting, done), Detach(waiting, done)[node]) == Deduct(refCount, waiting, done + {node})
  {
    var released := Release(Deduct(refCount, waiting, done), Detach(waiting, done)[node]);
    forall p | p in refCount ensures released[p] == Deduct(refCount, waiting, done + {node})[p] {
      DeductOne(waiting, done, node, p);
    }
  }
}
