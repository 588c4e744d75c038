/**
  Builds in which tasks fail, whether they keep going or stop: when the report of dependency cycles at
  their end can be wrong, and what the one step that causes it leaves behind.
  */
module Stranding {
  import opened Digraphs
  import opened Scheduling
  import opened TurnLemmas
  import opened TaskLemmas
  import opened Outcome
  import opened Walk
  import opened TaskSteps
  import opened Runs

  /**
    The scan of a node finds a failed child, and the node has no action, so that it is left pending, or
    others wait for it already, who are not released.
    */
  ghost predicate Strands(cfg: Config, s: State, m: Move) {
    && m.Look? && Searching(cfg, s) && Turn(cfg, s).1.ChildFailed?
    && var n := NextCandidate(s);
       n !in cfg.hasAction || (n in s.waiting && s.waiting[n] != {})
  }

  ghost predicate StrandsAt(cfg: Config, states: seq<State>, moves: seq<Move>, j: nat) {
    j < |moves| && j < |states| && Strands(cfg, states[j], moves[j])
  }

  ghost predicate NoneWaitsForFailed(status: map<Node, Status>, waiting: map<Node, set<Node>>) {
    forall c {:trigger waiting[c]} | c in waiting && waiting[c] != {} :: c in status && !status[c].Failed?
  }

  /** What a build keeps as long as nobody is stranded, until it is stopped. */
  ghost predicate Tidy(s: State, busy: set<Node>) {
    && !s.stopped
    && NoneForgotten(s, busy)
    && PendingChildrenValid(s, busy)
    && NoneWaitsForFailed(s.status, s.waiting)
  }

  // ---------------------------------------------------------------- A turn of the walk

  lemma VisitTidy(s: State, n: Node, l: seq<Node>)
    requires HasCandidate(s) && NextCandidate(s) == n && n in s.status && s.status[n].Rank() <= Pending.Rank() && Tidy(s, {})
    ensures Tidy(Visit(PopCandidate(s), n, l), {n}) && PendingChildrenValid(Visit(PopCandidate(s), n, l), {})
  {
    VisitForgotten(s, n, l);
  }

  lemma FailedTidy(s: State, n: Node)
    requires Tidy(s, {n}) && PendingChildrenValid(s, {}) && n in s.status && n in s.waiting && s.waiting[n] == {}
    ensures Tidy(SetStatus(s, n, Failed), {})
  {
  }

  lemma WaitTidy(g: Digraph, s: State, n: Node)
    requires Over(g, s) && n in g && g[n] <= g.Keys && UnfinishedOf(g[n], s.status) != {}
    requires Tidy(s, {n}) && PendingChildrenValid(s, {})
    ensures Tidy(WaitForKids(g, s, n), {})
  {
    AddWaiterForgotten(g, s, n);
    AddWaiterPendingChildren(g, s, n);
  }

  lemma SettleTidy(cfg: Config, s: State, n: Node)
    requires ValidConfig(cfg) && Over(Deps(cfg), s) && n in Deps(cfg) && s.status[n].Pending?
    requires Tidy(s, {n}) && PendingChildrenValid(s, {})
    requires var verdict := Judge(Deps(cfg), s.status, n); verdict.ChildFailed? ==> n in cfg.hasAction && s.waiting[n] == {}
    ensures Tidy(Settle(cfg, s, n), if Judge(Deps(cfg), s.status, n).Ready? then {n} else {})
  {
    DepsClosed(cfg);
    match Judge(Deps(cfg), s.status, n)
    case ChildFailed => FailedTidy(s, n);
    case NotReady => WaitTidy(Deps(cfg), s, n);
    case _ =>
  }

  lemma PopTidy(s: State)
    requires HasCandidate(s) && Handled(s, NextCandidate(s)) && Tidy(s, {})
    ensures Tidy(PopCandidate(s), {})
  {
    VisitForgotten(s, NextCandidate(s), []);
  }

  lemma TurnTidy(cfg: Config, s: State)
    requires Searching(cfg, s) && Tidy(s, {}) && !Strands(cfg, s, Look)
    ensures Tidy(Turn(cfg, s).0, if Turn(cfg, s).1.Ready? then {NextCandidate(s)} else {})
  {
    var n, s1 := NextCandidate(s), PopCandidate(s);
    if Handled(s1, n) {
      PopTidy(s);
    } else {
      var visited := Visit(s1, n, NewCandidates(cfg, n, s1.status[n := Pending]));
      assert n in Deps(cfg);
      VisitTidy(s, n, NewCandidates(cfg, n, s1.status[n := Pending]));
      SettleTidy(cfg, visited, n);
    }
  }

  // ---------------------------------------------------------------- The end of a task

  lemma ReadyTidy(s: State, n: Node, st: Status)
    requires Tidy(s, {n}) && (st.UpToDate? || st.Executing?)
    ensures Tidy(SetStatus(s, n, st), {n})
  {
  }

  lemma WellTidy(g: Digraph, s: State, n: Node, woken: seq<Node>)
    requires Over(g, s) && WaitersSound(g, s.status, s.waiting) && CountsExact(s.refCount, s.waiting)
    requires Tidy(s, {n}) && n in s.status && s.status[n].Succeeded() && Wakes(s, n, woken)
    ensures Tidy(Postprocess(s, n, woken), {})
  {
    WokenWait(s, n, woken);
    PostForgotten(g, s, n, woken);
    PostPendingChildren(s, n, woken);
  }

  lemma ExecutedTidy(s: State, n: Node)
    requires Tidy(s, {n}) && n in s.status
    ensures Tidy(MarkExecuted(s, n), {n})
  {
  }

  /** Giving up on a closed set of waiting nodes strands nobody. */
  lemma GoneTidy(s: State, n: Node, gone: set<Node>)
    requires Tidy(s, {n}) && n in gone && gone <= s.status.Keys && ClosedUnder(s.waiting, gone)
    ensures Tidy(GiveUpOn(s, gone, true), {})
  {
    var s' := GiveUpOn(s, gone, true);
    forall p | p in s.status && p !in gone && WaitsForSome(s.waiting, p) ensures WaitsForSome(s'.waiting, p) {
      var c :| c in s.waiting && p in s.waiting[c];
      assert c !in gone;
      assert c in s'.waiting && p in s'.waiting[c];
    }
  }

  lemma BadlyTidy(g: Digraph, s: State, n: Node)
    requires Over(g, s) && Tidy(s, {n}) && WaitersSound(g, s.status, s.waiting) && n in s.status && n in s.waiting
    ensures Tidy(WillNotBuild(s, {n}, true), {})
    ensures WillNotBuild(s, {n}, true).waiting[n] == {}
  {
    assert Closed(s.waiting);
    ReachSetClosed(s.waiting, {n});
    GoneUnsuccessful(g, s, n);
    GoneTidy(s, n, ReachSet(s.waiting, {n}));
  }

  /** Nobody is waiting any more when a failed task is post-processed. */
  lemma FailedPostTidy(s: State, n: Node, woken: seq<Node>)
    requires Tidy(s, {}) && n in s.waiting && s.waiting[n] == {} && Wakes(s, n, woken)
    ensures Tidy(Postprocess(s, n, woken), {})
  {
    assert s.waiting[n := {}] == s.waiting;
    var s' := Postprocess(s, n, woken);
    assert s'.waiting == s.waiting && s'.pendingChildren == s.pendingChildren && s'.status == s.status;
  }

  lemma ConcludedTidy(cfg: Config, s: State, n: Node, ending: Ending, woken: seq<Node>)
    requires InHand(cfg, s, n) && CanEnd(s, n, ending, woken) && !ending.Fatally? && Tidy(s, {n})
    ensures Tidy(Concluded(s, n, ending, woken), {})
  {
    if ending.Well? {
      ExecutedTidy(s, n);
      WellTidy(Deps(cfg), MarkExecuted(s, n), n, woken);
    } else {
      BadlyTidy(Deps(cfg), s, n);
      FailedPostTidy(WillNotBuild(s, {n}, true), n, woken);
    }
  }

  // ---------------------------------------------------------------- Nobody is lost

  /** Whoever is waited for is being executed, is a candidate, waits itself, or is in hand. */
  ghost predicate NoneLost(s: State, busy: set<Node>) {
    forall c {:trigger s.waiting[c]} | c in s.waiting && s.waiting[c] != {} ::
      c in s.candidates || WaitsForSome(s.waiting, c) || c in busy || (c in s.status && s.status[c].Executing?)
  }

  ghost predicate PendingWaited(s: State) {
    forall t | t in s.pendingChildren :: t in s.waiting && s.waiting[t] != {}
  }

  lemma VisitLost(s: State, n: Node, l: seq<Node>)
    requires HasCandidate(s) && NextCandidate(s) == n && NoneLost(s, {})
    ensures NoneLost(Visit(PopCandidate(s), n, l), {n})
  {
    var rest := PopCandidate(s).candidates;
    forall p | p in s.candidates && p != n ensures p in rest + l {
      var i :| 0 <= i < |s.candidates| && s.candidates[i] == p;
      assert rest[i] == p;
    }
  }

  lemma PopLost(s: State)
    requires HasCandidate(s) && Handled(s, NextCandidate(s)) && NoneLost(s, {})
    requires NoneWaitsForFailed(s.status, s.waiting) && NoneWaitsForDone(s.status, s.waiting, {})
    ensures NoneLost(PopCandidate(s), {})
  {
    var n, rest := NextCandidate(s), PopCandidate(s).candidates;
    forall p | p in s.candidates && p != n ensures p in rest {
      var i :| 0 <= i < |s.candidates| && s.candidates[i] == p;
      assert rest[i] == p;
    }
  }

  lemma WaitsMore(g: Digraph, s: State, n: Node)
    requires Over(g, s) && n in g && g[n] <= g.Keys && UnfinishedOf(g[n], s.status) != {}
    ensures var waiting := WaitForKids(g, s, n).waiting;
      WaitsForSome(waiting, n) && forall p | WaitsForSome(s.waiting, p) :: WaitsForSome(waiting, p)
  {
    var waiting := WaitForKids(g, s, n).waiting;
    var k :| k in UnfinishedOf(g[n], s.status);
    assert k in waiting && n in waiting[k];
    forall p | WaitsForSome(s.waiting, p) ensures WaitsForSome(waiting, p) {
      var d :| d in s.waiting && p in s.waiting[d];
      assert d in waiting && p in waiting[d];
    }
  }

  /** An unfinished child is being executed, waits, or is a candidate. */
  lemma KidNotLost(g: Digraph, s: State, n: Node, c: Node)
    requires n in g && c in UnfinishedOf(g[n], s.status) && NoneForgotten(s, {n})
    requires s.status[c].NoState? ==> c in s.candidates
    ensures c in s.candidates || WaitsForSome(s.waiting, c) || c == n || s.status[c].Executing?
  {
  }

  lemma WaitLost(g: Digraph, s: State, n: Node)
    requires Over(g, s) && n in g && g[n] <= g.Keys && UnfinishedOf(g[n], s.status) != {}
    requires NoneLost(s, {n}) && NoneForgotten(s, {n})
    requires forall c {:trigger c in g[n]} | c in g[n] && s.status[c].NoState? :: c in s.candidates
    ensures NoneLost(WaitForKids(g, s, n), {})
  {
    var s' := WaitForKids(g, s, n);
    WaitsMore(g, s, n);
    forall c | c in s'.waiting && s'.waiting[c] != {}
      ensures c in s'.candidates || WaitsForSome(s'.waiting, c) || (c in s'.status && s'.status[c].Executing?)
    {
      if s.waiting[c] == {} {
        KidNotLost(g, s, n, c);
      }
    }
  }

  lemma SettleLost(cfg: Config, s: State, n: Node)
    requires ValidConfig(cfg) && Over(Deps(cfg), s) && n in Deps(cfg) && s.status[n].Pending?
    requires NoneLost(s, {n}) && NoneForgotten(s, {n})
    requires forall c {:trigger c in Deps(cfg)[n]} | c in Deps(cfg)[n] && c in s.status && s.status[c].NoState? :: c in s.candidates
    requires var verdict := Judge(Deps(cfg), s.status, n); verdict.ChildFailed? ==> n in cfg.hasAction && s.waiting[n] == {}
    ensures NoneLost(Settle(cfg, s, n), if Judge(Deps(cfg), s.status, n).Ready? then {n} else {})
  {
    DepsClosed(cfg);
    match Judge(Deps(cfg), s.status, n)
    case ChildFailed =>
    case NotReady => WaitLost(Deps(cfg), s, n);
    case _ =>
  }

  lemma TurnLost(cfg: Config, s: State)
    requires Searching(cfg, s) && Tidy(s, {}) && NoneLost(s, {}) && !Strands(cfg, s, Look)
    requires NoneWaitsForDone(s.status, s.waiting, {})
    ensures NoneLost(Turn(cfg, s).0, if Turn(cfg, s).1.Ready? then {NextCandidate(s)} else {})
  {
    var n, s1 := NextCandidate(s), PopCandidate(s);
    if Handled(s1, n) {
      PopLost(s);
    } else {
      var l := NewCandidates(cfg, n, s1.status[n := Pending]);
      VisitTidy(s, n, l);
      VisitLost(s, n, l);
      SettleLost(cfg, Visit(s1, n, l), n);
    }
  }

  ghost predicate WaitersCounted(s: State) {
    forall c, p {:trigger p in s.waiting[c]} | c in s.waiting && p in s.waiting[c] :: p in s.refCount
  }

  lemma PostLost(s: State, t: Node, woken: seq<Node>)
    requires NoneLost(s, {t}) && CountsExact(s.refCount, s.waiting) && Wakes(s, t, woken)
    requires WaitersCounted(s)
    ensures NoneLost(Postprocess(s, t, woken), {})
  {
    var s' := Postprocess(s, t, woken);
    WokenWait(s, t, woken);
    forall c | c in s.waiting && c != t && WaitsForSome(s.waiting, c)
      ensures c in s'.candidates || WaitsForSome(s'.waiting, c)
    {
      if d :| d in s.waiting && c in s.waiting[d] && d != t {
        assert d in s'.waiting && c in s'.waiting[d];
      } else {
        assert Waits(s.waiting, c) == {t};
        WokenWaitedForOne(s.refCount, s.waiting, t, c);
        assert c in woken;
      }
    }
  }

  /** Giving up on a closed set of waiting nodes loses nobody outside it. */
  lemma GoneLost(s: State, gone: set<Node>, fail: bool)
    requires NoneLost(s, gone) && ClosedUnder(s.waiting, gone)
    ensures NoneLost(GiveUpOn(s, gone, fail), {})
    ensures GiveUpOn(s, gone, fail).candidates == s.candidates
    ensures forall c | c in gone && c in s.waiting :: GiveUpOn(s, gone, fail).waiting[c] == {}
  {
    var s' := GiveUpOn(s, gone, fail);
    forall c | c in s.waiting && c !in gone && WaitsForSome(s.waiting, c) ensures WaitsForSome(s'.waiting, c) {
      var d :| d in s.waiting && c in s.waiting[d];
      assert d !in gone;
      assert d in s'.waiting && c in s'.waiting[d];
    }
  }

  lemma FailedLost(g: Digraph, s: State, n: Node)
    requires Over(g, s) && WaitersSound(g, s.status, s.waiting) && n in s.waiting && NoneLost(s, {n})
    ensures NoneLost(WillNotBuild(s, {n}, true), {})
  {
    assert Closed(s.waiting);
    ReachSetClosed(s.waiting, {n});
    GoneLost(s, ReachSet(s.waiting, {n}), true);
  }

  /** What a stopped build gives up on is exactly what keeps the others waiting. */
  lemma AbandonLost(g: Digraph, s: State)
    requires Over(g, s) && WaitersSound(g, s.status, s.waiting) && NoneLost(s, {})
    requires forall c | c in s.candidates :: c in s.waiting
    ensures NoneLost(Abandon(s), {})
  {
    assert Closed(s.waiting);
    var gone := ReachSet(s.waiting, Elements(s.candidates));
    ReachSetClosed(s.waiting, Elements(s.candidates));
    GoneLost(s, gone, false);
    forall c | c in s.candidates ensures c in gone {
      assert c in Elements(s.candidates);
    }
  }

  // ---------------------------------------------------------------- Whole runs

  /** What every run keeps as long as nobody is stranded, stopped or not. */
  ghost predicate Orderly(s: State) {
    NoneLost(s, {}) && PendingWaited(s) && (!s.stopped ==> Tidy(s, {}))
  }

  lemma TakenTidy(cfg: Config, s: State, broken: bool)
    requires Sound(cfg, s) && Searching(cfg, s) && Turn(cfg, s).1.Ready? && Tidy(s, {}) && NoneLost(s, {})
    ensures InHand(cfg, Taken(cfg, s, broken), NextCandidate(s))
    ensures Tidy(Taken(cfg, s, broken), {NextCandidate(s)}) && NoneLost(Taken(cfg, s, broken), {NextCandidate(s)})
  {
    TakenInHand(cfg, s, broken);
    TurnTidy(cfg, s);
    TurnLost(cfg, s);
    if !broken {
      ReadyTidy(Turn(cfg, s).0, NextCandidate(s), if NextCandidate(s) in cfg.upToDate then UpToDate else Executing);
    }
  }

  lemma ExecutingTidy(s: State, n: Node)
    requires n in s.status && s.status[n].Executing?
    ensures Tidy(s, {n}) <==> Tidy(s, {})
    ensures NoneLost(s, {n}) <==> NoneLost(s, {})
  {
  }

  lemma EndedWell(s: State, n: Node)
    requires NoneLost(s, {n}) && n in s.status
    ensures NoneLost(MarkExecuted(s, n), {n})
  {
  }

  lemma WellLost(s: State, n: Node, woken: seq<Node>)
    requires NoneLost(s, {n}) && n in s.status && CountsExact(s.refCount, s.waiting) && Wakes(MarkExecuted(s, n), n, woken)
    requires WaitersCounted(s)
    ensures NoneLost(Postprocess(MarkExecuted(s, n), n, woken), {})
  {
    EndedWell(s, n);
    PostLost(MarkExecuted(s, n), n, woken);
  }

  lemma BadLost(g: Digraph, s: State, n: Node, t: Node, stop: bool, woken: seq<Node>)
    requires Over(g, s) && WaitersSound(g, s.status, s.waiting) && n in s.waiting && NoneLost(s, {n})
    requires var s' := WillNotBuild(s, {n}, true);
      WaitersCounted(s') && CountsExact(s'.refCount, s'.waiting) && Wakes(s'.(stopped := stop), t, woken)
    requires WaitersCounted(s)
    ensures NoneLost(Postprocess(WillNotBuild(s, {n}, true).(stopped := stop), t, woken), {})
  {
    FailedLost(g, s, n);
    PostLost(WillNotBuild(s, {n}, true).(stopped := stop), t, woken);
  }

  lemma CountsKnown(cfg: Config, s: State, n: Node)
    requires InHand(cfg, s, n)
    ensures Over(Deps(cfg), s) && WaitersSound(Deps(cfg), s.status, s.waiting) && WaitersCounted(s) && n in s.waiting
    ensures CountsExact(s.refCount, s.waiting)
    ensures var s' := WillNotBuild(s, {n}, true); WaitersCounted(s') && CountsExact(s'.refCount, s'.waiting)
  {
    FailedSound(cfg, s, n);
  }

  lemma ConcludedLost(cfg: Config, s: State, n: Node, ending: Ending, woken: seq<Node>)
    requires InHand(cfg, s, n) && CanEnd(s, n, ending, woken) && NoneLost(s, {n})
    ensures NoneLost(Concluded(s, n, ending, woken), {})
  {
    CountsKnown(cfg, s, n);
    match ending
    case Well => WellLost(s, n, woken);
    case Badly => BadLost(Deps(cfg), s, n, n, s.stopped, woken);
    case Fatally => BadLost(Deps(cfg), s, n, Target(s, n, ending), true, woken);
  }

  lemma ConcludedWaited(s: State, n: Node, ending: Ending, woken: seq<Node>)
    requires CanEnd(s, n, ending, woken) && PendingWaited(s)
    ensures PendingWaited(Concluded(s, n, ending, woken))
  {
  }

  lemma ConcludedOrderly(cfg: Config, s: State, n: Node, ending: Ending, woken: seq<Node>)
    requires InHand(cfg, s, n) && CanEnd(s, n, ending, woken)
    requires NoneLost(s, {n}) && PendingWaited(s) && (!s.stopped ==> Tidy(s, {n}))
    ensures Orderly(Concluded(s, n, ending, woken))
  {
    ConcludedLost(cfg, s, n, ending, woken);
    ConcludedWaited(s, n, ending, woken);
    if !s.stopped && !ending.Fatally? {
      ConcludedTidy(cfg, s, n, ending, woken);
    }
  }

  lemma StepOrderly(cfg: Config, s: State, m: Move, s': State)
    requires Sound(cfg, s) && Step(cfg, s, m, s') && Orderly(s) && !Strands(cfg, s, m)
    ensures Orderly(s')
  {
    match m
    case Look =>
      TurnTidy(cfg, s);
      TurnLost(cfg, s);
    case Issue =>
      TakenTidy(cfg, s, false);
      ExecutingTidy(s', NextCandidate(s));
    case Dispose(broken, ending, woken) =>
      TakenTidy(cfg, s, broken);
      ConcludedOrderly(cfg, Taken(cfg, s, broken), NextCandidate(s), ending, woken);
    case Finish(n, ending, woken) =>
      ExecutingInHand(cfg, s, n);
      ExecutingTidy(s, n);
      ConcludedOrderly(cfg, s, n, ending, woken);
    case GiveUp => AbandonLost(Deps(cfg), s);
  }

  lemma RunMove(cfg: Config, states: seq<State>, moves: seq<Move>, i: nat)
    requires IsRun(cfg, states, moves) && i < |moves|
    ensures Sound(cfg, states[i]) && Step(cfg, states[i], moves[i], states[i + 1])
  {
    EveryStateSound(cfg, states, moves, i);
    MoveOf(cfg, states, moves, i);
  }

  lemma InitOrderly(cfg: Config)
    ensures Orderly(Init(cfg))
  {
  }

  lemma {:induction false} EveryStateOrderly(cfg: Config, states: seq<State>, moves: seq<Move>, i: nat)
    requires IsRun(cfg, states, moves) && i < |states|
    requires forall j: nat :: !StrandsAt(cfg, states, moves, j)
    ensures Orderly(states[i])
  {
    if i == 0 {
      InitOrderly(cfg);
    } else {
      EveryStateOrderly(cfg, states, moves, i - 1);
      RunMove(cfg, states, moves, i - 1);
      assert !StrandsAt(cfg, states, moves, i - 1);
      StepOrderly(cfg, states[i - 1], moves[i - 1], states[i]);
    }
  }

  // ---------------------------------------------------------------- The report at the end

  /** No candidate is left and nothing is being executed; a stopped build may have top targets left. */
  ghost predicate Idle(s: State) {
    s.candidates == [] && forall n {:trigger s.status[n]} | n in s.status :: !s.status[n].Executing?
  }

  ghost function WaitedFor(waiting: map<Node, set<Node>>): set<Node> {
    set c | c in waiting && waiting[c] != {}
  }

  lemma WaitedKnot(g: Digraph, s: State)
    requires Over(g, s) && WaitersSound(g, s.status, s.waiting) && Idle(s) && NoneLost(s, {})
    ensures Knotted(g, WaitedFor(s.waiting))
    ensures forall c | c in WaitedFor(s.waiting) :: c in s.status && !s.status[c].NoState?
  {
    var k := WaitedFor(s.waiting);
    forall c | c in k ensures c in g && g[c] * k != {} && c in s.status && !s.status[c].NoState? {
      assert WaitsForSome(s.waiting, c);
      var d :| d in s.waiting && c in s.waiting[d];
      assert d in g[c] * k;
    }
  }

  /**
    With nobody stranded, the report at the end of a build, stopped or not, is given exactly if pending
    children are left, and each of them leads to a genuine cycle among the nodes needed.
    */
  lemma ReportIsTrue(cfg: Config, s: State)
    requires Sound(cfg, s) && Idle(s) && Orderly(s)
    ensures CycleReported(s) <==> s.pendingChildren != {}
    ensures forall t | t in s.pendingChildren :: t in Needed(cfg) && ReachesCycle(Deps(cfg), t)
    ensures CycleReported(s) ==> CycleNeeded(cfg)
  {
    var k := WaitedFor(s.waiting);
    WaitedKnot(Deps(cfg), s);
    forall t | t in s.pendingChildren
      ensures t in Needed(cfg) && ReachesCycle(Deps(cfg), t) && CycleNeeded(cfg) && t in s.status && !s.status[t].Executed?
    {
      assert t in k;
      var m := KnotHasCycle(Deps(cfg), k, t);
      assert m in Needed(cfg);
    }
    if t :| t in s.pendingChildren {
      assert CycleReported(s);
    }
  }

  /**
    The report is wrong only if somebody was stranded on the way, whatever failed and whether or not the
    build was stopped: if it is given although the top targets depend on no cycle, then at some point a
    node was found to have a failed child while others waited for it, or while it had no action.
    */
  lemma FalseReportStrands(cfg: Config, states: seq<State>, moves: seq<Move>)
    requires IsRun(cfg, states, moves)
    requires Idle(states[|moves|]) && CycleReported(states[|moves|]) && !CycleNeeded(cfg)
    ensures exists j: nat :: StrandsAt(cfg, states, moves, j)
  {
    if forall j: nat :: !StrandsAt(cfg, states, moves, j) {
      EveryStateOrderly(cfg, states, moves, |moves|);
      EveryStateSound(cfg, states, moves, |moves|);
      ReportIsTrue(cfg, states[|moves|]);
    }
  }

  /** With nobody stranded, a pending node of a build that was not stopped is there because of a cycle. */
  lemma PendingMeansCycle(cfg: Config, s: State, p: Node)
    requires Sound(cfg, s) && Idle(s) && Orderly(s) && !s.stopped && p in PendingNodes(s)
    ensures CycleNeeded(cfg)
  {
    var k := WaitedFor(s.waiting);
    WaitedKnot(Deps(cfg), s);
    assert WaitsForSome(s.waiting, p);
    var c :| c in s.waiting && p in s.waiting[c];
    assert c in k;
    var m := KnotHasCycle(Deps(cfg), k, c);
    assert m in Needed(cfg);
  }

  /**
    With nobody stranded and no needed cycle, a build that is not stopped gets to every top target, builds
    it or fails it, leaves no node pending, and reports nothing.
    */
  lemma KeepGoingRunEnds(cfg: Config, states: seq<State>, moves: seq<Move>)
    requires IsRun(cfg, states, moves)
    requires forall j: nat :: !StrandsAt(cfg, states, moves, j)
    requires Drained(states[|moves|]) && !states[|moves|].stopped && !CycleNeeded(cfg)
    ensures PendingNodes(states[|moves|]) == {} && !CycleReported(states[|moves|])
    ensures var status := states[|moves|].status;
      forall t | t in cfg.tops :: t in status && (status[t].Succeeded() || status[t].Failed?)
  {
    var s := states[|moves|];
    EveryStateOrderly(cfg, states, moves, |moves|);
    EveryStateSound(cfg, states, moves, |moves|);
    ReportIsTrue(cfg, s);
    if p :| p in PendingNodes(s) {
      PendingMeansCycle(cfg, s, p);
    }
    forall t | t in cfg.tops ensures t in s.status && (s.status[t].Succeeded() || s.status[t].Failed?) {
      assert t in s.status && !s.status[t].NoState?;
      assert t !in PendingNodes(s);
    }
  }

  // ---------------------------------------------------------------- What a stranding leaves behind

  /** The failed child that the scan has found. */
  lemma FailedChild(cfg: Config, s: State) returns (c: Node)
    requires Searching(cfg, s) && Turn(cfg, s).1.ChildFailed?
    ensures c in Deps(cfg)[NextCandidate(s)] && c in s.status && s.status[c].Failed?
  {
    var n, s1 := NextCandidate(s), PopCandidate(s);
    var visited := Visit(s1, n, NewCandidates(cfg, n, s1.status[n := Pending]));
    c :| c in FailedOf(Deps(cfg)[n], visited.status);
  }

  /** From the stranding of a node on, nothing that depends on the node is ever built. */
  lemma StrandedNeverBuilt(cfg: Config, states: seq<State>, moves: seq<Move>, j: nat, k: nat, w: Node)
    requires IsRun(cfg, states, moves) && j < |moves| && j <= k < |states| && StrandsAt(cfg, states, moves, j)
    requires Reaches(Deps(cfg), w, NextCandidate(states[j]))
    ensures w in states[k].status ==> !states[k].status[w].Begun()
  {
    var n := NextCandidate(states[j]);
    DepsClosed(cfg);
    var c := FailedChild(cfg, states[j]);
    assert c in Deps(cfg);
    ReachesStep(Deps(cfg), w, n, c);
    NeverBack(cfg, states, moves, j, k);
    assert states[j].status[c].Rank() <= states[k].status[c].Rank();
    if w in states[k].status && states[k].status[w].Begun() && w != c {
      BuildOrderSafety(cfg, states, moves, k, w, c);
    }
  }

  /** Who waits for a stranded node is never built: it stays pending for ever, unless it is failed. */
  lemma WaiterNeverBuilt(cfg: Config, states: seq<State>, moves: seq<Move>, j: nat, k: nat, w: Node)
    requires IsRun(cfg, states, moves) && j < |moves| && j <= k < |states| && StrandsAt(cfg, states, moves, j)
    requires var n := NextCandidate(states[j]); n in states[j].waiting && w in states[j].waiting[n]
    ensures w in states[k].status && (states[k].status[w].Pending? || states[k].status[w].Failed?)
  {
    var n := NextCandidate(states[j]);
    EveryStateSound(cfg, states, moves, j);
    WaiterDepends(Deps(cfg), states[j], n, w);
    StrandedNeverBuilt(cfg, states, moves, j, k, w);
    NeverBack(cfg, states, moves, j, k);
    assert states[j].status[w].Rank() <= states[k].status[w].Rank();
  }

  lemma WaiterDepends(g: Digraph, s: State, n: Node, w: Node)
    requires Inv(g, s, {}) && n in g && n in s.waiting && w in s.waiting[n]
    ensures Reaches(g, w, n) && w in s.status && (s.status[w].Pending? || s.status[w].Failed?)
  {
    ReachesRefl(g, w);
    ReachesStep(g, w, w, n);
  }

  /** A stranded node without an action is never built either. */
  lemma InertNeverBuilt(cfg: Config, states: seq<State>, moves: seq<Move>, j: nat, k: nat)
    requires IsRun(cfg, states, moves) && j < |moves| && j < k < |states| && StrandsAt(cfg, states, moves, j)
    ensures var n := NextCandidate(states[j]);
      n in states[k].status && (states[k].status[n].Pending? || states[k].status[n].Failed?)
  {
    var n := NextCandidate(states[j]);
    ReachesRefl(Deps(cfg), n);
    StrandedNeverBuilt(cfg, states, moves, j, k, n);
    assert StepAt(cfg, states, moves, j);
    LeftPendingOrFailed(cfg, states[j]);
    NeverBack(cfg, states, moves, j + 1, k);
    assert states[j + 1].status[n].Rank() <= states[k].status[n].Rank();
  }

  lemma LeftPendingOrFailed(cfg: Config, s: State)
    requires Searching(cfg, s) && Turn(cfg, s).1.ChildFailed?
    ensures var n := NextCandidate(s);
      n in Turn(cfg, s).0.status && (Turn(cfg, s).0.status[n].Pending? || Turn(cfg, s).0.status[n].Failed?)
  {
    var n, s1 := NextCandidate(s), PopCandidate(s);
    SettleStatus(cfg, Visit(s1, n, NewCandidates(cfg, n, s1.status[n := Pending])), n);
  }
}
