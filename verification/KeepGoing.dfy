/** An example of a build that keeps going after a failure and reports a cycle where there is none. */
module KeepGoing {
  import opened Digraphs
  import opened Scheduling
  import opened TurnLemmas
  import opened TaskLemmas
  import opened Outcome
  import opened Walk
  import opened TaskSteps
  import opened Runs
  import opened Stranding
  import opened Wrappers

  // ---------------------------------------------------------------- Turns and failures in general

  lemma JudgeWaits(g: Digraph, status: map<Node, Status>, n: Node, c: Node)
    requires n in g && g[n] == {c} && n in status && status[n].Pending? && c in status && status[c].Rank() <= Pending.Rank()
    ensures Judge(g, status, n).NotReady?
    ensures PendingOf(g[n], status) == if status[c].Pending? then {c} else {}
    ensures UnfinishedOf(g[n], status) == {c}
  {
    assert FailedOf({c}, status) == {};
    assert c in UnfinishedOf({c}, status);
  }

  /** The state after a turn in which `n` was made to wait for its only child `c`. */
  ghost function Waited(s: State, n: Node, c: Node, l: seq<Node>): State
    requires HasCandidate(s) && n in s.refCount && c in s.status
  {
    var s1 := PopCandidate(s);
    s1.(candidates := s1.candidates + l, status := s.status[n := Pending],
        refCount := s.refCount[n := s.refCount[n] + 1], waiting := AddWaiter(s.waiting, n, {c}),
        pendingChildren := s.pendingChildren + if s.status[c].Pending? then {c} else {})
  }

  lemma SettleWaits(cfg: Config, s: State, n: Node, c: Node)
    requires Over(Deps(cfg), s) && n in Deps(cfg) && Deps(cfg)[n] == {c}
    requires n in s.status && s.status[n].Pending? && c in s.status && s.status[c].Rank() <= Pending.Rank()
    requires Waits(s.waiting, n) == {}
    ensures Settle(cfg, s, n) == s.(
      refCount := s.refCount[n := s.refCount[n] + 1], waiting := AddWaiter(s.waiting, n, {c}),
      pendingChildren := s.pendingChildren + if s.status[c].Pending? then {c} else {})
  {
    JudgeWaits(Deps(cfg), s.status, n, c);
    assert {c} - Waits(s.waiting, n) == {c};
  }

  /** A turn that ends with the node waiting for its only child `c`, which may have become a candidate. */
  lemma TurnWaits(cfg: Config, s: State, n: Node, c: Node, l: seq<Node>)
    requires CanTurn(cfg, s) && !s.stopped && NextCandidate(s) == n && Deps(cfg)[n] == {c} && c in s.status && c != n
    requires n in s.status && s.status[n].NoState? && s.status[c].Rank() <= Pending.Rank()
    requires NewCandidates(cfg, n, s.status[n := Pending]) == l
    requires Waits(s.waiting, n) == {}
    ensures Turn(cfg, s) == (Waited(s, n, c, l), NotReady)
  {
    var visited := Visit(PopCandidate(s), n, l);
    JudgeWaits(Deps(cfg), visited.status, n, c);
    SettleWaits(cfg, visited, n, c);
  }

  /** A turn that fails a node because its only child `c` has failed. */
  lemma TurnFails(cfg: Config, s: State, n: Node, c: Node)
    requires CanTurn(cfg, s) && !s.stopped && NextCandidate(s) == n && Deps(cfg)[n] == {c} && c in s.status && c != n
    requires n in s.status && s.status[n].NoState? && s.status[c].Failed? && n in cfg.hasAction
    requires NewCandidates(cfg, n, s.status[n := Pending]) == []
    ensures Turn(cfg, s) == (PopCandidate(s).(status := s.status[n := Failed]), ChildFailed)
  {
    var status := s.status[n := Pending];
    assert c in FailedOf({c}, status);
    assert status[n := Failed] == s.status[n := Failed];
    assert PopCandidate(s).candidates + [] == PopCandidate(s).candidates;
  }

  /** A turn that finds a node without children ready. */
  lemma TurnReady(cfg: Config, s: State, n: Node)
    requires CanTurn(cfg, s) && NextCandidate(s) == n && Deps(cfg)[n] == {} && n in s.status && s.status[n].NoState?
    requires NewCandidates(cfg, n, s.status[n := Pending]) == []
    ensures Turn(cfg, s) == (PopCandidate(s).(status := s.status[n := Pending]), Verdict.Ready)
  {
    var status := s.status[n := Pending];
    assert FailedOf({}, status) == {} && UnfinishedOf({}, status) == {};
    assert PopCandidate(s).candidates + [] == PopCandidate(s).candidates;
  }

  lemma NothingDetached(waiting: map<Node, set<Node>>, refCount: map<Node, int>, n: Node)
    requires n in waiting && waiting[n] == {}
    ensures Detach(waiting, {n}) == waiting && Deduct(refCount, waiting, {n}) == refCount
    ensures ReachSet(waiting, {n}) == {n}
  {
    forall p ensures Waits(waiting, p) * {n} == {} {
    }
    ReachesRefl(waiting, n);
    assert ClosedUnder(waiting, {n});
    ReachSetLeast(waiting, {n}, {n});
  }

  lemma GivenUpAlone(s: State, n: Node)
    requires n in s.status && n in s.waiting && s.waiting[n] == {} && s.pendingChildren == {}
    ensures WillNotBuild(s, {n}, true) == s.(status := s.status[n := Failed])
  {
    NothingDetached(s.waiting, s.refCount, n);
    assert FailAll(s.status, {n}) == s.status[n := Failed];
  }

  lemma PostprocessedAlone(s: State, n: Node)
    requires n in s.waiting && s.waiting[n] == {}
    ensures Wakes(s, n, []) && Postprocess(s, n, []) == s
  {
    assert Woken(s.refCount, {}) == {} && Elements([]) == {};
    assert Release(s.refCount, {}) == s.refCount;
    assert s.waiting[n := {}] == s.waiting;
    assert s.candidates + [] == s.candidates;
  }

  /** The failure of a node that nobody waits for. */
  lemma FailsAlone(s: State, n: Node)
    requires n in s.status && n in s.waiting && s.waiting[n] == {} && s.pendingChildren == {}
    ensures CanEnd(s, n, Badly, []) && Concluded(s, n, Badly, []) == s.(status := s.status[n := Failed])
  {
    GivenUpAlone(s, n);
    PostprocessedAlone(s.(status := s.status[n := Failed]), n);
  }

  lemma DisposeFrom(cfg: Config, s: State, n: Node, turned: State, ready: State, s': State)
    requires Searching(cfg, s) && NextCandidate(s) == n && Turn(cfg, s) == (turned, Verdict.Ready)
    requires ready == MakeReady(cfg, turned, n) && CanEnd(ready, n, Badly, []) && s' == Concluded(ready, n, Badly, [])
    ensures Step(cfg, s, Dispose(false, Badly, []), s')
  {
  }

  lemma ReadyFails(cfg: Config, turned: State, ready: State, s': State, n: Node)
    requires ready == MakeReady(cfg, turned, n) && s' == turned.(status := turned.status[n := Failed])
    requires n in turned.status && n in turned.waiting && turned.waiting[n] == {} && turned.pendingChildren == {}
    ensures CanEnd(ready, n, Badly, []) && s' == Concluded(ready, n, Badly, [])
  {
    FailsAlone(ready, n);
    assert ready.status[n := Failed] == turned.status[n := Failed];
  }

  /** A node without children is tried and fails. */
  lemma DisposeFailing(cfg: Config, s: State, n: Node)
    requires Searching(cfg, s) && NextCandidate(s) == n && Deps(cfg)[n] == {} && n in s.status && s.status[n].NoState?
    requires NewCandidates(cfg, n, s.status[n := Pending]) == [] && n !in cfg.upToDate
    requires n in s.waiting && s.waiting[n] == {} && s.pendingChildren == {}
    ensures Step(cfg, s, Dispose(false, Badly, []), PopCandidate(s).(status := s.status[n := Failed]))
  {
    var s' := PopCandidate(s).(status := s.status[n := Failed]);
    var turned := PopCandidate(s).(status := s.status[n := Pending]);
    var ready := MakeReady(cfg, turned, n);
    TurnReady(cfg, s, n);
    ReadyFails(cfg, turned, ready, s', n);
    DisposeFrom(cfg, s, n, turned, ready, s');
  }

  // ---------------------------------------------------------------- One such build

  /** Node 0 needs 1, which needs 2; node 3 needs 0. The top targets are 2, 0 and 3, and 2 will fail. */
  ghost predicate IsChain(cfg: Config) {
    && ValidConfig(cfg)
    && Deps(cfg) == map[0 := {1}, 1 := {2}, 2 := {}, 3 := {0}]
    && cfg.children.Keys == {0, 1, 2, 3}
    && cfg.children[0] == [1] && cfg.children[1] == [2] && cfg.children[2] == [] && cfg.children[3] == [0]
    && cfg.hasAction == {0, 1, 2, 3} && cfg.upToDate == {}
    && Reverse(cfg.tops) == [3, 0, 2]
    && forall l: seq<Node> {:trigger cfg.order(l)} :: cfg.order(l) == l
  }

  /** How far a node is from the end of the chain. */
  function Level(n: Node): nat {
    match n
    case 0 => 2
    case 1 => 1
    case 2 => 0
    case _ => 3
  }

  lemma {:induction false} WalkDown(g: Digraph, w: seq<Node>)
    requires g == map[0 := {1}, 1 := {2}, 2 := {}, 3 := {0}] && IsWalk(g, w) && |w| > 1
    ensures Level(w[|w| - 1]) < Level(w[0])
  {
    var v := w[..|w| - 1];
    assert w[|w| - 1] in g[w[|w| - 2]];
    if |v| > 1 {
      WalkDown(g, v);
    }
  }

  lemma ChainAcyclic(cfg: Config)
    requires IsChain(cfg)
    ensures Acyclic(Deps(cfg))
  {
    var g := Deps(cfg);
    forall w | IsWalk(g, w) && |w| > 1 ensures w[0] != w[|w| - 1] {
      WalkDown(g, w);
    }
  }

  lemma NewOnes(cfg: Config, n: Node, status: map<Node, Status>)
    requires IsChain(cfg) && n in Deps(cfg) && Deps(cfg).Keys <= status.Keys
    ensures NewCandidates(cfg, n, status)
         == if cfg.children[n] != [] && status[cfg.children[n][0]].NoState? then cfg.children[n] else []
  {
    var kids := cfg.children[n];
    assert Unvisited([], status) == [];
    if kids != [] {
      assert kids[..|kids| - 1] == [] && kids[1..] == [];
      assert kids == [] + [kids[0]];
      assert Reverse<Node>([]) == [] && Reverse(kids) == [] + [kids[0]];
    }
  }

  /** A run of moves that fail no more than the node they are about. */
  ghost predicate KeepsGoing(cfg: Config, states: seq<State>, moves: seq<Move>, s: State) {
    && IsRun(cfg, states, moves) && states[|moves|] == s
    && forall i | 0 <= i < |moves| :: moves[i].Look? || (moves[i].Dispose? && moves[i].ending.Badly?)
  }

  lemma Begins(cfg: Config)
    requires ValidConfig(cfg)
    ensures KeepsGoing(cfg, [Init(cfg)], [], Init(cfg))
  {
  }

  lemma Next(cfg: Config, states: seq<State>, moves: seq<Move>, s: State, m: Move, s': State)
    returns (states': seq<State>, moves': seq<Move>)
    requires KeepsGoing(cfg, states, moves, s) && Step(cfg, s, m, s') && (m.Look? || (m.Dispose? && m.ending.Badly?))
    ensures KeepsGoing(cfg, states', moves', s')
  {
    OneMoreMove(cfg, states, moves, m, s');
    states', moves' := states + [s'], moves + [m];
  }

  lemma First(cfg: Config, s: State) returns (s': State)
    requires IsChain(cfg) && s == Init(cfg)
    ensures Step(cfg, s, Dispose(false, Badly, []), s')
    ensures s' == s.(topLeft := [3, 0], currentTop := Some(2), status := s.status[2 := Failed])
  {
    NewOnes(cfg, 2, s.status[2 := Pending]);
    DisposeFailing(cfg, s, 2);
    s' := PopCandidate(s).(status := s.status[2 := Failed]);
  }

  lemma Looked(cfg: Config, s: State, s': State, verdict: Verdict)
    requires Searching(cfg, s) && Turn(cfg, s) == (s', verdict) && !verdict.Ready?
    ensures Step(cfg, s, Look, s')
  {
  }

  lemma Second(cfg: Config, s: State) returns (s': State)
    requires IsChain(cfg) && Over(Deps(cfg), s) && {0, 1, 2, 3} <= s.status.Keys
    requires !s.stopped && s.candidates == [] && s.topLeft == [3, 0]
    requires s.status[0].NoState? && s.status[1].NoState? && forall c | c in s.waiting :: s.waiting[c] == {}
    ensures Step(cfg, s, Look, s')
    ensures s' == Waited(s, 0, 1, [1]) && s'.candidates == [1] && s'.topLeft == [3]
  {
    NewOnes(cfg, 0, s.status[0 := Pending]);
    TurnWaits(cfg, s, 0, 1, [1]);
    s' := Waited(s, 0, 1, [1]);
    Looked(cfg, s, s', NotReady);
  }

  lemma Third(cfg: Config, s: State) returns (s': State)
    requires IsChain(cfg) && Over(Deps(cfg), s) && {0, 1, 2, 3} <= s.status.Keys
    requires !s.stopped && s.candidates == [1] && s.status[1].NoState? && s.status[2].Failed?
    ensures Step(cfg, s, Look, s')
    ensures s' == s.(candidates := [], status := s.status[1 := Failed])
  {
    NewOnes(cfg, 1, s.status[1 := Pending]);
    TurnFails(cfg, s, 1, 2);
    s' := PopCandidate(s).(status := s.status[1 := Failed]);
    Looked(cfg, s, s', ChildFailed);
  }

  lemma Fourth(cfg: Config, s: State) returns (s': State)
    requires IsChain(cfg) && Over(Deps(cfg), s) && {0, 1, 2, 3} <= s.status.Keys
    requires !s.stopped && s.candidates == [] && s.topLeft == [3]
    requires s.status[3].NoState? && s.status[0].Pending? && Waits(s.waiting, 3) == {}
    ensures Step(cfg, s, Look, s')
    ensures s' == Waited(s, 3, 0, []) && s'.candidates == [] && s'.topLeft == []
  {
    NewOnes(cfg, 3, s.status[3 := Pending]);
    TurnWaits(cfg, s, 3, 0, []);
    s' := Waited(s, 3, 0, []);
    Looked(cfg, s, s', NotReady);
  }

  lemma UpToFirst(cfg: Config) returns (states: seq<State>, moves: seq<Move>, s: State)
    requires IsChain(cfg)
    ensures KeepsGoing(cfg, states, moves, s)
    ensures s == Init(cfg).(topLeft := [3, 0], currentTop := Some(2), status := Init(cfg).status[2 := Failed])
  {
    Begins(cfg);
    s := First(cfg, Init(cfg));
    states, moves := Next(cfg, [Init(cfg)], [], Init(cfg), Dispose(false, Badly, []), s);
  }

  lemma AfterFirst(cfg: Config, s: State)
    requires IsChain(cfg)
    requires s == Init(cfg).(topLeft := [3, 0], currentTop := Some(2), status := Init(cfg).status[2 := Failed])
    ensures Over(Deps(cfg), s) && s.status.Keys == {0, 1, 2, 3} && s.waiting.Keys == {0, 1, 2, 3}
    ensures !s.stopped && s.candidates == [] && s.topLeft == [3, 0]
    ensures s.status[0].NoState? && s.status[1].NoState? && s.status[2].Failed? && s.status[3].NoState?
    ensures forall c | c in s.waiting :: s.waiting[c] == {}
  {
  }

  lemma AfterSecond(g: Digraph, s: State, s': State)
    requires Over(g, s) && s.status.Keys == {0, 1, 2, 3} && s.waiting.Keys == {0, 1, 2, 3}
    requires HasCandidate(s) && 0 in s.refCount && s' == Waited(s, 0, 1, [1])
    requires s.status[0].NoState? && s.status[1].NoState? && s.status[2].Failed? && s.status[3].NoState?
    requires forall c | c in s.waiting :: s.waiting[c] == {}
    ensures Over(g, s') && s'.status.Keys == {0, 1, 2, 3}
    ensures s'.status[0].Pending? && s'.status[1].NoState? && s'.status[2].Failed? && s'.status[3].NoState?
    ensures Waits(s'.waiting, 3) == {}
  {
  }

  lemma UpToSecond(cfg: Config) returns (states: seq<State>, moves: seq<Move>, s: State)
    requires IsChain(cfg)
    ensures KeepsGoing(cfg, states, moves, s)
    ensures Over(Deps(cfg), s) && s.status.Keys == {0, 1, 2, 3}
    ensures !s.stopped && s.candidates == [1] && s.topLeft == [3]
    ensures s.status[0].Pending? && s.status[1].NoState? && s.status[2].Failed? && s.status[3].NoState?
    ensures Waits(s.waiting, 3) == {}
  {
    states, moves, s := UpToFirst(cfg);
    AfterFirst(cfg, s);
    var s' := Second(cfg, s);
    AfterSecond(Deps(cfg), s, s');
    states, moves := Next(cfg, states, moves, s, Look, s');
    s := s';
  }

  lemma UpToThird(cfg: Config) returns (states: seq<State>, moves: seq<Move>, s: State)
    requires IsChain(cfg)
    ensures KeepsGoing(cfg, states, moves, s)
    ensures Over(Deps(cfg), s) && s.status.Keys == {0, 1, 2, 3}
    ensures !s.stopped && s.candidates == [] && s.topLeft == [3]
    ensures s.status[0].Pending? && s.status[1].Failed? && s.status[2].Failed? && s.status[3].NoState?
    ensures Waits(s.waiting, 3) == {}
  {
    states, moves, s := UpToSecond(cfg);
    var s' := Third(cfg, s);
    states, moves := Next(cfg, states, moves, s, Look, s');
    s := s';
  }

  lemma ReversedTops()
    ensures Reverse<Node>([2, 0, 3]) == [3, 0, 2]
  {
    assert [2, 0, 3][1..] == [0, 3] && [0, 3][1..] == [3] && [3][1..] == [];
    assert Reverse([3]) == [3] && Reverse([0, 3]) == [3, 0];
  }

  lemma ChainExists() returns (cfg: Config)
    ensures IsChain(cfg)
  {
    cfg := Config(map[0 := [1], 1 := [2], 2 := [], 3 := [0]], {0, 1, 2, 3}, {}, (l: seq<Node>) => l, [2, 0, 3]);
    ReversedTops();
    assert Elements([1]) == {1} && Elements([2]) == {2} && Elements([0]) == {0} && Elements([]) == {};
    assert Deps(cfg).Keys == {0, 1, 2, 3};
  }

  lemma ChainEnd(s: State, s': State)
    requires HasCandidate(s) && 3 in s.refCount && {0, 1, 2, 3} == s.status.Keys && s' == Waited(s, 3, 0, [])
    requires s'.candidates == [] && s'.topLeft == []
    requires s.status[0].Pending? && s.status[1].Failed? && s.status[2].Failed?
    ensures Drained(s') && CycleReported(s')
  {
    assert 0 in s'.pendingChildren && s'.status[0].Pending?;
  }

  /** A run on an acyclic graph that ends with a cycle reported, and the stranding on its way. */
  lemma FalseCycleReport() returns (cfg: Config, states: seq<State>, moves: seq<Move>, s: State)
    ensures KeepsGoing(cfg, states, moves, s)
    ensures Acyclic(Deps(cfg))
    ensures Drained(s) && CycleReported(s)
    ensures exists j: nat :: StrandsAt(cfg, states, moves, j)
  {
    cfg := ChainExists();
    ChainAcyclic(cfg);
    states, moves, s := UpToThird(cfg);
    var s' := Fourth(cfg, s);
    states, moves := Next(cfg, states, moves, s, Look, s');
    ChainEnd(s, s');
    s := s';
    FalseReportStrands(cfg, states, moves);
  }
}
