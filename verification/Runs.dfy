/**
  Whole runs of the scheduler under any driver: any number of tasks in flight, finishing in any
  order and with any outcome.
  */
module Runs {
  import opened Digraphs
  import opened Scheduling
  import opened TurnLemmas
  import opened TaskLemmas
  import opened Outcome
  import opened Walk
  import opened TaskSteps
  import opened TaskLog
  import opened Wrappers

  /** How a task ends: well, badly with the build going on, or badly with the build stopping. */
  datatype Ending = Well | Badly | Fatally

  datatype Move =
    | Look                                                 // a candidate that is not ready
    | Issue                                                // a ready candidate goes to a worker
    | Dispose(broken: bool, ending: Ending, woken: seq<Node>) // a ready candidate is finished at once
    | Finish(node: Node, ending: Ending, woken: seq<Node>) // a worker's task is finished
    | GiveUp                                               // a stopped search cleans up

  /** The state when the task of `n`, which is in hand, has ended and before it is post-processed. */
  ghost function Ended(s: State, n: Node, ending: Ending): State
    requires n in s.status
  {
    match ending
    case Well => MarkExecuted(s, n)
    case Badly => WillNotBuild(s, {n}, true)
    case Fatally => FailAndStop(s, n)
  }

  /** The node that is post-processed: after a fatal failure it is the current top target. */
  ghost function Target(s: State, n: Node, ending: Ending): Node {
    if ending.Fatally? && s.currentTop.Some? then s.currentTop.value else n
  }

  ghost predicate CanEnd(s: State, n: Node, ending: Ending, woken: seq<Node>) {
    && n in s.status
    && (ending.Well? ==> s.status[n].Executing? || s.status[n].UpToDate?)
    && Wakes(Ended(s, n, ending), Target(s, n, ending), woken)
  }

  ghost function Concluded(s: State, n: Node, ending: Ending, woken: seq<Node>): State
    requires CanEnd(s, n, ending, woken)
  {
    Postprocess(Ended(s, n, ending), Target(s, n, ending), woken)
  }

  ghost predicate Searching(cfg: Config, s: State) {
    !s.stopped && CanTurn(cfg, s)
  }

  ghost function Taken(cfg: Config, s: State, broken: bool): State
    requires Searching(cfg, s)
  {
    if broken then Turn(cfg, s).0 else MakeReady(cfg, Turn(cfg, s).0, NextCandidate(s))
  }

  ghost predicate Step(cfg: Config, s: State, m: Move, s': State) {
    match m
    case Look => Searching(cfg, s) && !Turn(cfg, s).1.Ready? && s' == Turn(cfg, s).0
    case Issue =>
      && Searching(cfg, s) && Turn(cfg, s).1.Ready?
      && NextCandidate(s) !in cfg.upToDate && s' == Taken(cfg, s, false)
    case Dispose(broken, ending, woken) =>
      && Searching(cfg, s) && Turn(cfg, s).1.Ready?
      && CanEnd(Taken(cfg, s, broken), NextCandidate(s), ending, woken)
      && s' == Concluded(Taken(cfg, s, broken), NextCandidate(s), ending, woken)
    case Finish(n, ending, woken) =>
      && n in Deps(cfg) && n in s.status && s.status[n].Executing?
      && CanEnd(s, n, ending, woken) && s' == Concluded(s, n, ending, woken)
    case GiveUp => s.stopped && s' == Abandon(s)
  }

  ghost predicate StepAt(cfg: Config, states: seq<State>, moves: seq<Move>, i: nat)
    requires i < |moves| < |states|
  {
    Step(cfg, states[i], moves[i], states[i + 1])
  }

  ghost predicate IsRun(cfg: Config, states: seq<State>, moves: seq<Move>) {
    && ValidConfig(cfg)
    && |states| == |moves| + 1 && states[0] == Init(cfg)
    && forall i {:trigger StepAt(cfg, states, moves, i)} | 0 <= i < |moves| :: StepAt(cfg, states, moves, i)
  }

  lemma SameMove(cfg: Config, states: seq<State>, moves: seq<Move>, states': seq<State>, moves': seq<Move>, i: nat)
    requires i < |moves| < |states| && i < |moves'| < |states'|
    requires states[i] == states'[i] && moves[i] == moves'[i] && states[i + 1] == states'[i + 1]
    requires StepAt(cfg, states, moves, i)
    ensures StepAt(cfg, states', moves', i)
  {
  }

  lemma LastMove(cfg: Config, states: seq<State>, moves: seq<Move>, i: nat, s: State, m: Move, s': State)
    requires i < |moves| < |states| && states[i] == s && moves[i] == m && states[i + 1] == s' && Step(cfg, s, m, s')
    ensures StepAt(cfg, states, moves, i)
  {
  }

  lemma OneMoreMove(cfg: Config, states: seq<State>, moves: seq<Move>, m: Move, s': State)
    requires IsRun(cfg, states, moves) && Step(cfg, states[|moves|], m, s')
    ensures IsRun(cfg, states + [s'], moves + [m])
  {
    var states', moves' := states + [s'], moves + [m];
    LastMove(cfg, states', moves', |moves|, states[|moves|], m, s');
    forall i | 0 <= i < |moves| ensures StepAt(cfg, states', moves', i) {
      SameMove(cfg, states, moves, states', moves', i);
    }
  }

  lemma OverSound(cfg: Config, s: State, n: Node, ending: Ending, woken: seq<Node>)
    requires InHand(cfg, s, n) && CanEnd(s, n, ending, woken)
    ensures Sound(cfg, Concluded(s, n, ending, woken))
    ensures StatusAfter(s.status, Concluded(s, n, ending, woken).status, n, ending.Well?)
  {
    match ending
    case Well => SuccessSound(cfg, s, n, woken);
    case Badly =>
      FailContinueSound(cfg, s, n, woken);
      FailedStatus(cfg, s, n);
    case Fatally =>
      FailStopSound(cfg, s, n, Target(s, n, ending), woken);
      FailedStatus(cfg, s, n);
  }

  lemma VisitsNotBack(status: map<Node, Status>, status': map<Node, Status>)
    requires OnlyVisits(status, status')
    ensures NoneBack(status, status')
  {
  }

  lemma EndNotBack(status: map<Node, Status>, status': map<Node, Status>, n: Node, ok: bool)
    requires StatusAfter(status, status', n, ok) && (ok ==> status[n].Executing? || status[n].UpToDate?)
    ensures NoneBack(status, status') && status'[n].Rank() >= Executing.Rank()
  {
  }

  lemma NotBackTwice(a: map<Node, Status>, b: map<Node, Status>, c: map<Node, Status>)
    requires NoneBack(a, b) && NoneBack(b, c)
    ensures NoneBack(a, c)
  {
    forall n | n in a ensures a[n].Rank() <= c[n].Rank() {
      assert a[n].Rank() <= b[n].Rank();
    }
  }

  /** The node that a move hands to a task, if any. */
  ghost function Given(s: State, m: Move): Option<Node> {
    if (m.Issue? || m.Dispose?) && HasCandidate(s) then Some(NextCandidate(s)) else None
  }

  /** No node moves backwards, and a node that is given to a task leaves the walk for good. */
  ghost predicate Onwards(status: map<Node, Status>, status': map<Node, Status>, given: Option<Node>) {
    && NoneBack(status, status')
    && (given.Some? ==>
        && given.value in status && given.value in status'
        && status[given.value].Rank() < Executing.Rank() <= status'[given.value].Rank())
  }

  lemma TurnBack(cfg: Config, s: State)
    requires Sound(cfg, s) && Searching(cfg, s)
    ensures Sound(cfg, Turn(cfg, s).0) && NoneBack(s.status, Turn(cfg, s).0.status)
    ensures Turn(cfg, s).1.Ready? ==>
              ReadyNode(Deps(cfg), Turn(cfg, s).0, NextCandidate(s)) && NextCandidate(s) in s.status
  {
    TurnSound(cfg, s);
    TurnOnlyVisits(cfg, s);
    VisitsNotBack(s.status, Turn(cfg, s).0.status);
  }

  lemma TakenBack(status: map<Node, Status>, looked: map<Node, Status>, n: Node, st: Status)
    requires NoneBack(status, looked) && n in status && looked[n].Pending? && st.Rank() >= Executing.Rank()
    ensures NoneBack(status, looked[n := st]) && status[n].Rank() < Executing.Rank()
  {
    assert status[n].Rank() <= looked[n].Rank();
  }

  /** `s'` is a state in which the task of `n`, which was taken in the state `s`, is in hand. */
  ghost predicate InHandAfter(cfg: Config, s: State, s': State, n: Node) {
    && InHand(cfg, s', n) && NoneBack(s.status, s'.status)
    && n in s.status && s.status[n].Rank() < Executing.Rank()
  }

  lemma HandedOver(cfg: Config, s: State, looked: State, n: Node)
    requires Sound(cfg, looked) && ReadyNode(Deps(cfg), looked, n)
    requires NoneBack(s.status, looked.status) && n in s.status
    ensures InHandAfter(cfg, s, looked, n) && InHandAfter(cfg, s, MakeReady(cfg, looked, n), n)
  {
    ReadyInHand(cfg, looked, n);
    TakenBack(s.status, looked.status, n, if n in cfg.upToDate then UpToDate else Executing);
  }

  lemma TakenInHand(cfg: Config, s: State, broken: bool)
    requires Sound(cfg, s) && Searching(cfg, s) && Turn(cfg, s).1.Ready?
    ensures InHandAfter(cfg, s, Taken(cfg, s, broken), NextCandidate(s))
  {
    TurnBack(cfg, s);
    HandedOver(cfg, s, Turn(cfg, s).0, NextCandidate(s));
  }

  lemma EndKeeps(cfg: Config, s: State, s': State, n: Node, ending: Ending, woken: seq<Node>)
    requires InHand(cfg, s, n) && CanEnd(s, n, ending, woken) && s' == Concluded(s, n, ending, woken)
    ensures Sound(cfg, s') && NoneBack(s.status, s'.status)
    ensures n in s'.status && s'.status[n].Rank() >= Executing.Rank()
  {
    OverSound(cfg, s, n, ending, woken);
    EndNotBack(s.status, s'.status, n, ending.Well?);
  }

  lemma DisposeKeeps(cfg: Config, s: State, taken: State, s': State, n: Node, ending: Ending, woken: seq<Node>)
    requires InHandAfter(cfg, s, taken, n) && CanEnd(taken, n, ending, woken) && s' == Concluded(taken, n, ending, woken)
    ensures Sound(cfg, s') && Onwards(s.status, s'.status, Some(n))
  {
    EndKeeps(cfg, taken, s', n, ending, woken);
    NotBackTwice(s.status, taken.status, s'.status);
  }

  lemma StepKeeps(cfg: Config, s: State, m: Move, s': State)
    requires Sound(cfg, s) && Step(cfg, s, m, s')
    ensures Sound(cfg, s') && Onwards(s.status, s'.status, Given(s, m))
  {
    match m
    case Look => TurnBack(cfg, s);
    case Issue =>
      TakenInHand(cfg, s, false);
      ExecutingSound(cfg, s', NextCandidate(s));
    case Dispose(broken, ending, woken) =>
      TakenInHand(cfg, s, broken);
      DisposeKeeps(cfg, s, Taken(cfg, s, broken), s', NextCandidate(s), ending, woken);
    case Finish(n, ending, woken) =>
      ExecutingInHand(cfg, s, n);
      EndKeeps(cfg, s, s', n, ending, woken);
    case GiveUp => AbandonSound(cfg, s);
  }

  lemma MoveOf(cfg: Config, states: seq<State>, moves: seq<Move>, i: nat)
    requires IsRun(cfg, states, moves) && i < |moves|
    ensures Step(cfg, states[i], moves[i], states[i + 1])
  {
    assert StepAt(cfg, states, moves, i);
  }

  lemma NextSound(cfg: Config, states: seq<State>, moves: seq<Move>, i: nat)
    requires IsRun(cfg, states, moves) && i < |moves| && Sound(cfg, states[i])
    ensures Sound(cfg, states[i + 1]) && Onwards(states[i].status, states[i + 1].status, Given(states[i], moves[i]))
  {
    assert StepAt(cfg, states, moves, i);
    StepKeeps(cfg, states[i], moves[i], states[i + 1]);
  }

  /** Every reachable state of every run is sound, with failures of either kind included. */
  lemma {:induction false} EveryStateSound(cfg: Config, states: seq<State>, moves: seq<Move>, i: nat)
    requires IsRun(cfg, states, moves) && i < |states|
    ensures Sound(cfg, states[i])
    ensures i > 0 ==> Onwards(states[i - 1].status, states[i].status, Given(states[i - 1], moves[i - 1]))
  {
    if i == 0 {
      InitSound(cfg);
    } else {
      EveryStateSound(cfg, states, moves, i - 1);
      NextSound(cfg, states, moves, i - 1);
    }
  }

  /** The state of a node never moves backwards. */
  lemma {:induction false} NeverBack(cfg: Config, states: seq<State>, moves: seq<Move>, i: nat, j: nat)
    requires IsRun(cfg, states, moves) && i <= j < |states|
    ensures NoneBack(states[i].status, states[j].status)
    decreases j
  {
    if i < j {
      NeverBack(cfg, states, moves, i, j - 1);
      EveryStateSound(cfg, states, moves, j);
      NotBackTwice(states[i].status, states[j - 1].status, states[j].status);
    }
  }

  lemma EveryMoveOnwards(cfg: Config, states: seq<State>, moves: seq<Move>, i: nat)
    requires IsRun(cfg, states, moves) && i < |moves|
    ensures Onwards(states[i].status, states[i + 1].status, Given(states[i], moves[i]))
  {
    EveryStateSound(cfg, states, moves, i + 1);
  }

  /** No node is ever given to two tasks. */
  lemma OneTaskPerNode(cfg: Config, states: seq<State>, moves: seq<Move>, i: nat, j: nat)
    requires IsRun(cfg, states, moves) && i < j < |moves|
    requires Given(states[i], moves[i]).Some?
    ensures Given(states[i], moves[i]) != Given(states[j], moves[j])
  {
    EveryMoveOnwards(cfg, states, moves, i);
    NeverBack(cfg, states, moves, i + 1, j);
    EveryMoveOnwards(cfg, states, moves, j);
    GivenApart(states[i].status, states[i + 1].status, states[j].status, states[j + 1].status,
               Given(states[i], moves[i]), Given(states[j], moves[j]));
  }

  lemma GivenApart(a: map<Node, Status>, b: map<Node, Status>, c: map<Node, Status>, d: map<Node, Status>,
                   given: Option<Node>, given': Option<Node>)
    requires Onwards(a, b, given) && NoneBack(b, c) && Onwards(c, d, given') && given.Some?
    ensures given != given'
  {
    assert b[given.value].Rank() <= c[given.value].Rank();
  }

  /** Whatever is being built, is up to date or has been built has all it depends on built. */
  lemma {:induction false} BuiltBottomUp(cfg: Config, s: State, n: Node, w: seq<Node>)
    requires Sound(cfg, s) && n in s.status && s.status[n].Begun()
    requires IsWalk(Deps(cfg), w) && w[0] == n && |w| > 1
    ensures w[|w| - 1] in s.status && s.status[w[|w| - 1]].Succeeded()
  {
    var v := w[..|w| - 1];
    assert w[|w| - 1] in Deps(cfg)[w[|w| - 2]];
    if |v| > 1 {
      BuiltBottomUp(cfg, s, n, v);
    }
  }

  /** Build order over whole runs: everything that a begun node depends on, directly or not, is built. */
  lemma BuildOrderSafety(cfg: Config, states: seq<State>, moves: seq<Move>, i: nat, n: Node, d: Node)
    requires IsRun(cfg, states, moves) && i < |states|
    requires n in states[i].status && states[i].status[n].Begun() && d != n && Reaches(Deps(cfg), n, d)
    ensures d in states[i].status && states[i].status[d].Succeeded()
  {
    EveryStateSound(cfg, states, moves, i);
    var w :| IsWalkFromTo(Deps(cfg), w, n, d);
    BuiltBottomUp(cfg, states[i], n, w);
  }

  /**
    The reference counts in every reachable state: the count of a node is the number of nodes
    that have it among their waiting parents.
    */
  lemma CountsInEveryState(cfg: Config, states: seq<State>, moves: seq<Move>, i: nat, p: Node)
    requires IsRun(cfg, states, moves) && i < |states| && p in states[i].refCount
    ensures states[i].refCount[p] == |set c | c in states[i].waiting && p in states[i].waiting[c]|
  {
    EveryStateSound(cfg, states, moves, i);
    assert Waits(states[i].waiting, p) == set c | c in states[i].waiting && p in states[i].waiting[c];
  }

  /** A fatal failure stops the build, and nobody waits for the current top target or the failed node any more. */
  lemma StopReleases(cfg: Config, s: State, n: Node, woken: seq<Node>)
    requires InHand(cfg, s, n) && CanEnd(s, n, Fatally, woken)
    ensures var s' := Concluded(s, n, Fatally, woken);
      && s'.stopped && s.currentTop.Some?
      && s.currentTop.value in s'.waiting && s'.waiting[s.currentTop.value] == {}
      && n in s'.waiting && s'.waiting[n] == {}
  {
    ReachesRefl(s.waiting, n);
    assert n in ReachSet(s.waiting, {n});
  }

  // ---------------------------------------------------------------- The order of the walk

  /** The top targets are taken in the order given: those left are the last ones, and the current one is the one before. */
  ghost predicate TopsInOrder(cfg: Config, s: State) {
    && |s.topLeft| <= |cfg.tops|
    && var taken := |cfg.tops| - |s.topLeft|;
       && (forall i | 0 <= i < |s.topLeft| :: s.topLeft[i] == cfg.tops[|cfg.tops| - 1 - i])
       && s.currentTop == if taken == 0 then None else Some(cfg.tops[taken - 1])
  }

  lemma {:induction false} ReversedAt<T(!new)>(s: seq<T>, k: nat)
    requires k < |s|
    ensures |Reverse(s)| == |s| && Reverse(s)[k] == s[|s| - 1 - k]
    decreases |s|
  {
    if |s| > 1 {
      ReversedAt(s[1..], if k < |s| - 1 then k else 0);
    }
  }

  lemma InitTops(cfg: Config)
    ensures TopsInOrder(cfg, Init(cfg))
  {
    if cfg.tops != [] {
      ReversedAt(cfg.tops, 0);
    }
    forall i | 0 <= i < |cfg.tops| ensures Reverse(cfg.tops)[i] == cfg.tops[|cfg.tops| - 1 - i] {
      ReversedAt(cfg.tops, i);
    }
  }

  lemma PopTops(cfg: Config, s: State)
    requires TopsInOrder(cfg, s) && HasCandidate(s)
    ensures TopsInOrder(cfg, PopCandidate(s))
  {
  }

  ghost predicate SameTops(s: State, s': State) {
    s'.topLeft == s.topLeft && s'.currentTop == s.currentTop
  }

  lemma TurnTops(cfg: Config, s: State, broken: bool)
    requires Searching(cfg, s)
    ensures SameTops(PopCandidate(s), Turn(cfg, s).0) && SameTops(PopCandidate(s), Taken(cfg, s, broken))
  {
  }

  lemma ConcludedTops(s: State, n: Node, ending: Ending, woken: seq<Node>)
    requires CanEnd(s, n, ending, woken)
    ensures SameTops(s, Concluded(s, n, ending, woken))
  {
  }

  lemma TopsKept(cfg: Config, s: State, s': State)
    requires TopsInOrder(cfg, s) && SameTops(s, s')
    ensures TopsInOrder(cfg, s')
  {
  }

  lemma TakenTops(cfg: Config, s: State, broken: bool)
    requires Searching(cfg, s) && TopsInOrder(cfg, s)
    ensures TopsInOrder(cfg, Turn(cfg, s).0) && TopsInOrder(cfg, Taken(cfg, s, broken))
  {
    PopTops(cfg, s);
    TurnTops(cfg, s, broken);
    TopsKept(cfg, PopCandidate(s), Turn(cfg, s).0);
    TopsKept(cfg, PopCandidate(s), Taken(cfg, s, broken));
  }

  /** Nothing but taking a candidate touches the top targets. */
  lemma StepTops(cfg: Config, s: State, m: Move, s': State)
    requires Step(cfg, s, m, s') && TopsInOrder(cfg, s)
    ensures TopsInOrder(cfg, s')
  {
    match m
    case Look => TakenTops(cfg, s, false);
    case Issue => TakenTops(cfg, s, false);
    case Dispose(broken, ending, woken) =>
      TakenTops(cfg, s, broken);
      ConcludedTops(Taken(cfg, s, broken), NextCandidate(s), ending, woken);
      TopsKept(cfg, Taken(cfg, s, broken), s');
    case Finish(n, ending, woken) =>
      ConcludedTops(s, n, ending, woken);
      TopsKept(cfg, s, s');
    case GiveUp => TopsKept(cfg, s, s');
  }

  /** In every state of every run the top targets have been taken in the order given. */
  lemma {:induction false} TopsTakenInOrder(cfg: Config, states: seq<State>, moves: seq<Move>, i: nat)
    requires IsRun(cfg, states, moves) && i < |states|
    ensures TopsInOrder(cfg, states[i])
  {
    if i == 0 {
      InitTops(cfg);
    } else {
      TopsTakenInOrder(cfg, states, moves, i - 1);
      MoveOf(cfg, states, moves, i - 1);
      StepTops(cfg, states[i - 1], moves[i - 1], states[i]);
    }
  }

  /** The child at `k` is the first one in the list that has not been visited. */
  ghost predicate FirstUnvisited(kids: seq<Node>, status: map<Node, Status>, k: nat) {
    && k < |kids| && kids[k] in status && status[kids[k]].NoState?
    && forall j | 0 <= j < k :: kids[j] in status && !status[kids[j]].NoState?
  }

  lemma {:induction false} UnvisitedFirst(kids: seq<Node>, status: map<Node, Status>) returns (k: nat)
    requires forall c | c in kids :: c in status
    requires Unvisited(kids, status) != []
    ensures FirstUnvisited(kids, status, k) && Unvisited(kids, status)[0] == kids[k]
    decreases |kids|
  {
    var before, last := kids[..|kids| - 1], kids[|kids| - 1];
    assert last in kids && forall c | c in before :: c in kids;
    if Unvisited(before, status) != [] {
      k := UnvisitedFirst(before, status);
    } else {
      k := |kids| - 1;
      forall j | 0 <= j < k ensures kids[j] in status && !status[kids[j]].NoState? {
        assert kids[j] == before[j];
        assert kids[j] !in Unvisited(before, status);
      }
    }
  }

  /**
    With the ordering that leaves lists as they are, the next candidate after a node is visited is its first
    child that has not been visited.
    */
  lemma FirstChildFirst(cfg: Config, s: State, n: Node) returns (k: nat)
    requires ValidConfig(cfg) && n in Deps(cfg) && Deps(cfg).Keys <= s.status.Keys
    requires forall l: seq<Node> :: cfg.order(l) == l
    requires NewCandidates(cfg, n, s.status[n := Pending]) != []
    ensures var visited := Visit(s, n, NewCandidates(cfg, n, s.status[n := Pending]));
      FirstUnvisited(cfg.children[n], visited.status, k) && NextCandidate(visited) == cfg.children[n][k]
  {
    var kids, status := cfg.children[n], s.status[n := Pending];
    assert forall c | c in kids :: c in Deps(cfg);
    var u := Unvisited(kids, status);
    var l := NewCandidates(cfg, n, status);
    assert l == Reverse(u);
    assert u != [];
    k := UnvisitedFirst(kids, status);
    ReversedAt(u, |u| - 1);
  }

  // ---------------------------------------------------------------- Failure-free runs

  ghost predicate Harmless(m: Move) {
    match m
    case Dispose(broken, ending, _) => !broken && ending.Well?
    case Finish(_, ending, _) => ending.Well?
    case _ => true
  }

  ghost predicate Faultless(cfg: Config, s: State) {
    Sound(cfg, s) && CleanWith(cfg, s, {})
  }

  lemma TurnFaultless(cfg: Config, s: State)
    requires Faultless(cfg, s) && Searching(cfg, s)
    ensures CleanWith(cfg, Turn(cfg, s).0, if Turn(cfg, s).1.Ready? then {NextCandidate(s)} else {})
  {
    TurnSound(cfg, s);
    TurnClean(cfg, s);
  }

  lemma TakenFaultless(cfg: Config, s: State)
    requires Faultless(cfg, s) && Searching(cfg, s) && Turn(cfg, s).1.Ready?
    ensures InHand(cfg, Taken(cfg, s, false), NextCandidate(s))
    ensures CleanWith(cfg, Taken(cfg, s, false), {NextCandidate(s)})
  {
    TurnFaultless(cfg, s);
    TurnBack(cfg, s);
    ReadyInHand(cfg, Turn(cfg, s).0, NextCandidate(s));
  }

  lemma FaultlessStep(cfg: Config, s: State, m: Move, s': State)
    requires Faultless(cfg, s) && Step(cfg, s, m, s') && Harmless(m)
    ensures Faultless(cfg, s')
  {
    match m
    case Look =>
      TurnBack(cfg, s);
      TurnFaultless(cfg, s);
    case Issue =>
      TakenFaultless(cfg, s);
      ExecutingSound(cfg, s', NextCandidate(s));
    case Dispose(broken, ending, woken) =>
      TakenFaultless(cfg, s);
      SuccessSound(cfg, Taken(cfg, s, false), NextCandidate(s), woken);
    case Finish(n, ending, woken) =>
      ExecutingInHand(cfg, s, n);
      SuccessSound(cfg, s, n, woken);
    case GiveUp =>
  }

  lemma NextFaultless(cfg: Config, states: seq<State>, moves: seq<Move>, i: nat)
    requires IsRun(cfg, states, moves) && i < |moves| && Harmless(moves[i]) && Faultless(cfg, states[i])
    ensures Faultless(cfg, states[i + 1])
  {
    assert StepAt(cfg, states, moves, i);
    FaultlessStep(cfg, states[i], moves[i], states[i + 1]);
  }

  lemma {:induction false} EveryStateFaultless(cfg: Config, states: seq<State>, moves: seq<Move>, i: nat)
    requires IsRun(cfg, states, moves) && i < |states| && forall j | 0 <= j < |moves| :: Harmless(moves[j])
    ensures Faultless(cfg, states[i])
  {
    if i == 0 {
      InitSound(cfg);
    } else {
      EveryStateFaultless(cfg, states, moves, i - 1);
      NextFaultless(cfg, states, moves, i - 1);
    }
  }

  /** The engine's own assertions on its pending children hold in every state of a failure-free run. */
  lemma PendingChildrenValidated(cfg: Config, states: seq<State>, moves: seq<Move>, i: nat, n: Node)
    requires IsRun(cfg, states, moves) && i < |states| && forall j | 0 <= j < |moves| :: Harmless(moves[j])
    requires n in states[i].pendingChildren
    ensures var s := states[i];
            && n in s.status && (s.status[n].Pending? || s.status[n].Executing?)
            && n in s.waiting && s.waiting[n] != {}
            && forall p | p in s.waiting[n] :: p in s.refCount && s.refCount[p] > 0
  {
    EveryStateFaultless(cfg, states, moves, i);
    var s := states[i];
    forall p | p in s.waiting[n] ensures p in s.refCount && s.refCount[p] > 0 {
      WaiterCounted(Deps(cfg), s, n, p);
    }
  }

  lemma WaiterCounted(g: Digraph, s: State, n: Node, p: Node)
    requires Inv(g, s, {}) && CountsExact(s.refCount, s.waiting) && n in s.waiting && p in s.waiting[n]
    ensures p in s.refCount && s.refCount[p] > 0
  {
    assert n in Waits(s.waiting, p);
  }

  /**
    No lost wake-ups, and cycles are reported exactly: a failure-free run that has nothing left to
    do leaves every node in the same state as any other such run, and its clean-up reports a
    dependency cycle if and only if the top targets depend on one.
    */
  lemma FailureFreeRunEnds(cfg: Config, states: seq<State>, moves: seq<Move>)
    requires IsRun(cfg, states, moves) && forall j | 0 <= j < |moves| :: Harmless(moves[j])
    requires Drained(states[|moves|])
    ensures forall n | n in cfg.children ::
              n in states[|moves|].status && states[|moves|].status[n] == FinalStatus(cfg, n)
    ensures CycleReported(states[|moves|]) <==> CycleNeeded(cfg)
    ensures !CycleNeeded(cfg) ==> states[|moves|].pendingChildren == {}
  {
    EveryStateFaultless(cfg, states, moves, |moves|);
    FinalStates(cfg, states[|moves|]);
    CycleReportExact(cfg, states[|moves|]);
  }
}
