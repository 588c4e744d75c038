/**
  The history of a build as that of a run: which run led to a state, what its history was, and what
  follows for a build that stops at its first failure and for one that keeps going.
  */
module Traces {
  import opened Digraphs
  import opened Scheduling
  import opened TurnLemmas
  import opened Outcome
  import opened Walk
  import opened TaskSteps
  import opened TaskLog
  import opened Runs
  import opened Stranding
  import opened Wrappers

  datatype Run = Run(states: seq<State>, moves: seq<Move>)

  /** What a move adds to the history. */
  ghost function Events(s: State, m: Move): seq<Event> {
    match m
    case Issue => if HasCandidate(s) then [Issued(NextCandidate(s))] else []
    case Dispose(_, ending, _) =>
      if HasCandidate(s) then [Issued(NextCandidate(s)), Event.Finished(NextCandidate(s), ending.Well?)] else []
    case Finish(n, ending, _) => [Event.Finished(n, ending.Well?)]
    case _ => []
  }

  ghost function History(states: seq<State>, moves: seq<Move>): seq<Event>
    requires |states| == |moves| + 1
    decreases |moves|
  {
    if moves == [] then []
    else
      var k := |moves| - 1;
      History(states[..k + 1], moves[..k]) + Events(states[k], moves[k])
  }

  /** How a task ends that fails, when the build keeps going and when it does not. */
  function EndingOf(ok: bool, keepGoing: bool): Ending {
    if ok then Well else if keepGoing then Badly else Fatally
  }

  ghost predicate Obeys(m: Move, keepGoing: bool) {
    m.Dispose? || m.Finish? ==> m.ending == EndingOf(m.ending.Well?, keepGoing)
  }

  /** The run leads to the state `s` with this history. */
  ghost predicate Produces(cfg: Config, run: Run, keepGoing: bool, s: State, log: seq<Event>) {
    && IsRun(cfg, run.states, run.moves)
    && run.states[|run.moves|] == s && History(run.states, run.moves) == log
    && AllObey(run.moves, keepGoing)
  }

  ghost predicate AllObey(moves: seq<Move>, keepGoing: bool) {
    forall j | 0 <= j < |moves| :: Obeys(moves[j], keepGoing)
  }

  ghost predicate Traced(cfg: Config, keepGoing: bool, s: State, log: seq<Event>) {
    exists run :: Produces(cfg, run, keepGoing, s, log)
  }

  lemma Begins(cfg: Config, keepGoing: bool)
    requires ValidConfig(cfg)
    ensures Traced(cfg, keepGoing, Init(cfg), [])
  {
    assert Produces(cfg, Run([Init(cfg)], []), keepGoing, Init(cfg), []);
  }

  lemma HistoryMore(states: seq<State>, moves: seq<Move>, m: Move, s': State)
    requires |states| == |moves| + 1
    ensures History(states + [s'], moves + [m]) == History(states, moves) + Events(states[|moves|], m)
  {
    assert (states + [s'])[..|moves| + 1] == states && (moves + [m])[..|moves|] == moves;
  }

  lemma ObeyMore(moves: seq<Move>, m: Move, keepGoing: bool)
    requires AllObey(moves, keepGoing) && Obeys(m, keepGoing)
    ensures AllObey(moves + [m], keepGoing)
  {
  }

  lemma LastState(states: seq<State>, moves: seq<Move>, m: Move, s': State)
    requires |states| == |moves| + 1
    ensures |states + [s']| == |moves + [m]| + 1 && (states + [s'])[|moves + [m]|] == s'
  {
  }

  lemma ProducesMore(cfg: Config, run: Run, keepGoing: bool, s: State, log: seq<Event>, m: Move, s': State, run': Run)
    requires Produces(cfg, run, keepGoing, s, log)
    requires run'.states == run.states + [s'] && run'.moves == run.moves + [m]
    requires IsRun(cfg, run'.states, run'.moves) && AllObey(run'.moves, keepGoing)
    requires History(run'.states, run'.moves) == log + Events(s, m) && run'.states[|run'.moves|] == s'
    ensures Traced(cfg, keepGoing, s', log + Events(s, m))
  {
    assert Produces(cfg, run', keepGoing, s', log + Events(s, m));
  }

  lemma Moves(cfg: Config, keepGoing: bool, s: State, log: seq<Event>, m: Move, s': State)
    requires Traced(cfg, keepGoing, s, log) && Step(cfg, s, m, s') && Obeys(m, keepGoing)
    ensures Traced(cfg, keepGoing, s', log + Events(s, m))
  {
    var run :| Produces(cfg, run, keepGoing, s, log);
    OneMoreMove(cfg, run.states, run.moves, m, s');
    HistoryMore(run.states, run.moves, m, s');
    ObeyMore(run.moves, m, keepGoing);
    LastState(run.states, run.moves, m, s');
    ProducesMore(cfg, run, keepGoing, s, log, m, s', Run(run.states + [s'], run.moves + [m]));
  }

  // ---------------------------------------------------------------- Asking for a task

  /** A run leads to a state in which `n` is found ready, after which the task is handed out in the state `s`. */
  ghost predicate TakenFrom(cfg: Config, keepGoing: bool, s0: State, s: State, log: seq<Event>, n: Node, broken: bool) {
    && Traced(cfg, keepGoing, s0, log)
    && Searching(cfg, s0) && Turn(cfg, s0).1.Ready? && NextCandidate(s0) == n
    && s == Taken(cfg, s0, broken)
  }

  /** The same when the task's node is being executed, or is not and the task is finished next. */
  ghost predicate TracedInHand(cfg: Config, keepGoing: bool, s: State, log: seq<Event>, n: Node) {
    if n in s.status && s.status[n].Executing? then Traced(cfg, keepGoing, s, log)
    else
      exists s0, log0, broken :: TakenFrom(cfg, keepGoing, s0, s, log0, n, broken) && log == log0 + [Issued(n)]
  }

  lemma {:induction false} SearchTraced(cfg: Config, keepGoing: bool, s: State, log: seq<Event>) returns (s0: State)
    requires Sound(cfg, s) && Traced(cfg, keepGoing, s, log)
    ensures var (s', node) := FindNextReady(cfg, s);
      if node.Some? then TakenFrom(cfg, keepGoing, s0, s', log, node.value, true) else Traced(cfg, keepGoing, s', log)
    decreases Unseen(Deps(cfg), s.status), |s.candidates| + |s.topLeft|
  {
    s0 := s;
    if s.stopped {
      Moves(cfg, keepGoing, s, log, GiveUp, Abandon(s));
      assert log + [] == log;
    } else if HasCandidate(s) {
      TurnSound(cfg, s);
      TurnDecreases(cfg, s);
      if !Turn(cfg, s).1.Ready? {
        Moves(cfg, keepGoing, s, log, Look, Turn(cfg, s).0);
        assert log + [] == log;
        s0 := SearchTraced(cfg, keepGoing, Turn(cfg, s).0, log);
      }
    }
  }

  lemma HandOutTraced(cfg: Config, keepGoing: bool, s0: State, s: State, log: seq<Event>, n: Node, readyFails: set<Node>)
    requires TakenFrom(cfg, keepGoing, s0, s, log, n, true) && n in s.status && s.status[n].Pending?
    ensures TracedInHand(cfg, keepGoing, MadeReady(cfg, (s, Some(n)), readyFails), log + [Issued(n)], n)
  {
    var s' := MadeReady(cfg, (s, Some(n)), readyFails);
    if s'.status[n].Executing? {
      Moves(cfg, keepGoing, s0, log, Issue, s');
    } else {
      assert TakenFrom(cfg, keepGoing, s0, s', log, n, n in readyFails);
    }
  }

  /** Asking for a task goes on with the run: nothing is stranded or given up unseen. */
  lemma NextTaskTraced(cfg: Config, keepGoing: bool, s: State, log: seq<Event>, readyFails: set<Node>)
    requires Sound(cfg, s) && Traced(cfg, keepGoing, s, log)
    ensures var search := FindNextReady(cfg, s);
            var s' := MadeReady(cfg, search, readyFails);
            if search.1.Some? then TracedInHand(cfg, keepGoing, s', log + [Issued(search.1.value)], search.1.value)
            else Traced(cfg, keepGoing, s', log)
  {
    var (s1, node) := FindNextReady(cfg, s);
    var s0 := SearchTraced(cfg, keepGoing, s, log);
    SearchSound(cfg, s);
    if node.Some? {
      HandOutTraced(cfg, keepGoing, s0, s1, log, node.value, readyFails);
    }
  }

  // ---------------------------------------------------------------- Finishing a task

  /** The task of `n` ends in this way, its post-processing included. */
  ghost predicate Ends(s: State, n: Node, ending: Ending, s': State) {
    exists woken :: CanEnd(s, n, ending, woken) && s' == Concluded(s, n, ending, woken)
  }

  lemma FinishTraced(cfg: Config, keepGoing: bool, s: State, log: seq<Event>, n: Node, ok: bool, woken: seq<Node>)
    requires Traced(cfg, keepGoing, s, log) && n in Deps(cfg) && n in s.status && s.status[n].Executing?
    requires CanEnd(s, n, EndingOf(ok, keepGoing), woken)
    ensures Traced(cfg, keepGoing, Concluded(s, n, EndingOf(ok, keepGoing), woken), log + [Event.Finished(n, ok)])
  {
    var ending := EndingOf(ok, keepGoing);
    Moves(cfg, keepGoing, s, log, Finish(n, ending, woken), Concluded(s, n, ending, woken));
  }

  lemma DisposeTraced(cfg: Config, keepGoing: bool, s0: State, s: State, log: seq<Event>, n: Node, broken: bool, ok: bool, woken: seq<Node>)
    requires TakenFrom(cfg, keepGoing, s0, s, log, n, broken) && CanEnd(s, n, EndingOf(ok, keepGoing), woken)
    ensures Traced(cfg, keepGoing, Concluded(s, n, EndingOf(ok, keepGoing), woken), log + [Issued(n), Event.Finished(n, ok)])
  {
    var ending := EndingOf(ok, keepGoing);
    Moves(cfg, keepGoing, s0, log, Dispose(broken, ending, woken), Concluded(s, n, ending, woken));
  }

  lemma OneByOne(log: seq<Event>, a: Event, b: Event)
    ensures log + [a, b] == log + [a] + [b]
  {
  }

  lemma EndTraced(cfg: Config, keepGoing: bool, s: State, log: seq<Event>, n: Node, ok: bool, s': State)
    requires TracedInHand(cfg, keepGoing, s, log, n) && n in Deps(cfg) && Ends(s, n, EndingOf(ok, keepGoing), s')
    ensures Traced(cfg, keepGoing, s', log + [Event.Finished(n, ok)])
  {
    var woken :| CanEnd(s, n, EndingOf(ok, keepGoing), woken) && s' == Concluded(s, n, EndingOf(ok, keepGoing), woken);
    if s.status[n].Executing? {
      FinishTraced(cfg, keepGoing, s, log, n, ok, woken);
    } else {
      var s0, log0, broken :| TakenFrom(cfg, keepGoing, s0, s, log0, n, broken) && log == log0 + [Issued(n)];
      DisposeTraced(cfg, keepGoing, s0, s, log0, n, broken, ok, woken);
      OneByOne(log0, Issued(n), Event.Finished(n, ok));
    }
  }

  // ---------------------------------------------------------------- Stopping and keeping going

  predicate FailureAt(log: seq<Event>, i: nat) {
    i < |log| && log[i].Finished? && !log[i].ok
  }

  ghost predicate HasFailure(log: seq<Event>) {
    exists i: nat :: FailureAt(log, i)
  }

  /** No task is issued once a task has failed. */
  ghost predicate NoneIssuedAfterFailure(log: seq<Event>) {
    forall i: nat, j: nat | i < j < |log| && FailureAt(log, i) :: !log[j].Issued?
  }

  lemma HasFailureMore(log: seq<Event>, more: seq<Event>)
    ensures HasFailure(log + more) <==> HasFailure(log) || HasFailure(more)
  {
    var all := log + more;
    if i: nat :| FailureAt(log, i) {
      assert FailureAt(all, i);
    }
    if i: nat :| FailureAt(more, i) {
      assert FailureAt(all, |log| + i);
    }
    if i: nat :| FailureAt(all, i) {
      assert if i < |log| then FailureAt(log, i) else FailureAt(more, i - |log|);
    }
  }

  lemma FailureFinished(log: seq<Event>)
    ensures HasFailure(log) <==> FinishedIn(log, false) != {}
  {
    if i: nat :| FailureAt(log, i) {
      assert log[i].node in FinishedIn(log, false);
    }
    if n :| n in FinishedIn(log, false) {
      var e :| e in log && e.Finished? && !e.ok;
      var i :| 0 <= i < |log| && log[i] == e;
      assert FailureAt(log, i);
    }
  }

  lemma ConcludedStops(s: State, n: Node, ending: Ending, woken: seq<Node>)
    requires CanEnd(s, n, ending, woken)
    ensures Concluded(s, n, ending, woken).stopped <==> s.stopped || ending.Fatally?
  {
  }

  lemma TakenGoes(cfg: Config, s: State, broken: bool)
    requires Sound(cfg, s) && Searching(cfg, s)
    ensures !Turn(cfg, s).0.stopped && !Taken(cfg, s, broken).stopped
  {
    TurnSound(cfg, s);
  }

  lemma FailureOfEnd(es: seq<Event>, n: Node, ok: bool)
    requires es == [Event.Finished(n, ok)] || es == [Issued(n), Event.Finished(n, ok)]
    ensures HasFailure(es) <==> !ok
    ensures NoneIssuedAfterFailure(es)
  {
    assert FailureAt(es, |es| - 1) <==> !ok;
  }

  lemma EndStops(cfg: Config, s: State, taken: State, m: Move, n: Node, ending: Ending, woken: seq<Node>, keepGoing: bool)
    requires CanEnd(taken, n, ending, woken) && (taken.stopped <==> s.stopped) && ending == EndingOf(ending.Well?, keepGoing)
    requires Events(s, m) == [Event.Finished(n, ending.Well?)] || Events(s, m) == [Issued(n), Event.Finished(n, ending.Well?)]
    ensures Concluded(taken, n, ending, woken).stopped <==> s.stopped || (!keepGoing && HasFailure(Events(s, m)))
    ensures NoneIssuedAfterFailure(Events(s, m))
  {
    ConcludedStops(taken, n, ending, woken);
    FailureOfEnd(Events(s, m), n, ending.Well?);
  }

  /** A build that keeps going is never stopped; any other is stopped by its first failure. */
  lemma StepStops(cfg: Config, s: State, m: Move, s': State, keepGoing: bool)
    requires Sound(cfg, s) && Step(cfg, s, m, s') && Obeys(m, keepGoing)
    ensures s'.stopped <==> s.stopped || (!keepGoing && HasFailure(Events(s, m)))
    ensures s.stopped ==> forall e | e in Events(s, m) :: !e.Issued?
    ensures NoneIssuedAfterFailure(Events(s, m))
  {
    match m
    case Look => TakenGoes(cfg, s, false);
    case Issue => TakenGoes(cfg, s, false);
    case Dispose(broken, ending, woken) =>
      TakenGoes(cfg, s, broken);
      EndStops(cfg, s, Taken(cfg, s, broken), m, NextCandidate(s), ending, woken, keepGoing);
    case Finish(n, ending, woken) =>
      EndStops(cfg, s, s, m, n, ending, woken, keepGoing);
    case GiveUp =>
  }

  lemma NoneIssuedMore(log: seq<Event>, more: seq<Event>)
    requires NoneIssuedAfterFailure(log) && NoneIssuedAfterFailure(more)
    requires HasFailure(log) ==> forall e | e in more :: !e.Issued?
    ensures NoneIssuedAfterFailure(log + more)
  {
    var all := log + more;
    forall i: nat, j: nat | i < j < |all| && FailureAt(all, i) ensures !all[j].Issued? {
      if i < |log| {
        assert FailureAt(log, i);
        assert j >= |log| ==> all[j] in more;
      } else {
        assert FailureAt(more, i - |log|);
      }
    }
  }

  /** A build that does not keep going issues nothing after its first failure, and is stopped exactly if there was one. */
  lemma {:induction false} FirstFailureStops(cfg: Config, run: Run, keepGoing: bool, s: State, log: seq<Event>)
    requires Produces(cfg, run, keepGoing, s, log)
    ensures s.stopped <==> !keepGoing && HasFailure(log)
    ensures !keepGoing ==> NoneIssuedAfterFailure(log)
    decreases |run.moves|
  {
    if run.moves != [] {
      var k := |run.moves| - 1;
      var before := Run(run.states[..k + 1], run.moves[..k]);
      var log' := History(before.states, before.moves);
      RunBefore(cfg, run.states, run.moves);
      FirstFailureStops(cfg, before, keepGoing, run.states[k], log');
      RunMove(cfg, run.states, run.moves, k);
      StepStops(cfg, run.states[k], run.moves[k], s, keepGoing);
      HasFailureMore(log', Events(run.states[k], run.moves[k]));
      if !keepGoing {
        NoneIssuedMore(log', Events(run.states[k], run.moves[k]));
      }
    }
  }

  lemma RunBefore(cfg: Config, states: seq<State>, moves: seq<Move>)
    requires IsRun(cfg, states, moves) && moves != []
    ensures IsRun(cfg, states[..|moves|], moves[..|moves| - 1])
  {
    var states', moves' := states[..|moves|], moves[..|moves| - 1];
    forall i | 0 <= i < |moves'| ensures StepAt(cfg, states', moves', i) {
      assert StepAt(cfg, states, moves, i);
      SameMove(cfg, states, moves, states', moves', i);
    }
  }

  // ---------------------------------------------------------------- The end of a build

  ghost predicate Stranded(cfg: Config, run: Run) {
    exists j: nat :: StrandsAt(cfg, run.states, run.moves, j)
  }

  /** Every top target is built or has failed. */
  ghost predicate TopsSettled(cfg: Config, s: State) {
    forall t | t in cfg.tops :: t in s.status && (s.status[t].Succeeded() || s.status[t].Failed?)
  }

  /**
    How a build ends: stopped exactly by a failure that it does not keep going after, with nothing issued
    since; otherwise with every top target looked at. A report without a needed cycle means that somebody
    was stranded; and if nobody was and no cycle is needed, a build that was not stopped has settled all its
    top targets.
    */
  ghost predicate EndsAsDue(cfg: Config, keepGoing: bool, s: State, log: seq<Event>, raised: bool) {
    && Traced(cfg, keepGoing, s, log)
    && (s.stopped <==> !keepGoing && FinishedIn(log, false) != {})
    && (!keepGoing ==> NoneIssuedAfterFailure(log))
    && s.candidates == []
    && (!s.stopped ==> s.topLeft == [] && forall t | t in cfg.tops :: t in s.status && !s.status[t].NoState?)
    && forall run {:trigger Produces(cfg, run, keepGoing, s, log)} | Produces(cfg, run, keepGoing, s, log) && !Stranded(cfg, run) && !CycleNeeded(cfg) ::
        !raised && (!s.stopped ==> TopsSettled(cfg, s) && PendingNodes(s) == {})
  }

  lemma EndDue(cfg: Config, keepGoing: bool, s: State, log: seq<Event>, raised: bool)
    requires Traced(cfg, keepGoing, s, log) && Idle(s) && (s.stopped || s.topLeft == []) && (raised <==> CycleReported(s))
    ensures EndsAsDue(cfg, keepGoing, s, log, raised)
  {
    var run :| Produces(cfg, run, keepGoing, s, log);
    FirstFailureStops(cfg, run, keepGoing, s, log);
    FailureFinished(log);
    EveryStateSound(cfg, run.states, run.moves, |run.moves|);
    forall run | Produces(cfg, run, keepGoing, s, log) && !Stranded(cfg, run) && !CycleNeeded(cfg)
      ensures !raised && (!s.stopped ==> TopsSettled(cfg, s) && PendingNodes(s) == {})
    {
      if raised {
        FalseReportStrands(cfg, run.states, run.moves);
        assert false;
      }
      if !s.stopped {
        KeepGoingRunEnds(cfg, run.states, run.moves);
      }
    }
  }
}
