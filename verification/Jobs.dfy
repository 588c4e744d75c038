/** The drivers that execute the tasks of a Taskmaster: one after the other, or on worker threads. */
module Jobs {
  import opened Digraphs
  import opened Scheduling
  import opened TurnLemmas
  import opened TaskLemmas
  import opened Outcome
  import opened Walk
  import opened TaskSteps
  import opened TaskLog
  import opened Taskmasters
  import opened Runs
  import opened Stranding
  import opened Traces
  import opened Wrappers

  /** Which steps of which tasks fail, and whether the build goes on after a failure. */
  datatype Faults = Faults(ready: set<Node>, prepare: set<Node>, execute: set<Node>, keepGoing: bool) {
    ghost predicate None() {
      ready == {} && prepare == {} && execute == {}
    }
  }

  /** Every step of the task of `n` works; a node that is up to date is not executed. */
  ghost predicate Works(cfg: Config, faults: Faults, n: Node) {
    n !in faults.ready && n !in faults.prepare && (n in cfg.upToDate || n !in faults.execute)
  }

  /** The task of `n` gets as far as being executed. */
  ghost predicate Executable(cfg: Config, faults: Faults, n: Node) {
    n !in faults.ready && n !in faults.prepare && n !in cfg.upToDate
  }

  /** A task has finished well exactly if all its steps work, and one not finished is being executed. */
  ghost predicate Truthful(cfg: Config, faults: Faults, log: seq<Event>) {
    && (forall n | n in FinishedIn(log, true) :: Works(cfg, faults, n))
    && (forall n | n in FinishedIn(log, false) :: !Works(cfg, faults, n))
    && (forall n | n in IssuedIn(log) && n !in FinishedIn(log, true) && n !in FinishedIn(log, false) :: Executable(cfg, faults, n))
  }

  /** The history is that of a run that leads to this state, and it is true to what the steps do. */
  ghost predicate Told(cfg: Config, faults: Faults, s: State, log: seq<Event>) {
    Truthful(cfg, faults, log) && Traced(cfg, faults.keepGoing, s, log)
  }

  lemma TruthfulSent(cfg: Config, faults: Faults, log: seq<Event>, n: Node)
    requires Truthful(cfg, faults, log) && Executable(cfg, faults, n)
    ensures Truthful(cfg, faults, log + [Issued(n)])
  {
    LogMore(log, Issued(n));
  }

  lemma TruthfulDone(cfg: Config, faults: Faults, log: seq<Event>, n: Node, ok: bool)
    requires Truthful(cfg, faults, log) && (ok <==> Works(cfg, faults, n))
    ensures Truthful(cfg, faults, log + [Issued(n)] + [Event.Finished(n, ok)])
  {
    LogMore(log, Issued(n));
    LogMore(log + [Issued(n)], Event.Finished(n, ok));
  }

  lemma TruthfulFinished(cfg: Config, faults: Faults, log: seq<Event>, n: Node, ok: bool)
    requires Truthful(cfg, faults, log) && (ok <==> n !in faults.execute)
    requires n in IssuedIn(log) && n !in FinishedIn(log, true) && n !in FinishedIn(log, false)
    ensures Truthful(cfg, faults, log + [Event.Finished(n, ok)])
  {
    LogMore(log, Event.Finished(n, ok));
  }

  // ---------------------------------------------------------------- Finishing one task

  /** `executed` and then `postprocess`. */
  method Succeed(tm: Taskmaster, n: Node)
    requires InHand(tm.cfg, tm.Snapshot(), n) && (tm.status[n].Executing? || tm.status[n].UpToDate?)
    modifies tm
    ensures Sound(tm.cfg, tm.Snapshot())
    ensures StatusAfter(old(tm.status), tm.status, n, true)
    ensures old(CleanWith(tm.cfg, tm.Snapshot(), {n})) ==> CleanWith(tm.cfg, tm.Snapshot(), {})
    ensures Ends(old(tm.Snapshot()), n, Well, tm.Snapshot())
  {
    ghost var s := tm.Snapshot();
    WaitersKnown(Deps(tm.cfg), s, {n});
    tm.Executed(n);
    tm.Postprocess(n);
    SuccessDone(tm.cfg, s, n, tm.candidates[|s.candidates|..], tm.Snapshot());
  }

  lemma SuccessDone(cfg: Config, s: State, n: Node, woken: seq<Node>, s': State)
    requires InHand(cfg, s, n) && (s.status[n].Executing? || s.status[n].UpToDate?)
    requires Wakes(MarkExecuted(s, n), n, woken) && s' == Postprocess(MarkExecuted(s, n), n, woken)
    ensures Sound(cfg, s') && StatusAfter(s.status, s'.status, n, true)
    ensures CleanWith(cfg, s, {n}) ==> CleanWith(cfg, s', {})
    ensures Ends(s, n, Well, s')
  {
    SuccessSound(cfg, s, n, woken);
    assert CanEnd(s, n, Well, woken);
  }

  /** `failed`, which stops the build unless it keeps going, and then `postprocess`. */
  method Fail(tm: Taskmaster, n: Node, keepGoing: bool)
    requires InHand(tm.cfg, tm.Snapshot(), n)
    modifies tm
    ensures Sound(tm.cfg, tm.Snapshot())
    ensures StatusAfter(old(tm.status), tm.status, n, false)
    ensures Ends(old(tm.Snapshot()), n, if keepGoing then Badly else Fatally, tm.Snapshot())
  {
    ghost var s := tm.Snapshot();
    FailedSound(tm.cfg, s, n);
    FailedStatus(tm.cfg, s, n);
    FailingKnown(tm.cfg, s, n);
    var target := n;
    if keepGoing {
      tm.FailContinue(n);
    } else {
      target := tm.FailStop(n);
    }
    WaitersKnown(Deps(tm.cfg), tm.Snapshot(), {});
    tm.Postprocess(target);
    if keepGoing {
      FailContinueSound(tm.cfg, s, n, tm.candidates[|s.candidates|..]);
    } else {
      FailStopSound(tm.cfg, s, n, target, tm.candidates[|s.candidates|..]);
    }
    FailureEnds(s, n, keepGoing, target, tm.candidates[|s.candidates|..]);
  }

  lemma FailureEnds(s: State, n: Node, keepGoing: bool, target: Node, woken: seq<Node>)
    requires n in s.status && s.currentTop.Some? && target == (if keepGoing then n else s.currentTop.value)
    requires Wakes(if keepGoing then WillNotBuild(s, {n}, true) else FailAndStop(s, n), target, woken)
    ensures Ends(s, n, if keepGoing then Badly else Fatally,
                 Postprocess(if keepGoing then WillNotBuild(s, {n}, true) else FailAndStop(s, n), target, woken))
  {
    assert CanEnd(s, n, if keepGoing then Badly else Fatally, woken);
  }

  lemma FailingKnown(cfg: Config, s: State, n: Node)
    requires InHand(cfg, s, n)
    ensures Over(Deps(cfg), s) && ClosedUnder(s.waiting, Deps(cfg).Keys) && n in Deps(cfg)
    ensures s.currentTop.Some? && s.currentTop.value in Deps(cfg)
  {
    WaitersKnown(Deps(cfg), s, {n});
  }

  // ---------------------------------------------------------------- What every run achieves

  ghost function NodesWith(g: Digraph, status: map<Node, Status>, st: Status): set<Node> {
    set n | n in g && n in status && status[n] == st
  }

  ghost function UnfinishedNodes(g: Digraph, status: map<Node, Status>): set<Node> {
    set n | n in g && n in status && status[n].Unfinished()
  }

  /** How many nodes the run has still to deal with. */
  ghost function Left(g: Digraph, status: map<Node, Status>): nat {
    |UnfinishedNodes(g, status)|
  }

  lemma FewerLeft(a: set<Node>, b: set<Node>)
    requires a <= b
    ensures |a| <= |b| && (a < b ==> |a| < |b|)
  {
    assert b == a + (b - a);
  }

  /** Between two tasks: the bookkeeping is sound and the history is well ordered and matches it. */
  ghost predicate AtRest(cfg: Config, s: State, log: seq<Event>, faultless: bool) {
    && Sound(cfg, s)
    && WellOrdered(Deps(cfg), log)
    && LogMatches(Deps(cfg), log, s.status)
    && (faultless ==> CleanWith(cfg, s, {}))
  }

  /** What holds when a driver returns. */
  ghost predicate RunOver(cfg: Config, s: State, log: seq<Event>, faultless: bool, raised: bool) {
    && Sound(cfg, s)
    && WellOrdered(Deps(cfg), log)
    && LogMatches(Deps(cfg), log, s.status)
    && NodesWith(Deps(cfg), s.status, Executing) == {}
    && (raised <==> CycleReported(s))
    && (faultless ==>
        && (forall n | n in cfg.children :: n in s.status && s.status[n] == FinalStatus(cfg, n))
        && (raised <==> CycleNeeded(cfg))
        && (!raised ==> s.pendingChildren == {}))
  }

  lemma NoneExecuting(g: Digraph, s: State)
    requires Confined(g.Keys, s) && NodesWith(g, s.status, Executing) == {}
    ensures forall n {:trigger s.status[n]} | n in s.status :: !s.status[n].Executing?
  {
    forall n | n in s.status ensures !s.status[n].Executing? {
      assert n !in NodesWith(g, s.status, Executing);
    }
  }

  lemma RunIsOver(cfg: Config, s: State, log: seq<Event>, faultless: bool, raised: bool)
    requires AtRest(cfg, s, log, faultless) && (raised <==> CycleReported(s))
    requires NodesWith(Deps(cfg), s.status, Executing) == {}
    requires s.candidates == [] && (s.stopped || s.topLeft == [])
    ensures RunOver(cfg, s, log, faultless, raised)
  {
    if faultless {
      NoneExecuting(Deps(cfg), s);
      FinalStates(cfg, s);
      CycleReportExact(cfg, s);
    }
  }

  lemma RunIsDue(cfg: Config, keepGoing: bool, s: State, log: seq<Event>, raised: bool)
    requires Sound(cfg, s) && Traced(cfg, keepGoing, s, log) && (raised <==> CycleReported(s))
    requires NodesWith(Deps(cfg), s.status, Executing) == {}
    requires s.candidates == [] && (s.stopped || s.topLeft == [])
    ensures EndsAsDue(cfg, keepGoing, s, log, raised)
  {
    NoneExecuting(Deps(cfg), s);
    EndDue(cfg, keepGoing, s, log, raised);
  }

  // ---------------------------------------------------------------- One task at a time

  /** The main thread has the task of `n` in hand, and the history says so. */
  ghost predicate Holding(cfg: Config, s: State, log: seq<Event>, n: Node, faultless: bool) {
    && InHand(cfg, s, n)
    && WellOrdered(Deps(cfg), log)
    && LogMatchesBut(Deps(cfg), log, s.status, n)
    && (faultless ==> CleanWith(cfg, s, {n}))
  }

  lemma Issue(cfg: Config, s: State, s': State, log: seq<Event>, n: Node, faults: Faults)
    requires AtRest(cfg, s, log, faults.None()) && HandsOut(cfg, s, s', n, faults.ready)
    requires faults.None() ==> CleanWith(cfg, s', {n})
    ensures Holding(cfg, s', log + [Issued(n)], n, faults.None())
    ensures s'.status[n].Executing? ==> AtRest(cfg, s', log + [Issued(n)], faults.None())
  {
    DepsClosed(cfg);
    LogIssued(Deps(cfg), log, s, s', n);
    if s'.status[n].Executing? {
      ExecutingSound(cfg, s', n);
    }
  }

  /** Asks for the next task. */
  method Take(tm: Taskmaster, faults: Faults, ghost log: seq<Event>) returns (node: Option<Node>)
    requires AtRest(tm.cfg, tm.Snapshot(), log, faults.None()) && Traced(tm.cfg, faults.keepGoing, tm.Snapshot(), log)
    modifies tm
    ensures node.None? ==> Traced(tm.cfg, faults.keepGoing, tm.Snapshot(), log)
    ensures node.Some? ==> TracedInHand(tm.cfg, faults.keepGoing, tm.Snapshot(), log + [Issued(node.value)], node.value)
    ensures node.None? ==>
      AtRest(tm.cfg, tm.Snapshot(), log, faults.None()) && FindsNone(tm.cfg, old(tm.Snapshot()), tm.Snapshot())
    ensures node.Some? ==>
      && Holding(tm.cfg, tm.Snapshot(), log + [Issued(node.value)], node.value, faults.None())
      && HandsOut(tm.cfg, old(tm.Snapshot()), tm.Snapshot(), node.value, faults.ready)
      && (tm.status[node.value].Executing? ==>
          AtRest(tm.cfg, tm.Snapshot(), log + [Issued(node.value)], faults.None()))
  {
    ghost var s := tm.Snapshot();
    NextTaskSound(tm.cfg, s, faults.ready);
    NextTaskTraced(tm.cfg, faults.keepGoing, s, log, faults.ready);
    if faults.None() {
      NextTaskClean(tm.cfg, s);
    }
    node := tm.NextTask(faults.ready);
    if node.Some? {
      Issue(tm.cfg, s, tm.Snapshot(), log, node.value, faults);
    } else {
      LogSearch(Deps(tm.cfg), log, s, tm.Snapshot());
    }
  }

  lemma Finished(cfg: Config, s: State, s': State, log: seq<Event>, n: Node, ok: bool, faultless: bool)
    requires Holding(cfg, s, log, n, faultless) && (ok ==> s.status[n].Executing? || s.status[n].UpToDate?)
    requires Sound(cfg, s') && StatusAfter(s.status, s'.status, n, ok) && (faultless ==> CleanWith(cfg, s', {}))
    ensures AtRest(cfg, s', log + [Event.Finished(n, ok)], faultless)
  {
    LogFinished(Deps(cfg), log, s.status, s'.status, n, ok);
  }

  /** Calls `executed` or `failed` as the case may be, and then `postprocess`. */
  method Complete(tm: Taskmaster, n: Node, ok: bool, faults: Faults, ghost log: seq<Event>)
    requires Holding(tm.cfg, tm.Snapshot(), log, n, faults.None())
    requires ok ==> tm.status[n].Executing? || tm.status[n].UpToDate?
    requires faults.None() ==> ok
    requires TracedInHand(tm.cfg, faults.keepGoing, tm.Snapshot(), log, n)
    modifies tm
    ensures Traced(tm.cfg, faults.keepGoing, tm.Snapshot(), log + [Event.Finished(n, ok)])
    ensures AtRest(tm.cfg, tm.Snapshot(), log + [Event.Finished(n, ok)], faults.None())
    ensures StatusAfter(old(tm.status), tm.status, n, ok)
  {
    if ok {
      Succeed(tm, n);
    } else {
      Fail(tm, n, faults.keepGoing);
    }
    Finished(tm.cfg, old(tm.Snapshot()), tm.Snapshot(), log, n, ok, faults.None());
    EndTraced(tm.cfg, faults.keepGoing, old(tm.Snapshot()), log, n, ok, tm.Snapshot());
  }

  /** Every task takes a node out of the unfinished ones, and a search never adds any. */
  lemma TaskProgress(g: Digraph, s: State, s1: State, status': map<Node, Status>, n: Node, ok: bool)
    requires Over(g, s) && Over(g, s1) && TaskIssued(g, s, s1, n) && StatusAfter(s1.status, status', n, ok)
    requires ok ==> s1.status[n].Executing? || s1.status[n].UpToDate?
    ensures Left(g, status') < Left(g, s.status)
    ensures NodesWith(g, s.status, Executing) == {} ==> NodesWith(g, status', Executing) == {}
  {
    forall m | m in g && m != n ensures s1.status[m] == s1.status[n := Pending][m] {
    }
    assert n in UnfinishedNodes(g, s.status) && n !in UnfinishedNodes(g, status');
    FewerLeft(UnfinishedNodes(g, status'), UnfinishedNodes(g, s.status));
  }

  lemma SearchProgress(g: Digraph, s: State, s': State)
    requires Over(g, s) && OnlyVisits(s.status, s'.status)
    ensures Left(g, s'.status) <= Left(g, s.status)
    ensures NodesWith(g, s'.status, Executing) == NodesWith(g, s.status, Executing)
  {
    FewerLeft(UnfinishedNodes(g, s'.status), UnfinishedNodes(g, s.status));
  }

  // ---------------------------------------------------------------- One after the other

  class Serial {
    const tm: Taskmaster
    ghost var log: seq<Event>

    constructor (tm: Taskmaster)
      ensures this.tm == tm && log == []
    {
      this.tm := tm;
      log := [];
    }

    method Start(faults: Faults) returns (raised: bool, report: map<Node, seq<Node>>)
      requires ValidConfig(tm.cfg) && tm.Snapshot() == Init(tm.cfg) && log == []
      modifies this, tm
      ensures RunOver(tm.cfg, tm.Snapshot(), log, faults.None(), raised)
      ensures Truthful(tm.cfg, faults, log)
      ensures EndsAsDue(tm.cfg, faults.keepGoing, tm.Snapshot(), log, raised)
    {
      InitAtRest(tm.cfg, faults.None());
      Begins(tm.cfg, faults.keepGoing);
      var drained := false;
      while !drained
        invariant AtRest(tm.cfg, tm.Snapshot(), log, faults.None()) && Told(tm.cfg, faults, tm.Snapshot(), log)
        invariant NodesWith(Deps(tm.cfg), tm.status, Executing) == {}
        invariant drained ==> tm.candidates == [] && (tm.stopped || tm.topTargetsLeft == [])
        decreases Left(Deps(tm.cfg), tm.status), !drained
      {
        drained := RunOne(faults);
      }
      WaitersKnown(Deps(tm.cfg), tm.Snapshot(), {});
      raised, report := tm.Cleanup();
      RunIsOver(tm.cfg, tm.Snapshot(), log, faults.None(), raised);
      RunIsDue(tm.cfg, faults.keepGoing, tm.Snapshot(), log, raised);
    }

    /** Takes the next task through all its steps, or finds that there is none. */
    method RunOne(faults: Faults) returns (drained: bool)
      requires AtRest(tm.cfg, tm.Snapshot(), log, faults.None()) && Told(tm.cfg, faults, tm.Snapshot(), log)
      requires NodesWith(Deps(tm.cfg), tm.status, Executing) == {}
      modifies this, tm
      ensures AtRest(tm.cfg, tm.Snapshot(), log, faults.None()) && Told(tm.cfg, faults, tm.Snapshot(), log)
      ensures NodesWith(Deps(tm.cfg), tm.status, Executing) == {}
      ensures drained ==> tm.candidates == [] && (tm.stopped || tm.topTargetsLeft == [])
      ensures drained ==> Left(Deps(tm.cfg), tm.status) <= Left(Deps(tm.cfg), old(tm.status))
      ensures !drained ==> Left(Deps(tm.cfg), tm.status) < Left(Deps(tm.cfg), old(tm.status))
    {
      ghost var s := tm.Snapshot();
      var node := Take(tm, faults, log);
      if node.None? {
        SearchProgress(Deps(tm.cfg), s, tm.Snapshot());
        return true;
      }
      ghost var s1 := tm.Snapshot();
      var ok;
      ok, log := RunTask(node.value, faults, log);
      TaskProgress(Deps(tm.cfg), s, s1, tm.status, node.value, ok);
      drained := false;
    }

    /** Takes the task in hand through its steps and finishes it. */
    method RunTask(n: Node, faults: Faults, ghost before: seq<Event>) returns (ok: bool, ghost after: seq<Event>)
      requires Holding(tm.cfg, tm.Snapshot(), before + [Issued(n)], n, faults.None()) && Truthful(tm.cfg, faults, before)
      requires TracedInHand(tm.cfg, faults.keepGoing, tm.Snapshot(), before + [Issued(n)], n)
      requires n !in faults.ready ==> tm.status[n] == (if n in tm.cfg.upToDate then UpToDate else Executing)
      modifies tm
      ensures AtRest(tm.cfg, tm.Snapshot(), after, faults.None()) && Told(tm.cfg, faults, tm.Snapshot(), after)
      ensures after == before + [Issued(n), Event.Finished(n, ok)]
      ensures StatusAfter(old(tm.status), tm.status, n, ok)
      ensures ok ==> old(tm.status)[n].Executing? || old(tm.status)[n].UpToDate?
    {
      ok := Execute(n, faults);
      TruthfulDone(tm.cfg, faults, before, n, ok);
      after := before + [Issued(n)] + [Event.Finished(n, ok)];
      OneByOne(before, Issued(n), Event.Finished(n, ok));
      Complete(tm, n, ok, faults, before + [Issued(n)]);
    }

    /** Prepares the task and executes it if its node is out of date. */
    method Execute(n: Node, faults: Faults) returns (ok: bool)
      requires n in tm.status
      requires n !in faults.ready ==> tm.status[n] == (if n in tm.cfg.upToDate then UpToDate else Executing)
      ensures ok <==> Works(tm.cfg, faults, n)
      ensures ok ==> tm.status[n].Executing? || tm.status[n].UpToDate?
    {
      ok := n !in faults.ready && n !in faults.prepare;
      if ok && tm.status[n] == Executing {
        ok := n !in faults.execute;
      }
    }
  }

  lemma InitAtRest(cfg: Config, faultless: bool)
    requires ValidConfig(cfg)
    ensures AtRest(cfg, Init(cfg), [], faultless)
    ensures NodesWith(Deps(cfg), Init(cfg).status, Executing) == {}
  {
    InitSound(cfg);
  }
}
