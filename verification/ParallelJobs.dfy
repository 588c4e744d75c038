/**
  The parallel driver: the main thread hands tasks to worker threads through a request queue and
  collects them from a results queue. Worker threads take their steps between any two steps of
  the main thread, in any number and order.
  */
module ParallelJobs {
  import opened Digraphs
  import opened Scheduling
  import opened TurnLemmas
  import opened TaskLemmas
  import opened Outcome
  import opened Walk
  import opened TaskSteps
  import opened TaskLog
  import opened Taskmasters
  import opened Jobs
  import opened Traces
  import opened Wrappers

  datatype Worker = Idle | Busy(node: Node) | Gone

  /** A request is a task, or the sentinel `None` that tells a worker to quit. */
  ghost function Asked(request: Option<Node>): multiset<Node> {
    if request.Some? then multiset{request.value} else multiset{}
  }

  ghost function Held(worker: Worker): multiset<Node> {
    if worker.Busy? then multiset{worker.node} else multiset{}
  }

  ghost function AllAsked(requests: seq<Option<Node>>): multiset<Node> {
    if requests == [] then multiset{} else Asked(requests[0]) + AllAsked(requests[1..])
  }

  ghost function AllHeld(workers: seq<Worker>): multiset<Node> {
    if workers == [] then multiset{} else Held(workers[0]) + AllHeld(workers[1..])
  }

  ghost function AllDone(results: seq<(Node, bool)>): multiset<Node> {
    if results == [] then multiset{} else multiset{results[0].0} + AllDone(results[1..])
  }

  lemma AskedMore(requests: seq<Option<Node>>, r: Option<Node>)
    ensures AllAsked(requests + [r]) == AllAsked(requests) + Asked(r)
  {
    if requests == [] {
      assert requests + [r] == [r];
    } else {
      assert (requests + [r])[1..] == requests[1..] + [r];
      AskedMore(requests[1..], r);
    }
  }

  lemma DoneMore(results: seq<(Node, bool)>, r: (Node, bool))
    ensures AllDone(results + [r]) == AllDone(results) + multiset{r.0}
  {
    if results == [] {
      assert results + [r] == [r];
    } else {
      assert (results + [r])[1..] == results[1..] + [r];
      DoneMore(results[1..], r);
    }
  }

  lemma Shift(a: multiset<Node>, r: multiset<Node>, r': multiset<Node>, x: multiset<Node>, y: multiset<Node>)
    requires r' + x == r + y
    ensures (a + r') + x == (a + r) + y
  {
    assert (a + r') + x == a + (r' + x);
  }

  lemma HeldChange(workers: seq<Worker>, i: nat, w: Worker)
    requires i < |workers|
    ensures AllHeld(workers[i := w]) + Held(workers[i]) == AllHeld(workers) + Held(w)
  {
    var rest := workers[1..];
    if i == 0 {
      assert workers[0 := w][1..] == rest;
      assert AllHeld(workers[0 := w]) == Held(w) + AllHeld(rest);
    } else {
      assert workers[i := w][1..] == rest[i - 1 := w];
      HeldChange(rest, i - 1, w);
      Shift(Held(workers[0]), AllHeld(rest), AllHeld(rest[i - 1 := w]), Held(workers[i]), Held(w));
    }
  }

  lemma HeldByNone(workers: seq<Worker>)
    requires forall i | 0 <= i < |workers| :: !workers[i].Busy?
    ensures AllHeld(workers) == multiset{}
  {
    if workers != [] {
      assert forall i | 0 <= i < |workers[1..]| :: workers[1..][i] == workers[i + 1];
      HeldByNone(workers[1..]);
    }
  }

  lemma Move(a: multiset<Node>, b: multiset<Node>, b': multiset<Node>, c: multiset<Node>, x: multiset<Node>)
    requires b' + x == b
    ensures a + b + c == a + b' + (c + x) == (a + x) + b' + c
    ensures |b| == |b'| + |x|
  {
    assert |b' + x| == |b'| + |x|;
  }

  lemma PostConserves(asked: multiset<Node>, workers: seq<Worker>, results: seq<(Node, bool)>, i: nat, ok: bool)
    requires i < |workers| && workers[i].Busy?
    ensures asked + AllHeld(workers[i := Idle]) + AllDone(results + [(workers[i].node, ok)])
         == asked + AllHeld(workers) + AllDone(results)
    ensures |AllHeld(workers)| == |AllHeld(workers[i := Idle])| + 1
  {
    HeldChange(workers, i, Idle);
    DoneMore(results, (workers[i].node, ok));
    Move(asked, AllHeld(workers), AllHeld(workers[i := Idle]), AllDone(results), multiset{workers[i].node});
  }

  /** A worker that can take a step: it has finished its task, or a request is waiting for it. */
  predicate CanStep(requests: seq<Option<Node>>, worker: Worker) {
    worker.Busy? || (worker.Idle? && requests != [])
  }

  /** Each result tells truly whether its task has failed. */
  ghost predicate HonestResults(results: seq<(Node, bool)>, fails: set<Node>) {
    forall i | 0 <= i < |results| :: results[i].1 <==> results[i].0 !in fails
  }

  lemma HonestMore(results: seq<(Node, bool)>, fails: set<Node>, r: (Node, bool))
    requires HonestResults(results, fails) && (r.1 <==> r.0 !in fails)
    ensures HonestResults(results + [r], fails)
  {
  }

  ghost predicate NoneQuits(requests: seq<Option<Node>>, workers: seq<Worker>) {
    && (forall i | 0 <= i < |requests| :: requests[i].Some?)
    && (forall i | 0 <= i < |workers| :: !workers[i].Gone?)
  }

  lemma StepQuits(requests: seq<Option<Node>>, workers: seq<Worker>, i: nat)
    requires NoneQuits(requests, workers) && i < |workers|
    ensures NoneQuits(requests, workers[i := Idle])
    ensures requests != [] ==> requests[0].Some? && NoneQuits(requests[1..], workers[i := Busy(requests[0].value)])
  {
  }

  class ThreadPool {
    var requests: seq<Option<Node>>
    var results: seq<(Node, bool)>
    var workers: seq<Worker>
    const num: nat
    const executeFails: set<Node>

    ghost predicate Valid()
      reads this
    {
      |workers| == num && HonestResults(results, executeFails)
    }

    /** The tasks that are queued, held by workers, or finished and not collected yet. */
    ghost function InFlight(): multiset<Node>
      reads this
    {
      AllAsked(requests) + AllHeld(workers) + AllDone(results)
    }

    ghost function Work(): nat
      reads this
    {
      2 * |requests| + |AllHeld(workers)|
    }

    constructor (num: nat, executeFails: set<Node>)
      ensures this.num == num && this.executeFails == executeFails && Valid()
      ensures requests == [] && results == [] && InFlight() == multiset{}
      ensures forall i | 0 <= i < num :: workers[i] == Idle
    {
      this.num := num;
      this.executeFails := executeFails;
      requests, results := [], [];
      workers := seq(num, i => Idle);
      new;
      HeldByNone(workers);
    }

    /** The worker thread `i` has executed its task and posts the result. */
    method Post(i: nat)
      requires Valid() && i < num && workers[i].Busy?
      modifies this
      ensures Valid() && InFlight() == old(InFlight()) && Work() < old(Work())
      ensures workers == old(workers)[i := Idle] && requests == old(requests)
      ensures results == old(results) + [(old(workers[i]).node, old(workers[i]).node !in executeFails)]
    {
      var n := workers[i].node;
      PostConserves(AllAsked(requests), workers, results, i, n !in executeFails);
      HonestMore(results, executeFails, (n, n !in executeFails));
      results := results + [(n, n !in executeFails)];
      workers := workers[i := Idle];
    }

    /** The worker thread `i` takes the next request: a task, or the sentinel that ends it. */
    method Fetch(i: nat)
      requires Valid() && i < num && workers[i].Idle? && requests != []
      modifies this
      ensures Valid() && InFlight() == old(InFlight()) && Work() < old(Work())
      ensures results == old(results) && requests == old(requests)[1..]
      ensures workers == old(workers)[i := if old(requests)[0].Some? then Busy(old(requests)[0].value) else Gone]
    {
      var w := if requests[0].Some? then Busy(requests[0].value) else Gone;
      HeldChange(workers, i, w);
      Move(AllAsked(requests[1..]), AllHeld(workers[i := w]), AllHeld(workers), AllDone(results), Asked(requests[0]));
      workers := workers[i := w];
      requests := requests[1..];
    }

    /** Neither a queued sentinel nor a worker that has quit. */
    ghost predicate Open()
      reads this
    {
      NoneQuits(requests, workers)
    }

    method Step(i: nat)
      requires Valid() && Open() && i < num && CanStep(requests, workers[i])
      modifies this
      ensures Valid() && Open() && InFlight() == old(InFlight()) && Work() < old(Work())
      ensures old(results) <= results
    {
      StepQuits(requests, workers, i);
      if workers[i].Busy? {
        Post(i);
      } else {
        Fetch(i);
      }
    }

    /** The worker threads run for a while: any number of steps, in any order. */
    method RunWorkers()
      requires Valid() && Open()
      modifies this
      ensures Valid() && Open() && InFlight() == old(InFlight())
      ensures old(results) <= results
    {
      var more: bool := *;
      while more && exists i :: 0 <= i < num && CanStep(requests, workers[i])
        invariant Valid() && Open() && InFlight() == old(InFlight())
        invariant old(results) <= results
        decreases Work()
      {
        var i :| 0 <= i < num && CanStep(requests, workers[i]);
        Step(i);
        more := *;
      }
    }

    method Put(n: Node)
      requires Valid() && Open()
      modifies this
      ensures Valid() && Open() && InFlight() == old(InFlight()) + multiset{n}
    {
      AskedMore(requests, Some(n));
      requests := requests + [Some(n)];
    }

    /**
      The blocking `get`. While no result is there, some worker can take a step: the main thread
      never waits in vain as long as a task is in flight.
      */
    method Get() returns (n: Node, ok: bool)
      requires Valid() && Open() && num > 0 && |InFlight()| > 0
      modifies this
      ensures Valid() && Open()
      ensures InFlight() + multiset{n} == old(InFlight())
      ensures ok <==> n !in executeFails
    {
      while results == []
        invariant Valid() && Open() && InFlight() == old(InFlight())
        decreases Work()
      {
        SomeCanStep(requests, workers);
        var i :| 0 <= i < num && CanStep(requests, workers[i]);
        Step(i);
      }
      RunWorkers();
      n, ok := results[0].0, results[0].1;
      results := results[1..];
    }

    /** Only sentinels are queued, one for each worker that is still there, and nobody has a task. */
    ghost predicate Closing()
      reads this
    {
      && |workers| == num && results == []
      && (forall i | 0 <= i < |requests| :: requests[i].None?)
      && (forall i | 0 <= i < num :: !workers[i].Busy?)
      && |requests| == |Alive(workers)|
    }

    /** The worker `i` takes a sentinel and quits. */
    method Quit(i: nat)
      requires Closing() && i < num && workers[i].Idle?
      modifies this
      ensures Closing() && |requests| == |old(requests)| - 1
    {
      OneMoreGone(workers, i);
      assert requests != [];
      Fetch(i);
    }

    /** Shuts the pool down: one sentinel for each worker, and every worker quits. */
    method Cleanup()
      requires Valid() && Open() && InFlight() == multiset{}
      modifies this
      ensures Valid() && InFlight() == multiset{} && requests == [] && results == []
      ensures forall i | 0 <= i < num :: workers[i] == Gone
    {
      EmptyFlight(requests, workers, results);
      AllAlive(workers);
      requests := requests + seq(num, i => None);
      while exists i :: 0 <= i < num && workers[i].Idle?
        invariant Closing()
        decreases |requests|
      {
        var i :| 0 <= i < num && workers[i].Idle?;
        Quit(i);
      }
      AllGone(workers);
      HeldByNone(workers);
    }
  }

  ghost function Alive(workers: seq<Worker>): set<nat> {
    set i | 0 <= i < |workers| && !workers[i].Gone?
  }

  lemma OneMoreGone(workers: seq<Worker>, i: nat)
    requires i < |workers| && !workers[i].Gone?
    ensures |Alive(workers)| == |Alive(workers[i := Gone])| + 1
  {
    assert i in Alive(workers);
    assert Alive(workers[i := Gone]) == Alive(workers) - {i};
  }

  lemma AllGone(workers: seq<Worker>)
    requires forall i | 0 <= i < |workers| :: workers[i].Gone?
    ensures |Alive(workers)| == 0
  {
    assert Alive(workers) == {};
  }

  lemma AllAlive(workers: seq<Worker>)
    requires forall i | 0 <= i < |workers| :: !workers[i].Gone?
    ensures |Alive(workers)| == |workers|
  {
    if workers == [] {
      assert Alive(workers) == {};
    } else {
      var v := workers[..|workers| - 1];
      AllAlive(v);
      assert Alive(workers) == Alive(v) + {|workers| - 1};
    }
  }

  lemma EmptyFlight(requests: seq<Option<Node>>, workers: seq<Worker>, results: seq<(Node, bool)>)
    requires AllAsked(requests) + AllHeld(workers) + AllDone(results) == multiset{}
    requires forall i | 0 <= i < |requests| :: requests[i].Some?
    ensures requests == [] && results == []
    ensures forall i | 0 <= i < |workers| :: !workers[i].Busy?
  {
    assert AllAsked(requests) == multiset{} && AllDone(results) == multiset{};
    forall i | 0 <= i < |workers| && workers[i].Busy? ensures workers[i].node in AllHeld(workers) {
      HeldMember(workers, i);
    }
  }

  lemma HeldMember(workers: seq<Worker>, i: nat)
    requires i < |workers| && workers[i].Busy?
    ensures workers[i].node in AllHeld(workers)
  {
    if i > 0 {
      HeldMember(workers[1..], i - 1);
    }
  }

  /** With a task in flight and no result to collect, some worker can take a step. */
  lemma SomeCanStep(requests: seq<Option<Node>>, workers: seq<Worker>)
    requires |AllAsked(requests) + AllHeld(workers)| > 0 && |workers| > 0
    requires forall i | 0 <= i < |workers| :: !workers[i].Gone?
    ensures exists i :: 0 <= i < |workers| && CanStep(requests, workers[i])
  {
    if forall i | 0 <= i < |workers| :: !workers[i].Busy? {
      HeldByNone(workers);
      assert requests != [] && CanStep(requests, workers[0]);
    }
  }

  // ---------------------------------------------------------------- The main thread

  /** The tasks in flight are exactly the executing nodes, each of them once. */
  ghost predicate Tracked(g: Digraph, status: map<Node, Status>, inFlight: multiset<Node>) {
    forall n: Node {:trigger inFlight[n]} ::
      inFlight[n] == if n in g && n in status && status[n].Executing? then 1 else 0
  }

  lemma TrackIssued(g: Digraph, s: State, s': State, n: Node, inFlight: multiset<Node>)
    requires Over(g, s) && Over(g, s') && TaskIssued(g, s, s', n) && Tracked(g, s.status, inFlight)
    ensures Tracked(g, s'.status, if s'.status[n].Executing? then inFlight + multiset{n} else inFlight)
  {
    forall m | m in g && m != n ensures s'.status[m] == s'.status[n := Pending][m] {
    }
  }

  /** A task that is finished in the same breath leaves the tasks in flight as they were. */
  lemma TrackDone(g: Digraph, status: map<Node, Status>, status': map<Node, Status>, n: Node, ok: bool, inFlight: multiset<Node>)
    requires Tracked(g, status, inFlight) && n in status && !status[n].Executing?
    requires StatusAfter(status, status', n, ok) && forall m {:trigger m in g} | m in g :: m in status
    ensures Tracked(g, status', inFlight)
  {
  }

  lemma TrackFinished(g: Digraph, status: map<Node, Status>, status': map<Node, Status>, n: Node, ok: bool, inFlight: multiset<Node>)
    requires Tracked(g, status, inFlight + multiset{n})
    requires StatusAfter(status, status', n, ok) && forall m {:trigger m in g} | m in g :: m in status
    ensures Tracked(g, status', inFlight)
  {
    var before := inFlight + multiset{n};
    forall m: Node ensures inFlight[m] == if m in g && m in status' && status'[m].Executing? then 1 else 0 {
      assert before[m] == if m in g && m in status && status[m].Executing? then 1 else 0;
    }
  }

  /**
    Asks for a task. A task that is to be executed is handed back; one whose preparation failed,
    or whose node is up to date, is finished on the spot.
    */
  method PrepareNext(tm: Taskmaster, faults: Faults, ghost log: seq<Event>, ghost inFlight: multiset<Node>)
    returns (found: bool, toRun: Option<Node>, ghost log': seq<Event>, ghost flight: multiset<Node>)
    requires AtRest(tm.cfg, tm.Snapshot(), log, faults.None()) && Tracked(Deps(tm.cfg), tm.status, inFlight)
    requires Told(tm.cfg, faults, tm.Snapshot(), log)
    modifies tm
    ensures AtRest(tm.cfg, tm.Snapshot(), log', faults.None()) && Told(tm.cfg, faults, tm.Snapshot(), log')
    ensures toRun.Some? ==> Executable(tm.cfg, faults, toRun.value)
    ensures flight == if toRun.Some? then inFlight + multiset{toRun.value} else inFlight
    ensures Tracked(Deps(tm.cfg), tm.status, flight)
    ensures Left(Deps(tm.cfg), tm.status) <= Left(Deps(tm.cfg), old(tm.status))
    ensures found && toRun.None? ==> Left(Deps(tm.cfg), tm.status) < Left(Deps(tm.cfg), old(tm.status))
    ensures !found ==> toRun.None? && tm.candidates == [] && (tm.stopped || tm.topTargetsLeft == [])
  {
    ghost var g, s := Deps(tm.cfg), tm.Snapshot();
    var node := Take(tm, faults, log);
    toRun, log', flight := None, log, inFlight;
    if node.None? {
      SearchProgress(g, s, tm.Snapshot());
      TrackSearch(g, s, tm.Snapshot(), inFlight);
      return false, None, log, inFlight;
    }
    found := true;
    var n := node.value;
    log' := log + [Issued(n)];
    TrackIssued(g, s, tm.Snapshot(), n, inFlight);
    if n !in faults.ready && n !in faults.prepare && tm.status[n] == Executing {
      IssuedLeft(g, s, tm.Snapshot(), n);
      TruthfulSent(tm.cfg, faults, log, n);
      toRun, flight := node, inFlight + multiset{n};
    } else {
      TruthfulDone(tm.cfg, faults, log, n, n !in faults.ready && n !in faults.prepare);
      FinishNow(tm, n, faults, log', s, inFlight);
      log' := log' + [Event.Finished(n, n !in faults.ready && n !in faults.prepare)];
    }
  }

  /** A task that is not dispatched: its preparation failed, or its node is up to date. */
  method FinishNow(tm: Taskmaster, n: Node, faults: Faults, ghost log: seq<Event>, ghost s: State, ghost inFlight: multiset<Node>)
    requires Holding(tm.cfg, tm.Snapshot(), log, n, faults.None())
    requires HandsOut(tm.cfg, s, tm.Snapshot(), n, faults.ready) && Over(Deps(tm.cfg), s)
    requires Tracked(Deps(tm.cfg), tm.status, if tm.status[n].Executing? then inFlight + multiset{n} else inFlight)
    requires n in faults.ready || n in faults.prepare || tm.status[n] != Executing
    requires TracedInHand(tm.cfg, faults.keepGoing, tm.Snapshot(), log, n)
    modifies tm
    ensures Traced(tm.cfg, faults.keepGoing, tm.Snapshot(), log + [Event.Finished(n, n !in faults.ready && n !in faults.prepare)])
    ensures AtRest(tm.cfg, tm.Snapshot(), log + [Event.Finished(n, n !in faults.ready && n !in faults.prepare)], faults.None())
    ensures Tracked(Deps(tm.cfg), tm.status, inFlight)
    ensures Left(Deps(tm.cfg), tm.status) < Left(Deps(tm.cfg), s.status)
  {
    ghost var g, s1 := Deps(tm.cfg), tm.Snapshot();
    var ok := n !in faults.ready && n !in faults.prepare;
    Complete(tm, n, ok, faults, log);
    TaskProgress(g, s, s1, tm.status, n, ok);
    if s1.status[n].Executing? {
      TrackFinished(g, s1.status, tm.status, n, ok, inFlight);
    } else {
      TrackDone(g, s1.status, tm.status, n, ok, inFlight);
    }
  }

  /** Finishes a task that a worker has executed. */
  method FinishRun(tm: Taskmaster, n: Node, ok: bool, faults: Faults, ghost log: seq<Event>, ghost inFlight: multiset<Node>)
    requires AtRest(tm.cfg, tm.Snapshot(), log, faults.None())
    requires Tracked(Deps(tm.cfg), tm.status, inFlight + multiset{n})
    requires Told(tm.cfg, faults, tm.Snapshot(), log) && (ok <==> n !in faults.execute)
    modifies tm
    ensures AtRest(tm.cfg, tm.Snapshot(), log + [Event.Finished(n, ok)], faults.None())
    ensures Told(tm.cfg, faults, tm.Snapshot(), log + [Event.Finished(n, ok)])
    ensures Tracked(Deps(tm.cfg), tm.status, inFlight)
    ensures Left(Deps(tm.cfg), tm.status) < Left(Deps(tm.cfg), old(tm.status))
  {
    ghost var g, s := Deps(tm.cfg), tm.Snapshot();
    InFlightExecuting(g, s.status, n, inFlight);
    HoldRun(tm.cfg, s, log, n, faults.None());
    TruthfulFinished(tm.cfg, faults, log, n, ok);
    Complete(tm, n, ok, faults, log);
    TrackFinished(g, s.status, tm.status, n, ok, inFlight);
    FinishedLeft(g, s.status, tm.status, n, ok);
  }

  lemma HoldRun(cfg: Config, s: State, log: seq<Event>, n: Node, faultless: bool)
    requires AtRest(cfg, s, log, faultless) && n in Deps(cfg) && s.status[n].Executing?
    ensures Holding(cfg, s, log, n, faultless)
    ensures n in IssuedIn(log) && n !in FinishedIn(log, true) && n !in FinishedIn(log, false)
  {
    ExecutingInHand(cfg, s, n);
    LogInHand(Deps(cfg), log, s.status, n);
  }

  class Parallel {
    const tm: Taskmaster
    const pool: ThreadPool
    const maxJobs: nat
    var jobs: nat
    ghost var log: seq<Event>

    constructor (tm: Taskmaster, num: nat, executeFails: set<Node>)
      requires num > 0
      ensures this.tm == tm && this.maxJobs == num && log == [] && jobs == 0
      ensures fresh(pool) && pool.Valid() && pool.Open() && pool.num == num && pool.executeFails == executeFails
      ensures pool.InFlight() == multiset{}
    {
      this.tm, this.maxJobs, this.jobs, this.log := tm, num, 0, [];
      this.pool := new ThreadPool(num, executeFails);
    }

    /** The pool serves this main thread, which counts its tasks in flight. */
    ghost predicate PoolReady(faults: Faults)
      reads `jobs, pool
    {
      && pool.Valid() && pool.Open()
      && pool.num == maxJobs > 0 && pool.executeFails == faults.execute
      && jobs == |pool.InFlight()| <= maxJobs
    }

    ghost predicate Books(faults: Faults, tasks: multiset<Node>)
      reads `log, tm
    {
      && AtRest(tm.cfg, tm.Snapshot(), log, faults.None())
      && Tracked(Deps(tm.cfg), tm.status, tasks)
      && Told(tm.cfg, faults, tm.Snapshot(), log)
    }

    /** The engine and the history fit the tasks in flight and the task that the main thread has in hand. */
    ghost predicate InOrder(faults: Faults, inFlight: multiset<Node>, inHand: Option<Node>)
      reads `log, tm
    {
      match inHand
      case None => Books(faults, inFlight)
      case Some(n) => Books(faults, inFlight + multiset{n})
    }

    /** Between two steps of the main thread. */
    ghost predicate Rest(faults: Faults)
      reads this, tm, pool
    {
      PoolReady(faults) && InOrder(faults, pool.InFlight(), None)
    }

    /** No candidate is left, or the build has been stopped. */
    ghost predicate Exhausted()
      reads tm
    {
      tm.candidates == [] && (tm.stopped || tm.topTargetsLeft == [])
    }

    ghost function Remaining(): nat
      reads tm
    {
      Left(Deps(tm.cfg), tm.status)
    }

    /** The pool does not notice what the main thread does with its engine and its history. */
    twostate lemma PoolStays(faults: Faults)
      requires old(PoolReady(faults)) && unchanged(`jobs) && unchanged(pool)
      ensures PoolReady(faults) && pool.InFlight() == old(pool.InFlight())
    {
    }

    /** Asks for a task, which is not sent yet. */
    method Ask(faults: Faults, ghost inFlight: multiset<Node>) returns (found: bool, toRun: Option<Node>)
      requires InOrder(faults, inFlight, None)
      modifies `log, tm
      ensures InOrder(faults, inFlight, toRun)
      ensures Remaining() <= old(Remaining())
      ensures found && toRun.None? ==> Remaining() < old(Remaining())
      ensures !found ==> toRun.None? && Exhausted()
    {
      ghost var flight;
      found, toRun, log, flight := PrepareNext(tm, faults, log, inFlight);
      Handed(faults, inFlight, flight, toRun);
    }

    lemma Handed(faults: Faults, inFlight: multiset<Node>, flight: multiset<Node>, toRun: Option<Node>)
      requires Books(faults, flight)
      requires flight == if toRun.Some? then inFlight + multiset{toRun.value} else inFlight
      ensures InOrder(faults, inFlight, toRun)
    {
    }

    /** Puts the task on its way if there is one; the worker threads have gone on in the meantime. */
    method Send(toRun: Option<Node>, faults: Faults)
      requires PoolReady(faults) && jobs < maxJobs
      modifies `jobs, pool
      ensures PoolReady(faults)
      ensures jobs == if toRun.Some? then old(jobs) + 1 else old(jobs)
      ensures pool.InFlight()
           == if toRun.Some? then old(pool.InFlight()) + multiset{toRun.value} else old(pool.InFlight())
    {
      pool.RunWorkers();
      if toRun.Some? {
        pool.Put(toRun.value);
        jobs := jobs + 1;
      }
    }

    /** Asks for a task while the pool is ready to take one. */
    method Consult(faults: Faults) returns (found: bool, toRun: Option<Node>)
      requires Rest(faults)
      modifies `log, tm
      ensures PoolReady(faults) && InOrder(faults, pool.InFlight(), toRun)
      ensures Remaining() <= old(Remaining())
      ensures found && toRun.None? ==> Remaining() < old(Remaining())
      ensures !found ==> toRun.None? && Exhausted()
    {
      ghost var flight := pool.InFlight();
      found, toRun := Ask(faults, flight);
      PoolStays(faults);
    }

    /** It is the same whether a task is in hand or in flight. */
    lemma HandOver(faults: Faults, before: multiset<Node>, after: multiset<Node>, inHand: Option<Node>)
      requires after == if inHand.Some? then before + multiset{inHand.value} else before
      ensures InOrder(faults, before, inHand) <==> InOrder(faults, after, None)
    {
    }

    /** Sends the task that the main thread has in hand. */
    method Ship(toRun: Option<Node>, faults: Faults)
      requires PoolReady(faults) && InOrder(faults, pool.InFlight(), toRun) && jobs < maxJobs
      modifies `jobs, pool
      ensures Rest(faults)
      ensures jobs == if toRun.Some? then old(jobs) + 1 else old(jobs)
    {
      ghost var before := pool.InFlight();
      Send(toRun, faults);
      HandOver(faults, before, pool.InFlight(), toRun);
    }

    /** Asks for a task and dispatches it if there is something to execute. */
    method Dispatch(faults: Faults) returns (found: bool)
      requires Rest(faults) && jobs < maxJobs
      modifies this, tm, pool
      ensures Rest(faults) && Remaining() <= old(Remaining())
      ensures !found ==> Exhausted() && jobs == old(jobs)
      ensures found ==> Remaining() < old(Remaining()) || jobs == old(jobs) + 1
    {
      var toRun;
      found, toRun := Consult(faults);
      Ship(toRun, faults);
    }

    /** Starts up as many tasks as are allowed. */
    method Fill(faults: Faults) returns (found: bool)
      requires Rest(faults)
      modifies this, tm, pool
      ensures Rest(faults) && Remaining() <= old(Remaining())
      ensures found ==> jobs == maxJobs
      ensures !found ==> Exhausted()
    {
      found := true;
      while found && jobs < maxJobs
        invariant Rest(faults) && Remaining() <= old(Remaining())
        invariant !found ==> Exhausted()
        decreases Remaining(), maxJobs - jobs, found
      {
        found := Dispatch(faults);
      }
    }

    /** Waits for a result; the worker threads go on while the main thread finishes its task. */
    method Receive(faults: Faults) returns (n: Node, ok: bool)
      requires PoolReady(faults) && jobs > 0
      modifies `jobs, pool
      ensures PoolReady(faults) && jobs == old(jobs) - 1
      ensures pool.InFlight() + multiset{n} == old(pool.InFlight())
      ensures ok <==> n !in faults.execute
    {
      n, ok := pool.Get();
      pool.RunWorkers();
      jobs := jobs - 1;
    }

    /** Finishes the task of a result. */
    method Settle(n: Node, ok: bool, faults: Faults, ghost inFlight: multiset<Node>)
      requires InOrder(faults, inFlight, Some(n)) && (ok <==> n !in faults.execute)
      modifies `log, tm
      ensures InOrder(faults, inFlight, None) && Remaining() < old(Remaining())
    {
      FinishRun(tm, n, ok, faults, log, inFlight);
      log := log + [Event.Finished(n, ok)];
    }

    /** Waits for a result, whose task the main thread then has in hand. */
    method Await(faults: Faults) returns (n: Node, ok: bool)
      requires Rest(faults) && jobs > 0
      modifies `jobs, pool
      ensures PoolReady(faults) && InOrder(faults, pool.InFlight(), Some(n))
      ensures ok <==> n !in faults.execute
    {
      ghost var before := pool.InFlight();
      n, ok := Receive(faults);
      HandOver(faults, pool.InFlight(), before, Some(n));
    }

    /** Finishes the task of a result while the pool goes on. */
    method Conclude(n: Node, ok: bool, faults: Faults)
      requires PoolReady(faults) && InOrder(faults, pool.InFlight(), Some(n)) && (ok <==> n !in faults.execute)
      modifies `log, tm
      ensures Rest(faults) && Remaining() < old(Remaining())
    {
      ghost var flight := pool.InFlight();
      Settle(n, ok, faults, flight);
      PoolStays(faults);
    }

    /** Waits for a result and finishes its task. */
    method CollectOne(faults: Faults)
      requires Rest(faults) && jobs > 0
      modifies this, tm, pool
      ensures Rest(faults) && Remaining() < old(Remaining())
    {
      var n, ok := Await(faults);
      Conclude(n, ok, faults);
    }

    /** Looks whether another result is there. */
    method Another(faults: Faults) returns (more: bool)
      requires PoolReady(faults)
      ensures more <==> pool.results != []
      ensures more ==> jobs > 0
    {
      more := pool.results != [];
      ResultsInFlight(pool.requests, pool.workers, pool.results);
    }

    /** Collects one result and tells if another one is there already. */
    method Collect(faults: Faults) returns (more: bool)
      requires Rest(faults) && jobs > 0
      modifies this, tm, pool
      ensures Rest(faults) && Remaining() < old(Remaining())
      ensures more ==> jobs > 0
    {
      CollectOne(faults);
      more := Another(faults);
    }

    /** Collects results until the results queue is found empty. */
    method CollectAll(faults: Faults)
      requires Rest(faults) && jobs > 0
      modifies this, tm, pool
      ensures Rest(faults) && Remaining() < old(Remaining())
    {
      var more := Collect(faults);
      while more
        invariant Rest(faults) && Remaining() < old(Remaining())
        invariant more ==> jobs > 0
        decreases Remaining()
      {
        more := Collect(faults);
      }
    }

    /** The whole build. */
    method Start(faults: Faults) returns (raised: bool, report: map<Node, seq<Node>>)
      requires ValidConfig(tm.cfg) && tm.Snapshot() == Init(tm.cfg) && log == [] && jobs == 0
      requires pool.Valid() && pool.Open() && pool.InFlight() == multiset{}
      requires pool.num == maxJobs > 0 && pool.executeFails == faults.execute
      modifies this, tm, pool
      ensures RunOver(tm.cfg, tm.Snapshot(), log, faults.None(), raised)
      ensures Truthful(tm.cfg, faults, log)
      ensures EndsAsDue(tm.cfg, faults.keepGoing, tm.Snapshot(), log, raised)
      ensures jobs == 0 && pool.requests == [] && pool.results == []
      ensures |pool.workers| == maxJobs && forall i | 0 <= i < maxJobs :: pool.workers[i] == Gone
    {
      StartTracked(tm.cfg, faults.None());
      Begins(tm.cfg, faults.keepGoing);
      RunTasks(faults);
      pool.Cleanup();
      raised, report := EndRun(tm, log, faults);
    }

    /** The main loop. */
    method RunTasks(faults: Faults)
      requires Rest(faults)
      modifies this, tm, pool
      ensures PoolReady(faults) && pool.InFlight() == multiset{} && jobs == 0
      ensures InOrder(faults, multiset{}, None) && Exhausted()
    {
      var over := false;
      while !over
        invariant Rest(faults)
        invariant over ==> Exhausted() && jobs == 0
        decreases Remaining(), !over
      {
        over := Round(faults);
      }
      assert pool.InFlight() == multiset{};
    }

    /** One turn of the main loop: fill, and collect unless there is nothing more to do. */
    method Round(faults: Faults) returns (over: bool)
      requires Rest(faults)
      modifies this, tm, pool
      ensures Rest(faults)
      ensures over ==> Exhausted() && jobs == 0 && Remaining() <= old(Remaining())
      ensures !over ==> Remaining() < old(Remaining())
    {
      var found := Fill(faults);
      if !found && jobs == 0 {
        return true;
      }
      CollectAll(faults);
      over := false;
    }
  }

  lemma ResultsInFlight(requests: seq<Option<Node>>, workers: seq<Worker>, results: seq<(Node, bool)>)
    ensures results != [] ==> |AllAsked(requests) + AllHeld(workers) + AllDone(results)| > 0
  {
  }

  lemma StartTracked(cfg: Config, faultless: bool)
    requires ValidConfig(cfg)
    ensures AtRest(cfg, Init(cfg), [], faultless)
    ensures Tracked(Deps(cfg), Init(cfg).status, multiset{})
  {
    InitAtRest(cfg, faultless);
  }

  method EndRun(tm: Taskmaster, ghost log: seq<Event>, faults: Faults) returns (raised: bool, report: map<Node, seq<Node>>)
    requires AtRest(tm.cfg, tm.Snapshot(), log, faults.None()) && Tracked(Deps(tm.cfg), tm.status, multiset{})
    requires tm.candidates == [] && (tm.stopped || tm.topTargetsLeft == [])
    requires Traced(tm.cfg, faults.keepGoing, tm.Snapshot(), log)
    ensures RunOver(tm.cfg, tm.Snapshot(), log, faults.None(), raised)
    ensures EndsAsDue(tm.cfg, faults.keepGoing, tm.Snapshot(), log, raised)
  {
    WaitersKnown(Deps(tm.cfg), tm.Snapshot(), {});
    raised, report := tm.Cleanup();
    NoneInFlight(Deps(tm.cfg), tm.status);
    RunIsOver(tm.cfg, tm.Snapshot(), log, faults.None(), raised);
    RunIsDue(tm.cfg, faults.keepGoing, tm.Snapshot(), log, raised);
  }

  lemma NoneInFlight(g: Digraph, status: map<Node, Status>)
    requires Tracked(g, status, multiset{})
    ensures NodesWith(g, status, Executing) == {}
  {
    forall n | n in g && n in status ensures !status[n].Executing? {
      assert multiset{}[n] == 0;
    }
  }

  lemma TrackSearch(g: Digraph, s: State, s': State, inFlight: multiset<Node>)
    requires Over(g, s) && Over(g, s') && OnlyVisits(s.status, s'.status) && Tracked(g, s.status, inFlight)
    ensures Tracked(g, s'.status, inFlight)
  {
  }

  lemma IssuedLeft(g: Digraph, s: State, s': State, n: Node)
    requires Over(g, s) && Over(g, s') && TaskIssued(g, s, s', n) && s'.status[n].Executing?
    ensures Left(g, s'.status) <= Left(g, s.status)
  {
    forall m | m in g && m != n ensures s'.status[m] == s'.status[n := Pending][m] {
    }
    FewerLeft(UnfinishedNodes(g, s'.status), UnfinishedNodes(g, s.status));
  }

  lemma InFlightExecuting(g: Digraph, status: map<Node, Status>, n: Node, inFlight: multiset<Node>)
    requires Tracked(g, status, inFlight + multiset{n})
    ensures n in g && n in status && status[n].Executing?
  {
    assert (inFlight + multiset{n})[n] > 0;
  }

  lemma FinishedLeft(g: Digraph, status: map<Node, Status>, status': map<Node, Status>, n: Node, ok: bool)
    requires StatusAfter(status, status', n, ok) && n in g && status[n].Executing?
    requires forall m {:trigger m in g} | m in g :: m in status
    ensures Left(g, status') < Left(g, status)
  {
    assert n in UnfinishedNodes(g, status) && n !in UnfinishedNodes(g, status');
    FewerLeft(UnfinishedNodes(g, status'), UnfinishedNodes(g, status));
  }
}
