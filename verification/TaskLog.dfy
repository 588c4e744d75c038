/** The history of a run: which tasks were issued and how they finished. */
module TaskLog {
  import opened Digraphs
  import opened Scheduling
  import opened TurnLemmas
  import opened TaskLemmas
  import opened Outcome
  import opened Walk
  import opened TaskSteps
  import opened Wrappers

  datatype Event = Issued(node: Node) | Finished(node: Node, ok: bool)

  ghost function IssuedIn(log: seq<Event>): set<Node> {
    set e | e in log && e.Issued? :: e.node
  }

  ghost function FinishedIn(log: seq<Event>, ok: bool): set<Node> {
    set e | e in log && e.Finished? && e.ok == ok :: e.node
  }

  /**
    A task may be issued once, after every dependency of its node has finished well;
    it finishes once, after it was issued.
    */
  ghost predicate MayFollow(g: Digraph, log: seq<Event>, e: Event) {
    match e
    case Issued(n) =>
      n !in IssuedIn(log) && n in g && g[n] <= FinishedIn(log, true)
    case Finished(n, ok) =>
      n in IssuedIn(log) && n !in FinishedIn(log, true) && n !in FinishedIn(log, false)
  }

  ghost predicate WellOrdered(g: Digraph, log: seq<Event>) {
    forall i {:trigger log[i]} | 0 <= i < |log| :: MayFollow(g, log[..i], log[i])
  }

  /** How the history shows in the states of the nodes: issued, finished well, finished badly. */
  ghost predicate Matches(status: map<Node, Status>, known: set<Node>, issued: set<Node>, done: set<Node>, failed: set<Node>) {
    && issued <= known && failed <= known
    && forall n {:trigger status[n]} | n in known && n in status ::
      && (status[n].Succeeded() <==> n in done)
      && (status[n].Executing? <==> n in issued && n !in done && n !in failed)
      && (n in issued ==> status[n].Rank() >= Executing.Rank())
      && (n in failed ==> status[n].Failed?)
  }

  ghost predicate LogMatches(g: Digraph, log: seq<Event>, status: map<Node, Status>) {
    Matches(status, g.Keys, IssuedIn(log), FinishedIn(log, true), FinishedIn(log, false))
  }

  lemma LogMore(log: seq<Event>, e: Event)
    ensures IssuedIn(log + [e]) == IssuedIn(log) + if e.Issued? then {e.node} else {}
    ensures FinishedIn(log + [e], true) == FinishedIn(log, true) + if e.Finished? && e.ok then {e.node} else {}
    ensures FinishedIn(log + [e], false) == FinishedIn(log, false) + if e.Finished? && !e.ok then {e.node} else {}
  {
    assert forall x :: x in log + [e] <==> x in log || x == e;
  }

  lemma OrderedMore(g: Digraph, log: seq<Event>, e: Event)
    requires WellOrdered(g, log) && MayFollow(g, log, e)
    ensures WellOrdered(g, log + [e])
  {
    var more := log + [e];
    forall i | 0 <= i < |more| ensures MayFollow(g, more[..i], more[i]) {
      assert more[..i] == log[..i];
      assert i < |log| ==> more[i] == log[i];
      assert i == |log| ==> log[..i] == log;
    }
  }

  /** The next task that is issued, or none. */
  ghost predicate TaskIssued(g: Digraph, s: State, s': State, n: Node) {
    && n in g && n in s.status && n in s'.status
    && s.status[n].Rank() <= Pending.Rank()
    && (s'.status[n].Executing? || s'.status[n].UpToDate? || s'.status[n].Pending?)
    && OnlyVisits(s.status, s'.status[n := Pending])
    && forall c {:trigger c in g[n]} | c in g[n] :: c in s.status && s.status[c].Succeeded()
  }

  /** What a call of `next_task` that hands out the task of `n` has done. */
  ghost predicate HandsOut(cfg: Config, s: State, s': State, n: Node, readyFails: set<Node>) {
    && s'.stopped == s.stopped
    && InHand(cfg, s', n)
    && TaskIssued(Deps(cfg), s, s', n)
    && (s'.status[n].Pending? <==> n in readyFails)
    && (n !in readyFails ==> (s'.status[n].Executing? <==> n !in cfg.upToDate))
  }

  /** What a call of `next_task` that finds no task has done. */
  ghost predicate FindsNone(cfg: Config, s: State, s': State) {
    && s'.stopped == s.stopped
    && Sound(cfg, s')
    && OnlyVisits(s.status, s'.status)
    && s'.candidates == [] && (s'.stopped || s'.topLeft == [])
  }

  lemma NextTaskSound(cfg: Config, s: State, readyFails: set<Node>)
    requires Sound(cfg, s)
    ensures var search := FindNextReady(cfg, s);
            var s' := MadeReady(cfg, search, readyFails);
            if search.1.Some? then HandsOut(cfg, s, s', search.1.value, readyFails) else FindsNone(cfg, s, s')
  {
    var (s1, node) := FindNextReady(cfg, s);
    SearchSound(cfg, s);
    SearchOnlyVisits(cfg, s);
    if node.Some? {
      HandedOut(cfg, s, s1, node.value, readyFails);
    }
  }

  lemma HandedOut(cfg: Config, s: State, s1: State, n: Node, readyFails: set<Node>)
    requires Sound(cfg, s) && Sound(cfg, s1) && s1.stopped == s.stopped
    requires OnlyVisits(s.status, s1.status) && ReadyNode(Deps(cfg), s1, n)
    ensures HandsOut(cfg, s, MadeReady(cfg, (s1, Some(n)), readyFails), n, readyFails)
  {
    DepsClosed(cfg);
    ReadyInHand(cfg, s1, n);
    IssuedFrom(Deps(cfg), s, s1, MadeReady(cfg, (s1, Some(n)), readyFails), n);
  }

  lemma IssuedFrom(g: Digraph, s: State, s1: State, s': State, n: Node)
    requires OnlyVisits(s.status, s1.status) && ReadyNode(g, s1, n) && n in s.status
    requires forall c {:trigger c in g[n]} | c in g[n] :: c in s.status
    requires s' == s1 || s' == SetStatus(s1, n, Executing) || s' == SetStatus(s1, n, UpToDate)
    ensures TaskIssued(g, s, s', n)
  {
    assert s'.status[n := Pending] == s1.status;
  }

  lemma NextTaskClean(cfg: Config, s: State)
    requires Sound(cfg, s) && CleanWith(cfg, s, {})
    ensures var search := FindNextReady(cfg, s);
            CleanWith(cfg, MadeReady(cfg, search, {}), if search.1.Some? then {search.1.value} else {})
  {
    var (s1, node) := FindNextReady(cfg, s);
    SearchSound(cfg, s);
    SearchClean(cfg, s);
    if node.Some? {
      ReadyInHand(cfg, s1, node.value);
    }
  }

  /** How the states of the nodes change when the task of `n` is over. */
  ghost predicate StatusAfter(status: map<Node, Status>, status': map<Node, Status>, n: Node, ok: bool) {
    && n in status && status.Keys <= status'.Keys
    && status'[n] == (if !ok then Failed else if status[n].Executing? then Executed else status[n])
    && forall m {:trigger status'[m]} | m in status && m != n ::
         status'[m] == status[m] || (!ok && status[m].Pending? && status'[m].Failed?)
  }

  ghost function MadeReady(cfg: Config, search: (State, Option<Node>), readyFails: set<Node>): State {
    if search.1.Some? && search.1.value !in readyFails then MakeReady(cfg, search.0, search.1.value) else search.0
  }

  lemma LogSearch(g: Digraph, log: seq<Event>, s: State, s': State)
    requires LogMatches(g, log, s.status) && OnlyVisits(s.status, s'.status) && Over(g, s)
    ensures LogMatches(g, log, s'.status)
  {
  }

  /** What the history says of every node but the one whose task is in hand. */
  ghost predicate MatchesBut(status: map<Node, Status>, known: set<Node>, issued: set<Node>, done: set<Node>, failed: set<Node>, n: Node) {
    && n in known && n in issued && n !in done && n !in failed
    && Matches(status, known - {n}, issued - {n}, done - {n}, failed - {n})
  }

  lemma IssuedMatches(g: Digraph, status: map<Node, Status>, status': map<Node, Status>, n: Node,
                      issued: set<Node>, done: set<Node>, failed: set<Node>)
    requires Matches(status, g.Keys, issued, done, failed) && n in g && n in status && n in status'
    requires status[n].Rank() <= Pending.Rank() && OnlyVisits(status, status'[n := Pending])
    requires forall m {:trigger m in g} | m in g :: m in status
    ensures n !in issued && MatchesBut(status', g.Keys, issued + {n}, done, failed, n)
    ensures status'[n].Executing? ==> Matches(status', g.Keys, issued + {n}, done, failed)
  {
    assert (issued + {n}) - {n} == issued && done - {n} == done && failed - {n} == failed;
    forall m | m in g && m != n
      ensures status'[n := Pending][m] == status'[m]
    {
    }
  }

  lemma FinishedMatches(g: Digraph, status: map<Node, Status>, status': map<Node, Status>, n: Node, ok: bool,
                        issued: set<Node>, done: set<Node>, failed: set<Node>)
    requires MatchesBut(status, g.Keys, issued, done, failed, n) && StatusAfter(status, status', n, ok)
    requires ok ==> status[n].Executing? || status[n].UpToDate?
    requires forall m {:trigger m in g} | m in g :: m in status
    ensures Matches(status', g.Keys, issued, if ok then done + {n} else done, if ok then failed else failed + {n})
  {
    assert issued == (issued - {n}) + {n} && failed == failed - {n};
  }

  ghost predicate LogMatchesBut(g: Digraph, log: seq<Event>, status: map<Node, Status>, n: Node) {
    MatchesBut(status, g.Keys, IssuedIn(log), FinishedIn(log, true), FinishedIn(log, false), n)
  }

  /** Issuing a task. */
  lemma LogIssued(g: Digraph, log: seq<Event>, s: State, s': State, n: Node)
    requires LogMatches(g, log, s.status) && WellOrdered(g, log) && Over(g, s) && Closed(g)
    requires TaskIssued(g, s, s', n)
    ensures WellOrdered(g, log + [Issued(n)])
    ensures LogMatchesBut(g, log + [Issued(n)], s'.status, n)
    ensures s'.status[n].Executing? ==> LogMatches(g, log + [Issued(n)], s'.status)
  {
    IssuedMatches(g, s.status, s'.status, n, IssuedIn(log), FinishedIn(log, true), FinishedIn(log, false));
    forall c | c in g[n] ensures c in FinishedIn(log, true) {
      assert s.status[c].Succeeded() && c in g;
    }
    OrderedMore(g, log, Issued(n));
    LogMore(log, Issued(n));
  }

  /** Finishing a task, right after it was issued or after it has been executed. */
  lemma LogFinished(g: Digraph, log: seq<Event>, status: map<Node, Status>, status': map<Node, Status>, n: Node, ok: bool)
    requires WellOrdered(g, log) && StatusAfter(status, status', n, ok) && LogMatchesBut(g, log, status, n)
    requires forall m {:trigger m in g} | m in g :: m in status
    requires ok ==> status[n].Executing? || status[n].UpToDate?
    ensures WellOrdered(g, log + [Finished(n, ok)])
    ensures LogMatches(g, log + [Finished(n, ok)], status')
  {
    FinishedMatches(g, status, status', n, ok, IssuedIn(log), FinishedIn(log, true), FinishedIn(log, false));
    OrderedMore(g, log, Finished(n, ok));
    LogMore(log, Finished(n, ok));
  }

  lemma LogInHand(g: Digraph, log: seq<Event>, status: map<Node, Status>, n: Node)
    requires LogMatches(g, log, status) && n in g && n in status && status[n].Executing?
    ensures LogMatchesBut(g, log, status, n)
  {
  }

  lemma FailedStatus(cfg: Config, s: State, n: Node)
    requires InHand(cfg, s, n)
    ensures StatusAfter(s.status, WillNotBuild(s, {n}, true).status, n, false)
  {
    GoneUnsuccessful(Deps(cfg), s, n);
    FailedSound(cfg, s, n);
  }
}
