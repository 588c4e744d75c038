/** The whole search for a node that is ready to be built. */
module Walk {
  import opened Digraphs
  import opened Scheduling
  import opened TurnLemmas
  import opened TaskLemmas
  import opened Outcome
  import opened Wrappers

  /** Every run keeps this between two calls of the main thread, whatever fails. */
  ghost predicate Sound(cfg: Config, s: State) {
    && ValidConfig(cfg)
    && Inv(Deps(cfg), s, {})
    && CountsExact(s.refCount, s.waiting)
    && Confined(Needed(cfg), s)
    && (!s.stopped ==> Live(Deps(cfg), cfg.tops, s))
  }

  /** The search terminates on every graph: turns are well-founded. */
  ghost function FindNextReady(cfg: Config, s: State): (State, Option<Node>)
    requires Sound(cfg, s)
    decreases Unseen(Deps(cfg), s.status), |s.candidates| + |s.topLeft|
  {
    if s.stopped then (Abandon(s), None)
    else if !HasCandidate(s) then (s, None)
    else
      TurnSound(cfg, s);
      TurnDecreases(cfg, s);
      var (s', verdict) := Turn(cfg, s);
      if verdict.Ready? then (s', Some(NextCandidate(s))) else FindNextReady(cfg, s')
  }

  lemma TurnSound(cfg: Config, s: State)
    requires Sound(cfg, s) && HasCandidate(s) && !s.stopped
    ensures CanTurn(cfg, s) && Sound(cfg, Turn(cfg, s).0) && !Turn(cfg, s).0.stopped
    ensures Turn(cfg, s).1.Ready? ==> ReadyNode(Deps(cfg), Turn(cfg, s).0, NextCandidate(s))
  {
    DepsClosed(cfg);
    TurnInv(cfg, s);
    TurnLive(cfg, s);
    TurnCounts(cfg, s);
    TurnConfined(cfg, Needed(cfg), s);
  }

  lemma InitSound(cfg: Config)
    requires ValidConfig(cfg)
    ensures Sound(cfg, Init(cfg)) && FailureFree(cfg, Init(cfg))
  {
    InitInv(cfg);
    assert forall p :: Waits(Init(cfg).waiting, p) == {};
  }

  lemma AbandonSound(cfg: Config, s: State)
    requires Sound(cfg, s) && s.stopped
    ensures Sound(cfg, Abandon(s)) && Abandon(s).stopped
  {
    AbandonInv(Deps(cfg), s);
    DetachExact(s.refCount, s.waiting, ReachSet(s.waiting, Elements(s.candidates)));
  }

  /**
    What a finished search guarantees: a node is handed out only when everything it depends on
    is built, and without a stop the search gives up only when no candidate is left.
    */
  lemma {:induction false} SearchSound(cfg: Config, s: State)
    requires Sound(cfg, s)
    ensures var (s', node) := FindNextReady(cfg, s);
            && Sound(cfg, s') && s'.stopped == s.stopped
            && (node.Some? ==> !s.stopped && ReadyNode(Deps(cfg), s', node.value))
            && (node.None? ==> s'.candidates == [] && (!s.stopped ==> s'.topLeft == []))
    decreases Unseen(Deps(cfg), s.status), |s.candidates| + |s.topLeft|
  {
    if s.stopped {
      AbandonSound(cfg, s);
    } else if HasCandidate(s) {
      TurnSound(cfg, s);
      TurnDecreases(cfg, s);
      if !Turn(cfg, s).1.Ready? {
        SearchSound(cfg, Turn(cfg, s).0);
      }
    }
  }

  /** As long as nothing has failed, the search also forgets no pending node. */
  lemma {:induction false} SearchClean(cfg: Config, s: State)
    requires Sound(cfg, s) && !s.stopped && Clean(Deps(cfg), cfg.upToDate, s, {})
    ensures var (s', node) := FindNextReady(cfg, s);
            Clean(Deps(cfg), cfg.upToDate, s', if node.Some? then {node.value} else {})
    decreases Unseen(Deps(cfg), s.status), |s.candidates| + |s.topLeft|
  {
    if HasCandidate(s) {
      TurnSound(cfg, s);
      TurnDecreases(cfg, s);
      TurnClean(cfg, s);
      if !Turn(cfg, s).1.Ready? {
        SearchClean(cfg, Turn(cfg, s).0);
      }
    }
  }

  ghost predicate NoneBack(status: map<Node, Status>, status': map<Node, Status>) {
    && status.Keys <= status'.Keys
    && forall n {:trigger status'[n]} | n in status :: status[n].Rank() <= status'[n].Rank()
  }

  /** Only unvisited nodes change during a search: to pending, or to failed. */
  ghost predicate OnlyVisits(status: map<Node, Status>, status': map<Node, Status>) {
    && status.Keys <= status'.Keys
    && forall n {:trigger status'[n]} | n in status ::
         status'[n] == status[n] || (status[n].Rank() <= Pending.Rank() && (status'[n].Pending? || status'[n].Failed?))
  }

  lemma SettleStatus(cfg: Config, s: State, n: Node)
    requires Over(Deps(cfg), s) && n in Deps(cfg)
    ensures Settle(cfg, s, n).status == s.status || Settle(cfg, s, n).status == s.status[n := Failed]
  {
  }

  lemma TurnOnlyVisits(cfg: Config, s: State)
    requires CanTurn(cfg, s)
    ensures OnlyVisits(s.status, Turn(cfg, s).0.status)
  {
    var n, s1 := NextCandidate(s), PopCandidate(s);
    if !Handled(s1, n) {
      SettleStatus(cfg, Visit(s1, n, NewCandidates(cfg, n, s1.status[n := Pending])), n);
    }
  }

  lemma {:induction false} SearchOnlyVisits(cfg: Config, s: State)
    requires Sound(cfg, s)
    ensures OnlyVisits(s.status, FindNextReady(cfg, s).0.status)
    decreases Unseen(Deps(cfg), s.status), |s.candidates| + |s.topLeft|
  {
    if !s.stopped && HasCandidate(s) {
      TurnSound(cfg, s);
      TurnDecreases(cfg, s);
      TurnOnlyVisits(cfg, s);
      if !Turn(cfg, s).1.Ready? {
        SearchOnlyVisits(cfg, Turn(cfg, s).0);
      }
    }
  }
}
