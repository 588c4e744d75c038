/** A task from the moment it is handed out until it is post-processed. */
module TaskSteps {
  import opened Digraphs
  import opened Scheduling
  import opened TurnLemmas
  import opened TaskLemmas
  import opened Outcome
  import opened Walk

  /** The main thread has the task of `n` in hand. */
  ghost predicate InHand(cfg: Config, s: State, n: Node) {
    && ValidConfig(cfg)
    && Inv(Deps(cfg), s, {n})
    && CountsExact(s.refCount, s.waiting)
    && Confined(Needed(cfg), s)
    && (!s.stopped ==> Live(Deps(cfg), cfg.tops, s))
    && n in Deps(cfg) && !s.status[n].NoState?
  }

  ghost predicate CleanWith(cfg: Config, s: State, busy: set<Node>) {
    !s.stopped && Clean(Deps(cfg), cfg.upToDate, s, busy)
  }

  lemma ReadyInHand(cfg: Config, s: State, n: Node)
    requires Sound(cfg, s) && ReadyNode(Deps(cfg), s, n)
    ensures InHand(cfg, s, n) && InHand(cfg, MakeReady(cfg, s, n), n)
    ensures CleanWith(cfg, s, {n}) ==> CleanWith(cfg, MakeReady(cfg, s, n), {n})
  {
    var st := if n in cfg.upToDate then UpToDate else Executing;
    TakeInHand(Deps(cfg), s, n);
    MakeReadyInv(Deps(cfg), s, n, st);
    if !s.stopped {
      MakeReadyLive(Deps(cfg), cfg.tops, s, n, st);
    }
    if CleanWith(cfg, s, {n}) {
      MakeReadyClean(Deps(cfg), cfg.upToDate, s, n);
    }
  }

  /** An executing task can wait in a queue: the state is sound without it being in hand. */
  lemma ExecutingSound(cfg: Config, s: State, n: Node)
    requires InHand(cfg, s, n) && s.status[n].Executing?
    ensures Sound(cfg, s)
    ensures CleanWith(cfg, s, {n}) ==> CleanWith(cfg, s, {})
  {
  }

  lemma ExecutingInHand(cfg: Config, s: State, n: Node)
    requires Sound(cfg, s) && n in Deps(cfg) && s.status[n].Executing?
    ensures InHand(cfg, s, n)
    ensures CleanWith(cfg, s, {}) ==> CleanWith(cfg, s, {n})
  {
    TakeInHand(Deps(cfg), s, n);
  }

  /** The waiting parents that a post-processing step puts back are listed in some order. */
  ghost predicate Wakes(s: State, t: Node, woken: seq<Node>) {
    t in s.waiting && Lists(woken, Woken(s.refCount, s.waiting[t]))
  }

  lemma WokenWait(s: State, t: Node, woken: seq<Node>)
    requires Wakes(s, t, woken)
    ensures forall p {:trigger p in woken} :: p in woken <==> p in Woken(s.refCount, s.waiting[t])
  {
    assert forall p :: p in woken <==> p in Elements(woken);
  }

  lemma PostConfined(g: Digraph, r: set<Node>, s: State, t: Node, woken: seq<Node>)
    requires Confined(r, s) && WaitersSound(g, s.status, s.waiting) && Wakes(s, t, woken)
    ensures Confined(r, Postprocess(s, t, woken))
  {
    WokenWait(s, t, woken);
    forall p | p in woken ensures p in r {
      assert p in s.waiting[t];
    }
  }

  lemma PostSound(cfg: Config, s: State, t: Node, woken: seq<Node>)
    requires InHand(cfg, s, t) && Wakes(s, t, woken) && (s.stopped || !s.status[t].Unfinished())
    ensures Sound(cfg, Postprocess(s, t, woken))
  {
    WokenWait(s, t, woken);
    PostInv(Deps(cfg), s, t, woken, {t});
    ReleaseExact(s.refCount, s.waiting, t);
    PostConfined(Deps(cfg), Needed(cfg), s, t, woken);
    if !s.stopped {
      PostLive(Deps(cfg), cfg.tops, s, t, woken);
    }
  }

  /** A task that succeeds and is post-processed. */
  lemma SuccessSound(cfg: Config, s: State, n: Node, woken: seq<Node>)
    requires InHand(cfg, s, n) && (s.status[n].Executing? || s.status[n].UpToDate?)
    requires Wakes(MarkExecuted(s, n), n, woken)
    ensures Sound(cfg, Postprocess(MarkExecuted(s, n), n, woken))
    ensures CleanWith(cfg, s, {n}) ==> CleanWith(cfg, Postprocess(MarkExecuted(s, n), n, woken), {})
  {
    var s1 := MarkExecuted(s, n);
    ExecutedInv(Deps(cfg), s, n);
    if !s.stopped {
      ExecutedLive(Deps(cfg), cfg.tops, s, n);
    }
    assert InHand(cfg, s1, n);
    PostSound(cfg, s1, n, woken);
    if CleanWith(cfg, s, {n}) {
      ExecutedClean(Deps(cfg), cfg.upToDate, s, n);
      PostClean(Deps(cfg), cfg.upToDate, s1, n, woken);
    }
  }

  lemma FailedSound(cfg: Config, s: State, n: Node)
    requires InHand(cfg, s, n)
    ensures Sound(cfg, WillNotBuild(s, {n}, true))
    ensures WillNotBuild(s, {n}, true).status[n].Failed?
  {
    var gone := ReachSet(s.waiting, {n});
    assert n in gone by { ReachesRefl(s.waiting, n); }
    FailInvAll(Deps(cfg), s, n);
    DetachExact(s.refCount, s.waiting, gone);
    FailConfined(Deps(cfg), Needed(cfg), s, n);
    if !s.stopped {
      FailLiveAll(Deps(cfg), cfg.tops, s, n);
    }
  }

  lemma FailConfined(g: Digraph, r: set<Node>, s: State, n: Node)
    requires Confined(r, s) && WaitersSound(g, s.status, s.waiting) && n in s.status && !s.status[n].NoState?
    ensures Confined(r, WillNotBuild(s, {n}, true))
  {
    GoneUnsuccessful(g, s, n);
  }

  lemma PostFailedSound(cfg: Config, s: State, n: Node, woken: seq<Node>)
    requires Sound(cfg, s) && n in Deps(cfg) && s.status[n].Failed? && Wakes(s, n, woken)
    ensures Sound(cfg, Postprocess(s, n, woken))
  {
    TakeInHand(Deps(cfg), s, n);
    PostSound(cfg, s, n, woken);
  }

  /** A task that fails under keep-going, and is post-processed. */
  lemma FailContinueSound(cfg: Config, s: State, n: Node, woken: seq<Node>)
    requires InHand(cfg, s, n) && Wakes(WillNotBuild(s, {n}, true), n, woken)
    ensures Sound(cfg, Postprocess(WillNotBuild(s, {n}, true), n, woken))
  {
    FailedSound(cfg, s, n);
    PostFailedSound(cfg, WillNotBuild(s, {n}, true), n, woken);
  }

  /** A task that fails and stops the build; the current top target is then post-processed. */
  ghost function FailAndStop(s: State, n: Node): State {
    WillNotBuild(s, {n}, true).(stopped := true)
  }

  lemma FailStopSound(cfg: Config, s: State, n: Node, t: Node, woken: seq<Node>)
    requires InHand(cfg, s, n) && t in Deps(cfg) && Wakes(FailAndStop(s, n), t, woken)
    ensures Sound(cfg, Postprocess(FailAndStop(s, n), t, woken))
  {
    var s1 := FailAndStop(s, n);
    FailedSound(cfg, s, n);
    assert Inv(Deps(cfg), s1, {}) && s1.currentTop.Some?;
    WokenWait(s1, t, woken);
    PostInv(Deps(cfg), s1, t, woken, {});
    ReleaseExact(s1.refCount, s1.waiting, t);
    PostConfined(Deps(cfg), Needed(cfg), s1, t, woken);
  }
}
