/** What the steps of a task keep: made ready, executed, failed, post-processed. */
module TaskLemmas {
  import opened Digraphs
  import opened Scheduling
  import opened TurnLemmas

  // ---------------------------------------------------------------- Made ready

  lemma ReadyWaitsForNone(g: Digraph, s: State, n: Node)
    requires Inv(g, s, {}) && ReadyNode(g, s, n)
    ensures forall c {:trigger s.waiting[c]} | c in s.waiting :: n !in s.waiting[c]
  {
  }

  lemma MakeReadyInv(g: Digraph, s: State, n: Node, st: Status)
    requires Inv(g, s, {}) && ReadyNode(g, s, n) && (st.UpToDate? || st.Executing?)
    ensures Inv(g, SetStatus(s, n, st), {n})
  {
    ReadyWaitsForNone(g, s, n);
  }

  lemma MakeReadyLive(g: Digraph, tops: seq<Node>, s: State, n: Node, st: Status)
    requires Live(g, tops, s) && n in s.status && s.status[n].Pending? && !st.NoState? && !st.Pending?
    ensures Live(g, tops, SetStatus(s, n, st))
  {
  }

  lemma MakeReadyKnots(g: Digraph, s: State, n: Node, st: Status)
    requires KnotsUntouched(g, s.status) && ReadyNode(g, s, n)
    ensures KnotsUntouched(g, s.status[n := st])
  {
    forall k | Knotted(g, k) ensures n !in k {
    }
  }

  lemma BegunDetects(g: Digraph, status: map<Node, Status>, n: Node, st: Status, pending: set<Node>)
    requires KnotsDetected(g, status, pending) && !st.Pending?
    ensures KnotsDetected(g, status[n := st], pending)
  {
    var status' := status[n := st];
    forall k | Knotted(g, k) && k != {} && AllPending(k, status') ensures k * pending != {} {
      assert n !in k;
      assert AllPending(k, status);
    }
  }

  lemma MakeReadyClean(g: Digraph, upToDate: set<Node>, s: State, n: Node)
    requires Clean(g, upToDate, s, {n}) && ReadyNode(g, s, n)
    ensures var st := if n in upToDate then UpToDate else Executing;
            Clean(g, upToDate, SetStatus(s, n, st), {n})
  {
    var st := if n in upToDate then UpToDate else Executing;
    MakeReadyKnots(g, s, n, st);
    BegunDetects(g, s.status, n, st, s.pendingChildren);
  }

  // ---------------------------------------------------------------- Executed

  /** An executing node can be taken in hand at any time. */
  lemma TakeInHand(g: Digraph, s: State, n: Node)
    requires Inv(g, s, {}) && n in s.status && !s.status[n].Succeeded()
    ensures Inv(g, s, {n})
  {
  }

  lemma ExecutedInv(g: Digraph, s: State, n: Node)
    requires Inv(g, s, {n}) && n in s.status
    ensures Inv(g, MarkExecuted(s, n), {n})
  {
  }

  lemma ExecutedLive(g: Digraph, tops: seq<Node>, s: State, n: Node)
    requires Live(g, tops, s) && n in s.status
    ensures Live(g, tops, MarkExecuted(s, n))
  {
  }

  lemma ExecutedClean(g: Digraph, upToDate: set<Node>, s: State, n: Node)
    requires Clean(g, upToDate, s, {n}) && n in s.status
    ensures Clean(g, upToDate, MarkExecuted(s, n), {n})
  {
    if s.status[n].Executing? {
      BegunDetects(g, s.status, n, Executed, s.pendingChildren);
      assert KnotsUntouched(g, s.status[n := Executed]);
    }
  }

  // ---------------------------------------------------------------- Given up

  /** Whoever is reached from `from` through waiting parents is in `from` or waits. */
  lemma GoneWaits(waiting: map<Node, set<Node>>, from: set<Node>, m: Node)
    requires m in ReachSet(waiting, from)
    ensures m in from || exists c {:trigger waiting[c]} :: c in waiting && m in waiting[c]
  {
    var f :| f in from && Reaches(waiting, f, m);
    var w :| IsWalkFromTo(waiting, w, f, m);
    if |w| > 1 {
      assert w[|w| - 1] in waiting[w[|w| - 2]];
    }
  }

  lemma DetachExact(refCount: map<Node, int>, waiting: map<Node, set<Node>>, gone: set<Node>)
    requires CountsExact(refCount, waiting)
    ensures CountsExact(Deduct(refCount, waiting, gone), Detach(waiting, gone))
  {
    var waiting' := Detach(waiting, gone);
    forall p | p in refCount
      ensures |Waits(waiting', p)| == refCount[p] - |Waits(waiting, p) * gone|
    {
      var before := Waits(waiting, p);
      assert Waits(waiting', p) == before - gone;
      assert before == (before - gone) + before * gone;
    }
  }

  lemma DetachInv(g: Digraph, s: State, gone: set<Node>, busy: set<Node>)
    requires Inv(g, s, busy)
    ensures Inv(g, s.(pendingChildren := s.pendingChildren - gone,
                      waiting := Detach(s.waiting, gone),
                      refCount := Deduct(s.refCount, s.waiting, gone)), busy)
  {
  }

  lemma FailAllOrder(g: Digraph, status: map<Node, Status>, gone: set<Node>, n: Node)
    requires BuildOrder(g, status, {n})
    requires forall m {:trigger m in gone} | m in gone && m != n :: m in status && !status[m].Succeeded()
    ensures BuildOrder(g, FailAll(status, gone), {})
  {
  }

  lemma FailAllWaiters(g: Digraph, status: map<Node, Status>, waiting: map<Node, set<Node>>, gone: set<Node>)
    requires WaitersSound(g, status, waiting)
    ensures WaitersSound(g, FailAll(status, gone), Detach(waiting, gone))
  {
  }

  lemma FailAllDone(status: map<Node, Status>, waiting: map<Node, set<Node>>, gone: set<Node>, n: Node)
    requires NoneWaitsForDone(status, waiting, {n}) && n in gone
    ensures NoneWaitsForDone(FailAll(status, gone), Detach(waiting, gone), {})
  {
  }

  lemma GoneUnsuccessful(g: Digraph, s: State, n: Node)
    requires WaitersSound(g, s.status, s.waiting)
    ensures forall m {:trigger m in ReachSet(s.waiting, {n})} | m in ReachSet(s.waiting, {n}) && m != n ::
              m in s.status && (s.status[m].Pending? || s.status[m].Failed?)
  {
    forall m | m in ReachSet(s.waiting, {n}) && m != n
      ensures m in s.status && (s.status[m].Pending? || s.status[m].Failed?)
    {
      GoneWaits(s.waiting, {n}, m);
    }
  }

  /** A failing task: its node and all that waits for it fail; nothing built is touched. */
  lemma FailInvAll(g: Digraph, s: State, n: Node)
    requires Inv(g, s, {n}) && n in g && s.currentTop.Some?
    ensures Inv(g, WillNotBuild(s, {n}, true), {})
  {
    var gone := ReachSet(s.waiting, {n});
    assert n in gone by { ReachesRefl(s.waiting, n); }
    GoneUnsuccessful(g, s, n);
    FailAllOrder(g, s.status, gone, n);
    FailAllWaiters(g, s.status, s.waiting, gone);
    FailAllDone(s.status, s.waiting, gone, n);
    assert Confined(g.Keys, WillNotBuild(s, {n}, true));
  }

  lemma FailAllStack(g: Digraph, status: map<Node, Status>, gone: set<Node>, stack: seq<Node>)
    requires StackSound(g, status, stack)
    ensures StackSound(g, FailAll(status, gone), stack)
  {
  }

  lemma FailAllComplete(g: Digraph, status: map<Node, Status>, waiting: map<Node, set<Node>>, gone: set<Node>)
    requires WaitsComplete(g, status, waiting)
    ensures WaitsComplete(g, FailAll(status, gone), Detach(waiting, gone))
  {
    var waiting' := Detach(waiting, gone);
    forall p | WaitsForSome(waiting', p) ensures WaitsForSome(waiting, p) {
      var c :| c in waiting' && p in waiting'[c];
      assert c in waiting && p in waiting[c];
    }
  }

  lemma FailLiveAll(g: Digraph, tops: seq<Node>, s: State, n: Node)
    requires Live(g, tops, s)
    ensures Live(g, tops, WillNotBuild(s, {n}, true))
  {
    var gone := ReachSet(s.waiting, {n});
    FailAllStack(g, s.status, gone, s.candidates);
    FailAllComplete(g, s.status, s.waiting, gone);
  }

  lemma AbandonInv(g: Digraph, s: State)
    requires Inv(g, s, {})
    ensures Inv(g, Abandon(s), {})
  {
    DetachInv(g, s, ReachSet(s.waiting, Elements(s.candidates)), {});
  }

  // ---------------------------------------------------------------- Post-processed

  lemma ReleaseExact(refCount: map<Node, int>, waiting: map<Node, set<Node>>, t: Node)
    requires CountsExact(refCount, waiting) && t in waiting
    ensures CountsExact(Release(refCount, waiting[t]), waiting[t := {}])
  {
    var waiting' := waiting[t := {}];
    forall p | p in refCount
      ensures |Waits(waiting', p)| == if p in waiting[t] then refCount[p] - 1 else refCount[p]
    {
      assert Waits(waiting', p) == Waits(waiting, p) - {t};
      assert t in Waits(waiting, p) <==> p in waiting[t];
    }
  }

  lemma PostInv(g: Digraph, s: State, t: Node, woken: seq<Node>, busy: set<Node>)
    requires Inv(g, s, busy) && t in s.waiting && s.currentTop.Some?
    requires forall p {:trigger p in woken} | p in woken :: p in s.waiting[t]
    ensures Inv(g, Postprocess(s, t, woken), busy - {t})
  {
  }

  /** A parent whose count drops to zero waited for nothing but `t`. */
  lemma WokenWaitedForOne(refCount: map<Node, int>, waiting: map<Node, set<Node>>, t: Node, p: Node)
    requires CountsExact(refCount, waiting) && t in waiting && p in waiting[t] && p in refCount
    ensures refCount[p] == 1 <==> Waits(waiting, p) == {t}
  {
    var ws := Waits(waiting, p);
    assert t in ws;
    assert ws == {t} + (ws - {t});
    assert |ws| == 1 + |ws - {t}|;
  }

  lemma WokenMissesOnly(g: Digraph, s: State, t: Node, p: Node, c: Node)
    requires WaitsComplete(g, s.status, s.waiting) && CountsExact(s.refCount, s.waiting)
    requires t in s.waiting && p in Woken(s.refCount, s.waiting[t])
    requires p in g && p in s.status && s.status[p].Pending? && c in g[p] && c in s.status && s.status[c].Unfinished()
    ensures c == t
  {
    WokenWaitedForOne(s.refCount, s.waiting, t, p);
    assert WaitsForSome(s.waiting, p);
    assert c in Waits(s.waiting, p);
  }

  lemma PostStack(g: Digraph, s: State, t: Node, woken: seq<Node>)
    requires StackSound(g, s.status, s.candidates) && WaitsComplete(g, s.status, s.waiting)
    requires CountsExact(s.refCount, s.waiting) && t in s.waiting && t in s.status && !s.status[t].NoState?
    requires forall p {:trigger p in woken} | p in woken :: p in Woken(s.refCount, s.waiting[t])
    ensures StackSound(g, s.status, s.candidates + woken)
  {
    forall p, c | p in g && p in s.status && s.status[p].Pending? && c in g[p] && c in s.status && s.status[c].NoState?
      ensures Above(s.candidates + woken, c, p)
    {
      if p in woken {
        WokenMissesOnly(g, s, t, p, c);
      } else {
        var j :| 0 <= j < |s.candidates| && s.candidates[j] == c && p !in s.candidates[j..];
        assert (s.candidates + woken)[j] == c && (s.candidates + woken)[j..] == s.candidates[j..] + woken;
      }
    }
  }

  lemma PostComplete(g: Digraph, status: map<Node, Status>, waiting: map<Node, set<Node>>, t: Node)
    requires WaitsComplete(g, status, waiting) && t in status && !status[t].Unfinished()
    ensures WaitsComplete(g, status, waiting[t := {}])
  {
    var waiting' := waiting[t := {}];
    forall p | WaitsForSome(waiting', p) ensures WaitsForSome(waiting, p) {
      var c :| c in waiting' && p in waiting'[c];
      assert c in waiting && p in waiting[c];
    }
  }

  lemma PostLive(g: Digraph, tops: seq<Node>, s: State, t: Node, woken: seq<Node>)
    requires Live(g, tops, s) && CountsExact(s.refCount, s.waiting)
    requires t in s.waiting && t in s.status && !s.status[t].Unfinished()
    requires forall p {:trigger p in woken} | p in woken :: p in Woken(s.refCount, s.waiting[t])
    ensures Live(g, tops, Postprocess(s, t, woken))
  {
    PostStack(g, s, t, woken);
    PostComplete(g, s.status, s.waiting, t);
  }

  lemma PostForgotten(g: Digraph, s: State, t: Node, woken: seq<Node>)
    requires Over(g, s) && WaitersSound(g, s.status, s.waiting) && NoneForgotten(s, {t}) && CountsExact(s.refCount, s.waiting)
    requires t in s.waiting && t in s.status && !s.status[t].Pending?
    requires forall p {:trigger p in woken} :: p in woken <==> p in Woken(s.refCount, s.waiting[t])
    ensures NoneForgotten(Postprocess(s, t, woken), {})
  {
    var s' := Postprocess(s, t, woken);
    forall p | p in s.status && s.status[p].Pending? && WaitsForSome(s.waiting, p)
      ensures p in s'.candidates || WaitsForSome(s'.waiting, p)
    {
      if c :| c in s.waiting && p in s.waiting[c] && c != t {
        assert c in s'.waiting && p in s'.waiting[c];
      } else {
        var c :| c in s.waiting && p in s.waiting[c];
        assert c == t && p in g && p in s.refCount;
        assert Waits(s.waiting, p) == {t};
        WokenWaitedForOne(s.refCount, s.waiting, t, p);
        assert p in woken;
      }
    }
  }

  lemma PostPendingChildren(s: State, t: Node, woken: seq<Node>)
    requires PendingChildrenValid(s, {t}) && t in s.waiting && t in s.status
    ensures PendingChildrenValid(Postprocess(s, t, woken), {})
  {
  }

  lemma SubsetDetects(g: Digraph, status: map<Node, Status>, pending: set<Node>, t: Node)
    requires KnotsDetected(g, status, pending) && t in status && !status[t].Pending?
    ensures KnotsDetected(g, status, pending - {t})
  {
    forall k | Knotted(g, k) && k != {} && AllPending(k, status) ensures k * (pending - {t}) != {} {
      var m :| m in k * pending;
      assert m in k * (pending - {t});
    }
  }

  lemma PostClean(g: Digraph, upToDate: set<Node>, s: State, t: Node, woken: seq<Node>)
    requires Over(g, s) && WaitersSound(g, s.status, s.waiting) && CountsExact(s.refCount, s.waiting)
    requires Clean(g, upToDate, s, {t}) && t in s.waiting && t in s.status && s.status[t].Succeeded()
    requires Lists(woken, Woken(s.refCount, s.waiting[t]))
    ensures Clean(g, upToDate, Postprocess(s, t, woken), {})
  {
    assert forall p :: p in woken <==> p in Elements(woken);
    PostForgotten(g, s, t, woken);
    PostPendingChildren(s, t, woken);
    SubsetDetects(g, s.status, s.pendingChildren, t);
  }
}
