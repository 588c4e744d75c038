/**
  The state of the build engine's Taskmaster and its steps, as values.

  A node is a number; the fields that the engine keeps on a node object (its state, its
  reference count and its set of waiting parents) are maps from nodes.
  */
module Scheduling {
  import opened Digraphs
  import opened Wrappers

  datatype Status = NoState | Pending | Executing | UpToDate | Executed | Failed {
    function Rank(): nat {
      match this
      case NoState => 0
      case Pending => 1
      case Executing => 2
      case UpToDate => 3
      case Executed => 4
      case Failed => 5
    }

    predicate Unfinished() {
      Rank() <= Executing.Rank()
    }

    predicate Succeeded() {
      UpToDate? || Executed?
    }

    predicate Begun() {
      Executing? || Succeeded()
    }
  }

  /**
    What a run is given: the dependencies of each node (order-only prerequisites chained with
    children, so repetitions may occur), the nodes whose executor has an action, the nodes found
    current when they are made ready, the ordering of new candidates, and the top targets.
    */
  datatype Config = Config(
    children: map<Node, seq<Node>>,
    hasAction: set<Node>,
    upToDate: set<Node>,
    order: seq<Node> -> seq<Node>,
    tops: seq<Node>)

  ghost predicate ValidConfig(cfg: Config) {
    && (forall n, c {:trigger c in cfg.children[n]} | n in cfg.children && c in cfg.children[n] :: c in cfg.children)
    && (forall l: seq<Node> {:trigger cfg.order(l)} :: multiset(cfg.order(l)) == multiset(l))
    && (forall t | t in cfg.tops :: t in cfg.children)
  }

  ghost function Deps(cfg: Config): Digraph {
    map n | n in cfg.children :: Elements(cfg.children[n])
  }

  /** The nodes a build of the top targets depends on, the top targets included. */
  ghost function Needed(cfg: Config): set<Node> {
    ReachSet(Deps(cfg), Elements(cfg.tops))
  }

  datatype State = State(
    candidates: seq<Node>,
    topLeft: seq<Node>,
    currentTop: Option<Node>,
    pendingChildren: set<Node>,
    status: map<Node, Status>,
    refCount: map<Node, int>,
    waiting: map<Node, set<Node>>,
    stopped: bool)

  ghost predicate Over(g: Digraph, s: State) {
    forall n {:trigger n in g} | n in g :: n in s.status && n in s.refCount && n in s.waiting
  }

  function Reverse<T(!new)>(s: seq<T>): (r: seq<T>)
    ensures forall x :: x in r <==> x in s
  {
    if s == [] then [] else Reverse(s[1..]) + [s[0]]
  }

  ghost function Init(cfg: Config): State {
    State([], Reverse(cfg.tops), None, {},
          map n | n in cfg.children :: NoState,
          map n | n in cfg.children :: 0,
          map n | n in cfg.children :: {},
          false)
  }

  /** The children that `p` is registered with as a waiting parent. */
  ghost function Waits(waiting: map<Node, set<Node>>, p: Node): set<Node> {
    set c | c in waiting && p in waiting[c]
  }

  // ---------------------------------------------------------------- Steps of the walk

  /** The children not visited yet, in scanning order, repetitions kept. */
  ghost function Unvisited(kids: seq<Node>, status: map<Node, Status>): (u: seq<Node>)
    requires forall c | c in kids :: c in status
    ensures forall c: Node {:trigger c in u} :: c in u <==> c in kids && status[c].NoState?
  {
    if kids == [] then []
    else
      var last := kids[|kids| - 1];
      Unvisited(kids[..|kids| - 1], status) + if status[last].NoState? then [last] else []
  }

  /** The unvisited children of `n` in the order in which they go on the stack. */
  ghost function NewCandidates(cfg: Config, n: Node, status: map<Node, Status>): (l: seq<Node>)
    requires ValidConfig(cfg) && n in Deps(cfg) && Deps(cfg).Keys <= status.Keys
    ensures forall c: Node {:trigger c in l} :: c in l <==> c in Deps(cfg)[n] && status[c].NoState?
  {
    assert forall c | c in cfg.children[n] :: c in Deps(cfg);
    var u := Reverse(Unvisited(cfg.children[n], status));
    OrderKeepsMembers(cfg, u);
    cfg.order(u)
  }

  lemma OrderKeepsMembers(cfg: Config, l: seq<Node>)
    requires ValidConfig(cfg)
    ensures forall x: Node :: x in cfg.order(l) <==> x in l
  {
    forall x: Node ensures x in cfg.order(l) <==> x in l {
      assert x in multiset(cfg.order(l)) <==> x in multiset(l);
    }
  }

  ghost function PendingOf(kids: set<Node>, status: map<Node, Status>): set<Node> {
    set c | c in kids && c in status && status[c].Pending?
  }

  ghost function UnfinishedOf(kids: set<Node>, status: map<Node, Status>): set<Node> {
    set c | c in kids && c in status && status[c].Unfinished()
  }

  ghost function FailedOf(kids: set<Node>, status: map<Node, Status>): set<Node> {
    set c | c in kids && c in status && status[c].Failed?
  }

  /** The node is marked as being walked and the nodes `l` become candidates. */
  ghost function Visit(s: State, n: Node, l: seq<Node>): State {
    s.(status := s.status[n := Pending], candidates := s.candidates + l)
  }

  ghost function AddWaiter(waiting: map<Node, set<Node>>, n: Node, kids: set<Node>): map<Node, set<Node>> {
    map c | c in waiting :: if c in kids then waiting[c] + {n} else waiting[c]
  }

  /** `n` becomes a waiting parent of its unfinished children; its count grows by the new ones. */
  ghost function WaitForKids(g: Digraph, s: State, n: Node): State
    requires n in s.refCount && n in g
  {
    var kids := UnfinishedOf(g[n], s.status);
    s.(waiting := AddWaiter(s.waiting, n, kids),
       refCount := s.refCount[n := s.refCount[n] + |kids - Waits(s.waiting, n)|],
       pendingChildren := s.pendingChildren + PendingOf(g[n], s.status))
  }

  datatype Verdict = AlreadyHandled | ChildFailed | NotReady | Ready

  ghost function Judge(g: Digraph, status: map<Node, Status>, n: Node): Verdict
    requires n in status && n in g
  {
    if status[n].Rank() > Pending.Rank() then AlreadyHandled
    else if FailedOf(g[n], status) != {} then ChildFailed
    else if UnfinishedOf(g[n], status) != {} then NotReady
    else Ready
  }

  /** Acts on the verdict about a node that has just been visited. */
  ghost function Settle(cfg: Config, s: State, n: Node): State
    requires Over(Deps(cfg), s) && n in Deps(cfg)
  {
    match Judge(Deps(cfg), s.status, n)
    case ChildFailed => if n in cfg.hasAction then SetStatus(s, n, Failed) else s
    case NotReady => WaitForKids(Deps(cfg), s, n)
    case _ => s
  }

  ghost predicate Handled(s: State, n: Node) {
    n in s.status && s.status[n].Rank() > Pending.Rank()
  }

  /** Looks at one candidate; the verdict `Ready` means that it can be built. */
  ghost function Consider(cfg: Config, s: State, n: Node): (State, Verdict)
    requires ValidConfig(cfg) && Over(Deps(cfg), s) && n in Deps(cfg)
  {
    if Handled(s, n) then (s, AlreadyHandled)
    else
      var visited := Visit(s, n, NewCandidates(cfg, n, s.status[n := Pending]));
      (Settle(cfg, visited, n), Judge(Deps(cfg), visited.status, n))
  }

  ghost predicate HasCandidate(s: State) {
    s.candidates != [] || s.topLeft != []
  }

  ghost function NextCandidate(s: State): Node
    requires HasCandidate(s)
  {
    if s.candidates != [] then s.candidates[|s.candidates| - 1] else s.topLeft[|s.topLeft| - 1]
  }

  ghost function PopCandidate(s: State): State
    requires HasCandidate(s)
  {
    if s.candidates != [] then
      s.(candidates := s.candidates[..|s.candidates| - 1])
    else
      s.(topLeft := s.topLeft[..|s.topLeft| - 1], currentTop := Some(s.topLeft[|s.topLeft| - 1]))
  }

  // ---------------------------------------------------------------- Steps of a task

  ghost function SetStatus(s: State, n: Node, st: Status): State {
    s.(status := s.status[n := st])
  }

  /** A node handed out as a task becomes executing, or up to date if it is current. */
  ghost function MakeReady(cfg: Config, s: State, n: Node): State {
    SetStatus(s, n, if n in cfg.upToDate then UpToDate else Executing)
  }

  /** A task that succeeded: only an executing node becomes executed. */
  ghost function MarkExecuted(s: State, n: Node): State
    requires n in s.status
  {
    if s.status[n].Executing? then SetStatus(s, n, Executed) else s
  }

  ghost function FailAll(status: map<Node, Status>, gone: set<Node>): map<Node, Status> {
    map n | n in status :: if n in gone then Failed else status[n]
  }

  ghost function Detach(waiting: map<Node, set<Node>>, gone: set<Node>): map<Node, set<Node>> {
    map n | n in waiting :: if n in gone then {} else waiting[n]
  }

  ghost function Deduct(refCount: map<Node, int>, waiting: map<Node, set<Node>>, gone: set<Node>): map<Node, int> {
    map p | p in refCount :: refCount[p] - |Waits(waiting, p) * gone|
  }

  /** Takes the nodes `gone` out of the run. */
  ghost function GiveUpOn(s: State, gone: set<Node>, fail: bool): State {
    s.(pendingChildren := s.pendingChildren - gone,
       status := if fail then FailAll(s.status, gone) else s.status,
       waiting := Detach(s.waiting, gone),
       refCount := Deduct(s.refCount, s.waiting, gone))
  }

  /** Gives up on the nodes `from` and on everything waiting for them, directly or not. */
  ghost function WillNotBuild(s: State, from: set<Node>, fail: bool): State {
    GiveUpOn(s, ReachSet(s.waiting, from), fail)
  }

  /** `w` lists every member of `ns` exactly once. */
  ghost predicate Lists(w: seq<Node>, ns: set<Node>) {
    && (forall i, j | 0 <= i < j < |w| :: w[i] != w[j])
    && Elements(w) == ns
  }

  ghost function Release(refCount: map<Node, int>, parents: set<Node>): map<Node, int> {
    map p | p in refCount :: if p in parents then refCount[p] - 1 else refCount[p]
  }

  ghost function Woken(refCount: map<Node, int>, parents: set<Node>): set<Node> {
    set p | p in parents && p in refCount && refCount[p] == 1
  }

  /**
    Post-processing of the target `t`: its waiting parents are released, and those that wait for
    nothing else (`woken`) go back on the candidate stack, in an order that the code leaves open.
    */
  ghost function Postprocess(s: State, t: Node, woken: seq<Node>): State
    requires t in s.waiting
  {
    s.(candidates := s.candidates + woken,
       pendingChildren := if s.waiting[t] == {} then s.pendingChildren else s.pendingChildren - {t},
       refCount := Release(s.refCount, s.waiting[t]),
       waiting := s.waiting[t := {}])
  }

  /** What a stopped Taskmaster does when asked for a candidate. */
  ghost function Abandon(s: State): State {
    WillNotBuild(s, Elements(s.candidates), false).(candidates := [])
  }

  // ---------------------------------------------------------------- Invariants

  ghost predicate CountsExact(refCount: map<Node, int>, waiting: map<Node, set<Node>>) {
    forall p {:trigger refCount[p]} | p in refCount :: refCount[p] == |Waits(waiting, p)|
  }

  ghost predicate WaitersSound(g: Digraph, status: map<Node, Status>, waiting: map<Node, set<Node>>) {
    forall c, p {:trigger p in waiting[c]} | c in waiting && p in waiting[c] ::
      p in g && c in g[p] && p in status && (status[p].Pending? || status[p].Failed?)
  }

  /** Nobody waits for a node that has succeeded, once its task has been post-processed. */
  ghost predicate NoneWaitsForDone(status: map<Node, Status>, waiting: map<Node, set<Node>>, busy: set<Node>) {
    forall c {:trigger waiting[c]} | c in waiting && waiting[c] != {} ::
      c in status && (!status[c].Succeeded() || c in busy)
  }

  /** Whatever has begun has all its dependencies built. */
  ghost predicate BuildOrder(g: Digraph, status: map<Node, Status>, busy: set<Node>) {
    forall n, c {:trigger c in g[n]} | n in g && n in status && status[n].Begun() && c in g[n] ::
      c in status && status[c].Succeeded() && c !in busy
  }

  /** No member of a knotted set ever begins. */
  ghost predicate KnotsUntouched(g: Digraph, status: map<Node, Status>) {
    forall k, n {:trigger Knotted(g, k), n in k} | Knotted(g, k) && n in k :: n in status && !status[n].Begun()
  }

  /** The walk stays inside the set `r` (the nodes of the graph, or the needed ones). */
  ghost predicate Confined(r: set<Node>, s: State) {
    && (forall n | n in s.candidates :: n in r)
    && (forall n | n in s.topLeft :: n in r)
    && (forall n {:trigger s.status[n]} | n in s.status && !s.status[n].NoState? :: n in r)
    && (s.currentTop.Some? ==> s.currentTop.value in r)
  }

  /** Nothing is looked at before a first top target has been taken. */
  ghost predicate TopKnown(s: State) {
    s.currentTop.None? ==>
      s.candidates == [] && forall n {:trigger s.status[n]} | n in s.status :: s.status[n].NoState?
  }

  /**
    What holds in every reachable state of every run, failures included. `busy` holds the node
    whose task the main thread has in hand, between being made ready and being post-processed.
    */
  ghost predicate Inv(g: Digraph, s: State, busy: set<Node>) {
    && Over(g, s)
    && Confined(g.Keys, s)
    && TopKnown(s)
    && s.pendingChildren <= g.Keys
    && WaitersSound(g, s.status, s.waiting)
    && NoneWaitsForDone(s.status, s.waiting, busy)
    && BuildOrder(g, s.status, busy)
  }

  /** `c` is on the stack, above every occurrence of `p`. */
  ghost predicate Above(stack: seq<Node>, c: Node, p: Node) {
    exists j :: 0 <= j < |stack| && stack[j] == c && p !in stack[j..]
  }

  ghost predicate StackSound(g: Digraph, status: map<Node, Status>, stack: seq<Node>) {
    forall p, c {:trigger c in g[p]} | p in g && p in status && status[p].Pending? && c in g[p] && c in status && status[c].NoState? ::
      Above(stack, c, p)
  }

  ghost predicate WaitsForSome(waiting: map<Node, set<Node>>, p: Node) {
    exists c {:trigger waiting[c]} :: c in waiting && p in waiting[c]
  }

  /** A pending node that waits at all waits for every child that is not finished. */
  ghost predicate WaitsComplete(g: Digraph, status: map<Node, Status>, waiting: map<Node, set<Node>>) {
    forall p, c {:trigger c in g[p]} |
      && p in g && p in status && status[p].Pending? && WaitsForSome(waiting, p)
      && c in g[p] && c in status && status[c].Unfinished() ::
      c in waiting && p in waiting[c]
  }

  ghost predicate TopsSeen(tops: seq<Node>, s: State) {
    forall t | t in tops :: t in s.topLeft || (t in s.status && !s.status[t].NoState?)
  }

  /** What also holds until the Taskmaster is told to stop. */
  ghost predicate Live(g: Digraph, tops: seq<Node>, s: State) {
    && !s.stopped
    && StackSound(g, s.status, s.candidates)
    && WaitsComplete(g, s.status, s.waiting)
    && TopsSeen(tops, s)
  }

  ghost predicate NoneFailed(status: map<Node, Status>) {
    forall n {:trigger status[n]} | n in status :: !status[n].Failed?
  }

  /** No pending node is forgotten: it is a candidate, waits for a child, or is in hand. */
  ghost predicate NoneForgotten(s: State, busy: set<Node>) {
    forall p {:trigger s.status[p]} | p in s.status && s.status[p].Pending? ::
      p in s.candidates || WaitsForSome(s.waiting, p) || p in busy
  }

  /** Every pending child is still unfinished and has a parent waiting for it. */
  ghost predicate PendingChildrenValid(s: State, busy: set<Node>) {
    forall t | t in s.pendingChildren ::
      && t in s.status && t in s.waiting
      && (s.status[t].Pending? || s.status[t].Executing? || t in busy)
      && s.waiting[t] != {}
  }

  ghost predicate AllPending(k: set<Node>, status: map<Node, Status>) {
    forall n | n in k :: n in status && status[n].Pending?
  }

  /** A knotted set that has been walked entirely has a member among the pending children. */
  ghost predicate KnotsDetected(g: Digraph, status: map<Node, Status>, pendingChildren: set<Node>) {
    forall k {:trigger Knotted(g, k)} | Knotted(g, k) && k != {} && AllPending(k, status) :: k * pendingChildren != {}
  }

  ghost predicate OracleFollowed(upToDate: set<Node>, status: map<Node, Status>) {
    forall n {:trigger status[n]} | n in status ::
      && (status[n].UpToDate? ==> n in upToDate)
      && (status[n].Executing? || status[n].Executed? ==> n !in upToDate)
  }

  /** What also holds as long as no task has failed. */
  ghost predicate Clean(g: Digraph, upToDate: set<Node>, s: State, busy: set<Node>) {
    && NoneFailed(s.status)
    && NoneForgotten(s, busy)
    && PendingChildrenValid(s, busy)
    && OracleFollowed(upToDate, s.status)
    && KnotsUntouched(g, s.status)
    && KnotsDetected(g, s.status, s.pendingChildren)
  }
}
