/**
  The request broker between the clients and the single-request workers, as a message-passing
  protocol: frames on sockets, a queue of idle workers, and any interleaving of all parties.
  */
module Broker {
  import opened Wrappers

  datatype Request = Request(from1: string, from2: string, body: string)
  datatype Reply = Reply(to1: string, to2: string, body: string)

  /** What a worker sends to the broker. */
  datatype Message = Ready(worker: string) | Answer(worker: string, reply: Reply)

  const READY := "READY"

  // ---------------------------------------------------------------- Messages as frames

  function Frames(m: Message): seq<string> {
    match m
    case Ready(w) => [w, "", READY]
    case Answer(w, r) => [w, "", r.to1, r.to2, "", r.body]
  }

  function Encode(msgs: seq<Message>): seq<string> {
    if msgs == [] then [] else Frames(msgs[0]) + Encode(msgs[1..])
  }

  datatype Reading = Blocked | Malformed | Got(m: Message, rest: seq<string>)

  /** The broker's reading of one message: the third frame alone tells a reply from an announcement. */
  function ReadMessage(frames: seq<string>): (r: Reading)
    ensures r.Got? ==> |r.rest| + 3 <= |frames|
  {
    if |frames| < 2 then Blocked
    else if frames[1] != "" then Malformed
    else if |frames| < 3 then Blocked
    else if frames[2] == READY then Got(Ready(frames[0]), frames[3..])
    else if |frames| < 5 then Blocked
    else if frames[4] != "" then Malformed
    else if |frames| < 6 then Blocked
    else Got(Answer(frames[0], Reply(frames[2], frames[3], frames[5])), frames[6..])
  }

  function Decode(frames: seq<string>): Option<seq<Message>>
    decreases |frames|
  {
    if frames == [] then Some([])
    else
      match ReadMessage(frames)
      case Got(m, rest) => (match Decode(rest) case Some(ms) => Some([m] + ms) case None => None)
      case _ => None
  }

  predicate Distinguishable(m: Message) {
    m.Answer? ==> m.reply.to1 != READY
  }

  lemma ReadBack(m: Message, rest: seq<string>)
    ensures Distinguishable(m) ==> ReadMessage(Frames(m) + rest) == Got(m, rest)
    ensures !Distinguishable(m) ==>
      ReadMessage(Frames(m) + rest) == Got(Ready(m.worker), [m.reply.to2, "", m.reply.body] + rest)
  {
    var f := Frames(m) + rest;
    if m.Answer? {
      assert f[6..] == rest && f[3..] == [m.reply.to2, "", m.reply.body] + rest;
    } else {
      assert f[3..] == rest;
    }
  }

  /** Reading on after a first message that can be told apart. */
  lemma DecodeNext(m: Message, more: seq<Message>)
    requires Distinguishable(m)
    ensures Decode(Encode([m] + more)) == Some([m] + more) <==> Decode(Encode(more)) == Some(more)
  {
    assert ([m] + more)[1..] == more;
    ReadBack(m, Encode(more));
    var d := Decode(Encode(more));
    if d.Some? && d.value != more {
      assert ([m] + d.value)[1..] == d.value;
    }
  }

  /** The broker reads back what the workers sent exactly when no reply goes to a client called READY. */
  lemma {:induction false} DecodeEncodeIff(msgs: seq<Message>)
    ensures Decode(Encode(msgs)) == Some(msgs) <==> forall i | 0 <= i < |msgs| :: Distinguishable(msgs[i])
  {
    if msgs != [] {
      var m, more := msgs[0], msgs[1..];
      assert msgs == [m] + more;
      if Distinguishable(m) {
        DecodeNext(m, more);
        DecodeEncodeIff(more);
        assert forall i | 0 <= i < |more| :: msgs[i + 1] == more[i];
        assert forall i | 0 < i < |msgs| :: msgs[i] == more[i - 1];
      } else {
        ReadBack(m, Encode(more));
        assert Decode(Encode(msgs)).Some? ==> Decode(Encode(msgs)).value[0].Ready?;
      }
    }
  }

  lemma {:induction false} EncodeMore(msgs: seq<Message>, m: Message)
    ensures Encode(msgs + [m]) == Encode(msgs) + Frames(m)
  {
    if msgs == [] {
      assert (msgs + [m])[1..] == [];
    } else {
      assert (msgs + [m])[1..] == msgs[1..] + [m];
      EncodeMore(msgs[1..], m);
    }
  }

  // ---------------------------------------------------------------- The parties and their steps

  datatype Phase = Starting | Waiting | Working(job: Request)

  /** Where the broker stands in its loop; `Aborted` is a failed assertion or a pop of an empty queue. */
  datatype Turn = AtPoll | AtWorkers(clientsToo: bool) | AtClients | Aborted

  /**
    The state of all parties. The last six components are logs: every request handed to a worker and
    the worker it went to, every worker put in the queue, the request each worker holds, what it was
    answered, and which request each reply belongs to. A request is known by its place in the log.
    */
  datatype Net = Net(
    phase: map<string, Phase>, inbox: map<string, seq<Request>>,
    stream: seq<string>, pending: seq<Request>,
    turn: Turn, queue: seq<string>, sent: seq<Reply>,
    accepted: seq<Request>, used: seq<string>, pushed: seq<string>,
    held: map<string, nat>, computed: map<nat, string>, tickets: seq<nat>)

  datatype Event = Submit(r: Request) | Announce(w: string) | Receive(w: string) | Respond(w: string, body: string) | BrokerStep

  function Init(workers: set<string>): Net {
    Net(map w | w in workers :: Starting, map w | w in workers :: [], [], [], AtPoll, [], [], [], [], [], map[], map[], [])
  }

  function StepAnnounce(n: Net, w: string): Net {
    if w in n.phase && n.phase[w].Starting?
    then n.(phase := n.phase[w := Waiting], stream := n.stream + Frames(Ready(w)))
    else n
  }

  function StepReceive(n: Net, w: string): Net {
    if w in n.phase && w in n.inbox && n.phase[w].Waiting? && n.inbox[w] != []
    then n.(phase := n.phase[w := Working(n.inbox[w][0])], inbox := n.inbox[w := n.inbox[w][1..]])
    else n
  }

  function StepRespond(n: Net, w: string, body: string): Net {
    if w in n.phase && n.phase[w].Working?
    then
      var job := n.phase[w].job;
      n.(phase := n.phase[w := Waiting],
         stream := n.stream + Frames(Answer(w, Reply(job.from1, job.from2, body))),
         computed := if w in n.held then n.computed[n.held[w] := body] else n.computed)
    else n
  }

  /** The broker waits for workers always, and for clients only while a worker is idle. */
  function StepPoll(n: Net): Net {
    var clients := n.queue != [] && n.pending != [];
    n.(turn := if n.stream != [] then AtWorkers(clients) else if clients then AtClients else AtPoll)
  }

  function StepFromWorker(n: Net): Net
    requires n.turn.AtWorkers?
  {
    match ReadMessage(n.stream)
    case Blocked => n
    case Malformed => n.(turn := Aborted)
    case Got(m, rest) =>
      var w := m.worker;
      var n' := n.(stream := rest, queue := n.queue + [w], pushed := n.pushed + [w],
                   turn := if n.turn.clientsToo then AtClients else AtPoll);
      if m.Ready? then n'
      else
        n'.(sent := n.sent + [m.reply],
            tickets := if w in n.held then n.tickets + [n.held[w]] else n.tickets,
            held := n.held - {w})
  }

  /** Frames for an unknown address are dropped. */
  function Deliver(inbox: map<string, seq<Request>>, w: string, r: Request): map<string, seq<Request>> {
    if w in inbox then inbox[w := inbox[w] + [r]] else inbox
  }

  function StepFromClient(n: Net): Net {
    if n.queue == [] || n.pending == [] then n.(turn := Aborted)
    else
      var w, r := n.queue[0], n.pending[0];
      n.(queue := n.queue[1..], pending := n.pending[1..], turn := AtPoll,
         inbox := Deliver(n.inbox, w, r),
         accepted := n.accepted + [r], used := n.used + [w], held := n.held[w := |n.accepted|])
  }

  function Step(n: Net, e: Event): Net {
    match e
    case Submit(r) => n.(pending := n.pending + [r])
    case Announce(w) => StepAnnounce(n, w)
    case Receive(w) => StepReceive(n, w)
    case Respond(w, body) => StepRespond(n, w, body)
    case BrokerStep =>
      match n.turn
      case AtPoll => StepPoll(n)
      case AtWorkers(_) => StepFromWorker(n)
      case AtClients => StepFromClient(n)
      case Aborted => n
  }

  function Exec(n: Net, events: seq<Event>): Net
    decreases |events|
  {
    if events == [] then n else Step(Exec(n, events[..|events| - 1]), events[|events| - 1])
  }

  // ---------------------------------------------------------------- What every step keeps

  /** The messages of one worker that the broker has not read. */
  function From(msgs: seq<Message>, w: string): seq<Message> {
    if msgs == [] then [] else Own(msgs[0], w) + From(msgs[1..], w)
  }

  function Own(m: Message, w: string): seq<Message> {
    if m.worker == w then [m] else []
  }

  lemma {:induction false} FromMore(msgs: seq<Message>, m: Message, w: string)
    ensures From(msgs + [m], w) == From(msgs, w) + Own(m, w)
  {
    var all := msgs + [m];
    if msgs == [] {
      assert all[1..] == [];
      assert From(all, w) == Own(m, w) + [] == [] + Own(m, w);
    } else {
      assert all[1..] == msgs[1..] + [m];
      FromMore(msgs[1..], m, w);
      var first, rest := Own(msgs[0], w), From(msgs[1..], w);
      assert From(all, w) == first + (rest + Own(m, w)) == (first + rest) + Own(m, w);
    }
  }

  lemma {:induction false} FromIsIn(msgs: seq<Message>, w: string)
    ensures forall i | 0 <= i < |From(msgs, w)| :: From(msgs, w)[i].worker == w && From(msgs, w)[i] in msgs
  {
    if msgs != [] {
      FromIsIn(msgs[1..], w);
    }
  }

  /** A worker with a job has it in its inbox, or in hand, or has answered it. */
  predicate Busy(w: string, ph: Phase, inbox: seq<Request>, mail: seq<Message>, job: Request, computed: Option<string>) {
    || (ph.Waiting? && inbox == [job] && mail == [] && computed.None?)
    || (ph == Working(job) && inbox == [] && mail == [] && computed.None?)
    || (ph.Waiting? && inbox == [] && computed.Some? && mail == [Answer(w, Reply(job.from1, job.from2, computed.value))])
  }

  /** A worker without a job is starting, or announcing itself, or idle in the queue. */
  predicate Free(w: string, ph: Phase, inbox: seq<Request>, mail: seq<Message>, queued: bool) {
    && inbox == []
    && ((ph.Starting? && mail == [] && !queued)
        || (ph.Waiting? && mail == [Ready(w)] && !queued)
        || (ph.Waiting? && mail == [] && queued))
  }

  function ComputedFor(computed: map<nat, string>, t: nat): Option<string> {
    if t in computed then Some(computed[t]) else None
  }

  ghost predicate Placed(n: Net, msgs: seq<Message>, w: string)
    requires w in n.phase && w in n.inbox
  {
    if w in n.held then
      && w !in n.queue
      && n.held[w] < |n.accepted|
      && Busy(w, n.phase[w], n.inbox[w], From(msgs, w), n.accepted[n.held[w]], ComputedFor(n.computed, n.held[w]))
    else
      Free(w, n.phase[w], n.inbox[w], From(msgs, w), w in n.queue)
  }

  /** Everyone named anywhere is one of the workers, and every reply can be told from an announcement. */
  ghost predicate Proper(n: Net, msgs: seq<Message>) {
    && n.phase.Keys == n.inbox.Keys
    && (forall m | m in msgs :: m.worker in n.phase && Distinguishable(m))
    && (forall w | w in n.queue :: w in n.phase)
    && (forall w | w in n.held :: w in n.phase)
  }

  ghost predicate Placing(n: Net, msgs: seq<Message>) {
    && Proper(n, msgs)
    && (forall w | w in n.phase :: Placed(n, msgs, w))
  }

  ghost predicate Turns(n: Net, msgs: seq<Message>) {
    && n.stream == Encode(msgs)
    && !n.turn.Aborted?
    && (n.turn.AtWorkers? ==> msgs != [])
    && (n.turn.AtClients? || n.turn == AtWorkers(true) ==> n.queue != [] && n.pending != [])
  }

  ghost predicate NoRepeats<T>(s: seq<T>) {
    forall i, j | 0 <= i < j < |s| :: s[i] != s[j]
  }

  ghost predicate Known(requests: seq<Request>) {
    forall r | r in requests :: r.from1 != READY
  }

  ghost predicate Queued(n: Net) {
    && NoRepeats(n.queue)
    && n.pushed == n.used + n.queue
    && |n.used| == |n.accepted|
    && Known(n.accepted) && Known(n.pending)
  }

  /** Each request handed out is held by the worker it went to, or was answered once, to its own address. */
  ghost predicate Ticketed(accepted: seq<Request>, used: seq<string>, held: map<string, nat>, computed: map<nat, string>,
                           tickets: seq<nat>, sent: seq<Reply>) {
    && |used| == |accepted|
    && |tickets| == |sent|
    && (forall w | w in held :: held[w] < |accepted| && used[held[w]] == w && held[w] !in tickets)
    && (forall t | t in tickets :: t < |accepted|)
    && NoRepeats(tickets)
    && (forall k | 0 <= k < |sent| :: AnswerTo(accepted, computed, tickets[k], sent[k]))
    && (forall t: nat | t < |accepted| :: t in tickets || (used[t] in held && held[used[t]] == t))
    && (forall t | t in computed :: t < |accepted|)
  }

  predicate AnswerTo(accepted: seq<Request>, computed: map<nat, string>, t: nat, reply: Reply) {
    && t < |accepted|
    && t in computed
    && reply == Reply(accepted[t].from1, accepted[t].from2, computed[t])
  }

  ghost predicate Inv(n: Net, msgs: seq<Message>) {
    && Turns(n, msgs)
    && Queued(n)
    && Placing(n, msgs)
    && Ticketed(n.accepted, n.used, n.held, n.computed, n.tickets, n.sent)
  }

  // An announcement.

  lemma PlacedAnnounce(n: Net, msgs: seq<Message>, w: string, v: string)
    requires w in n.phase && n.phase[w].Starting? && w in n.inbox && Placed(n, msgs, w)
    requires v in n.phase && v in n.inbox && Placed(n, msgs, v)
    ensures Placed(StepAnnounce(n, w), msgs + [Ready(w)], v)
  {
    FromMore(msgs, Ready(w), v);
  }

  lemma TurnsMore(n: Net, n': Net, msgs: seq<Message>, m: Message)
    requires Turns(n, msgs)
    requires n'.stream == n.stream + Frames(m)
    requires n'.turn == n.turn && n'.queue == n.queue && n'.pending == n.pending
    ensures Turns(n', msgs + [m])
  {
    EncodeMore(msgs, m);
  }

  lemma ProperMore(n: Net, n': Net, msgs: seq<Message>, m: Message)
    requires Proper(n, msgs) && m.worker in n.phase && Distinguishable(m)
    requires n'.phase.Keys == n.phase.Keys && n'.inbox == n.inbox && n'.queue == n.queue && n'.held == n.held
    ensures Proper(n', msgs + [m])
  {
  }

  lemma PlacingAnnounce(n: Net, msgs: seq<Message>, w: string)
    requires Placing(n, msgs) && w in n.phase && n.phase[w].Starting?
    ensures Placing(StepAnnounce(n, w), msgs + [Ready(w)])
  {
    var n', msgs' := StepAnnounce(n, w), msgs + [Ready(w)];
    KeysUpdate(n.phase, w, Waiting);
    ProperMore(n, n', msgs, Ready(w));
    forall v | v in n.phase ensures Placed(n', msgs', v) {
      PlacedAnnounce(n, msgs, w, v);
    }
  }

  lemma KeepAnnounce(n: Net, msgs: seq<Message>, w: string) returns (msgs': seq<Message>)
    requires Inv(n, msgs)
    ensures Inv(StepAnnounce(n, w), msgs')
  {
    msgs' := msgs;
    if w in n.phase && n.phase[w].Starting? {
      msgs' := msgs + [Ready(w)];
      TurnsMore(n, StepAnnounce(n, w), msgs, Ready(w));
      PlacingAnnounce(n, msgs, w);
    }
  }

  // A worker taking its job.

  lemma PlacedReceive(n: Net, msgs: seq<Message>, w: string, v: string)
    requires w in n.phase && w in n.inbox && Placed(n, msgs, w)
    requires v in n.phase && v in n.inbox && Placed(n, msgs, v)
    ensures Placed(StepReceive(n, w), msgs, v)
  {
  }

  lemma PlacingReceive(n: Net, msgs: seq<Message>, w: string)
    requires Placing(n, msgs) && w in n.phase && n.inbox[w] != []
    ensures Placing(StepReceive(n, w), msgs)
  {
    var n' := StepReceive(n, w);
    KeysUpdate(n.phase, w, Working(n.inbox[w][0]));
    KeysUpdate(n.inbox, w, n.inbox[w][1..]);
    assert Placed(n, msgs, w);
    forall v | v in n.phase ensures Placed(n', msgs, v) {
      PlacedReceive(n, msgs, w, v);
    }
  }

  lemma KeepReceive(n: Net, msgs: seq<Message>, w: string)
    requires Inv(n, msgs)
    ensures Inv(StepReceive(n, w), msgs)
  {
    if w in n.phase && n.inbox[w] != [] {
      PlacingReceive(n, msgs, w);
    }
  }

  // A worker's answer.

  lemma PlacedRespond(n: Net, msgs: seq<Message>, w: string, body: string, v: string)
    requires w in n.phase && n.phase[w].Working? && w in n.inbox && Placed(n, msgs, w)
    requires v in n.phase && v in n.inbox && Placed(n, msgs, v)
    requires v in n.held && w in n.held && v != w ==> n.held[v] != n.held[w]
    ensures var job := n.phase[w].job;
      Placed(StepRespond(n, w, body), msgs + [Answer(w, Reply(job.from1, job.from2, body))], v)
  {
    var job := n.phase[w].job;
    FromMore(msgs, Answer(w, Reply(job.from1, job.from2, body)), v);
  }

  lemma PlacingRespond(n: Net, msgs: seq<Message>, w: string, body: string)
    requires Placing(n, msgs) && w in n.phase && n.phase[w].Working?
    requires Known(n.accepted)
    requires forall v, u | v in n.held && u in n.held && v != u :: n.held[v] != n.held[u]
    ensures var job := n.phase[w].job;
      Placing(StepRespond(n, w, body), msgs + [Answer(w, Reply(job.from1, job.from2, body))])
  {
    var job := n.phase[w].job;
    var m := Answer(w, Reply(job.from1, job.from2, body));
    var n' := StepRespond(n, w, body);
    assert Distinguishable(m) by {
      assert Placed(n, msgs, w);
      assert job == n.accepted[n.held[w]];
    }
    KeysUpdate(n.phase, w, Waiting);
    ProperMore(n, n', msgs, m);
    forall v | v in n.phase ensures Placed(n', msgs + [m], v) {
      PlacedRespond(n, msgs, w, body, v);
    }
  }

  lemma TicketedRespond(accepted: seq<Request>, used: seq<string>, held: map<string, nat>, computed: map<nat, string>,
                        tickets: seq<nat>, sent: seq<Reply>, w: string, body: string)
    requires Ticketed(accepted, used, held, computed, tickets, sent) && w in held
    ensures Ticketed(accepted, used, held, computed[held[w] := body], tickets, sent)
  {
    forall k | 0 <= k < |sent| ensures AnswerTo(accepted, computed[held[w] := body], tickets[k], sent[k]) {
      assert tickets[k] in tickets;
      assert AnswerTo(accepted, computed, tickets[k], sent[k]);
    }
  }

  lemma KeepRespond(n: Net, msgs: seq<Message>, w: string, body: string) returns (msgs': seq<Message>)
    requires Inv(n, msgs)
    ensures Inv(StepRespond(n, w, body), msgs')
  {
    msgs' := msgs;
    if w in n.phase && n.phase[w].Working? {
      assert Placed(n, msgs, w);
      var job := n.phase[w].job;
      var m := Answer(w, Reply(job.from1, job.from2, body));
      msgs' := msgs + [m];
      TurnsMore(n, StepRespond(n, w, body), msgs, m);
      PlacingRespond(n, msgs, w, body);
      TicketedRespond(n.accepted, n.used, n.held, n.computed, n.tickets, n.sent, w, body);
    }
  }

  // The broker reading a message of a worker.

  /** The worker whose message is read had no place in the queue, and holds a job exactly if it answers one. */
  lemma SenderPlaced(n: Net, msgs: seq<Message>, m: Message)
    requires msgs != [] && m == msgs[0] && m.worker in n.phase && m.worker in n.inbox && Placed(n, msgs, m.worker)
    ensures m.worker !in n.queue && (m.Answer? <==> m.worker in n.held)
    ensures m.Answer? ==>
      n.held[m.worker] < |n.accepted|
      && ComputedFor(n.computed, n.held[m.worker]).Some?
      && m.reply == Reply(n.accepted[n.held[m.worker]].from1, n.accepted[n.held[m.worker]].from2, n.computed[n.held[m.worker]])
  {
    assert From(msgs, m.worker)[0] == m;
  }

  lemma PlacedFromWorker(n: Net, msgs: seq<Message>, v: string)
    requires n.turn.AtWorkers? && msgs != [] && n.stream == Encode(msgs) && Distinguishable(msgs[0])
    requires v in n.phase && v in n.inbox && Placed(n, msgs, v)
    ensures Placed(StepFromWorker(n), msgs[1..], v)
  {
    var m := msgs[0];
    ReadBack(m, Encode(msgs[1..]));
    assert From(msgs, v) == Own(m, v) + From(msgs[1..], v);
    var n' := StepFromWorker(n);
    if v == m.worker {
      assert From(msgs, v)[0] == m;
      assert n'.queue[|n.queue|] == v;
    } else {
      assert v in n'.queue <==> v in n.queue;
    }
  }

  lemma ProperFromWorker(n: Net, msgs: seq<Message>)
    requires n.turn.AtWorkers? && msgs != [] && n.stream == Encode(msgs) && Proper(n, msgs)
    ensures Proper(StepFromWorker(n), msgs[1..])
    ensures StepFromWorker(n).phase == n.phase && StepFromWorker(n).inbox == n.inbox
  {
    assert msgs[0] in msgs;
    ReadBack(msgs[0], Encode(msgs[1..]));
    forall m | m in msgs[1..] ensures m in msgs {
    }
  }

  lemma PlacingFromWorker(n: Net, msgs: seq<Message>)
    requires n.turn.AtWorkers? && msgs != [] && n.stream == Encode(msgs) && Placing(n, msgs)
    ensures Placing(StepFromWorker(n), msgs[1..])
  {
    assert msgs[0] in msgs;
    ProperFromWorker(n, msgs);
    forall v | v in n.phase ensures Placed(StepFromWorker(n), msgs[1..], v) {
      PlacedFromWorker(n, msgs, v);
    }
  }

  lemma NoRepeatsMore<T>(s: seq<T>, x: T)
    requires NoRepeats(s) && x !in s
    ensures NoRepeats(s + [x])
  {
  }

  lemma TicketedAnswered(accepted: seq<Request>, used: seq<string>, held: map<string, nat>, computed: map<nat, string>,
                         tickets: seq<nat>, sent: seq<Reply>, w: string, reply: Reply)
    requires Ticketed(accepted, used, held, computed, tickets, sent)
    requires w in held && AnswerTo(accepted, computed, held[w], reply)
    ensures Ticketed(accepted, used, held - {w}, computed, tickets + [held[w]], sent + [reply])
  {
    var tickets' := tickets + [held[w]];
    NoRepeatsMore(tickets, held[w]);
    forall v | v in held - {w} ensures held[v] !in tickets' {
      assert used[held[v]] == v;
    }
    assert tickets'[|tickets|] in tickets';
    forall t: nat | t < |accepted| ensures t in tickets' || (used[t] in held - {w} && held[used[t]] == t) {
      if t in tickets {
        var k :| 0 <= k < |tickets| && tickets[k] == t;
        assert tickets'[k] == t;
      }
    }
  }

  lemma TurnsFromWorker(n: Net, msgs: seq<Message>)
    requires n.turn.AtWorkers? && Turns(n, msgs) && Distinguishable(msgs[0])
    ensures Turns(StepFromWorker(n), msgs[1..])
  {
    ReadBack(msgs[0], Encode(msgs[1..]));
  }

  lemma QueuedFromWorker(n: Net, msgs: seq<Message>)
    requires n.turn.AtWorkers? && msgs != [] && n.stream == Encode(msgs) && Distinguishable(msgs[0])
    requires Queued(n) && msgs[0].worker !in n.queue
    ensures Queued(StepFromWorker(n))
  {
    ReadBack(msgs[0], Encode(msgs[1..]));
    NoRepeatsMore(n.queue, msgs[0].worker);
  }

  lemma TicketedFromWorker(n: Net, msgs: seq<Message>, m: Message)
    requires n.turn.AtWorkers? && msgs != [] && m == msgs[0] && n.stream == Encode(msgs) && Distinguishable(m)
    requires m.worker in n.phase && m.worker in n.inbox && Placed(n, msgs, m.worker)
    requires Ticketed(n.accepted, n.used, n.held, n.computed, n.tickets, n.sent)
    ensures var n' := StepFromWorker(n); Ticketed(n'.accepted, n'.used, n'.held, n'.computed, n'.tickets, n'.sent)
  {
    ReadBack(m, Encode(msgs[1..]));
    SenderPlaced(n, msgs, m);
    if m.Answer? {
      TicketedAnswered(n.accepted, n.used, n.held, n.computed, n.tickets, n.sent, m.worker, m.reply);
    }
  }

  lemma KeepFromWorker(n: Net, msgs: seq<Message>) returns (msgs': seq<Message>)
    requires Inv(n, msgs) && n.turn.AtWorkers?
    ensures Inv(StepFromWorker(n), msgs')
  {
    msgs' := msgs[1..];
    assert msgs[0] in msgs;
    SenderPlaced(n, msgs, msgs[0]);
    TurnsFromWorker(n, msgs);
    QueuedFromWorker(n, msgs);
    PlacingFromWorker(n, msgs);
    TicketedFromWorker(n, msgs, msgs[0]);
  }

  // The broker handing a request to the worker that has been idle longest.

  lemma PlacedFromClient(n: Net, msgs: seq<Message>, v: string)
    requires n.queue != [] && n.pending != [] && NoRepeats(n.queue)
    requires n.queue[0] in n.phase && n.queue[0] in n.inbox && Placed(n, msgs, n.queue[0])
    requires forall t | t in n.computed :: t < |n.accepted|
    requires v in n.phase && v in n.inbox && Placed(n, msgs, v)
    ensures Placed(StepFromClient(n), msgs, v)
  {
    var w, r, n' := n.queue[0], n.pending[0], StepFromClient(n);
    assert w in n.queue;
    if v == w {
      assert n.inbox[w] + [r] == [r];
    } else {
      if v in n.queue {
        var i :| 0 <= i < |n.queue| && n.queue[i] == v;
        assert n'.queue[i - 1] == v;
      }
      assert v in n'.queue <==> v in n.queue;
    }
  }

  lemma PlacingFromClient(n: Net, msgs: seq<Message>)
    requires n.queue != [] && n.pending != [] && NoRepeats(n.queue) && Placing(n, msgs)
    requires forall t | t in n.computed :: t < |n.accepted|
    ensures Placing(StepFromClient(n), msgs)
  {
    var n' := StepFromClient(n);
    var w := n.queue[0];
    assert w in n.queue;
    assert n'.inbox.Keys == n.inbox.Keys;
    assert Placed(n, msgs, w);
    forall v | v in n'.phase ensures Placed(n', msgs, v) {
      PlacedFromClient(n, msgs, v);
    }
  }

  lemma TicketedAccepted(accepted: seq<Request>, used: seq<string>, held: map<string, nat>, computed: map<nat, string>,
                         tickets: seq<nat>, sent: seq<Reply>, w: string, r: Request)
    requires Ticketed(accepted, used, held, computed, tickets, sent) && w !in held
    ensures Ticketed(accepted + [r], used + [w], held[w := |accepted|], computed, tickets, sent)
  {
    forall k | 0 <= k < |sent| ensures AnswerTo(accepted + [r], computed, tickets[k], sent[k]) {
      assert AnswerTo(accepted, computed, tickets[k], sent[k]);
    }
  }

  lemma QueuedFromClient(n: Net)
    requires n.queue != [] && n.pending != [] && Queued(n)
    ensures Queued(StepFromClient(n))
  {
    assert n.pending[0] in n.pending;
    assert (n.used + [n.queue[0]]) + n.queue[1..] == n.used + n.queue;
  }

  lemma KeepFromClient(n: Net, msgs: seq<Message>)
    requires Inv(n, msgs) && n.turn.AtClients?
    ensures Inv(StepFromClient(n), msgs)
  {
    var w := n.queue[0];
    assert w !in n.held by {
      assert w in n.queue;
      assert Placed(n, msgs, w);
    }
    QueuedFromClient(n);
    PlacingFromClient(n, msgs);
    TicketedAccepted(n.accepted, n.used, n.held, n.computed, n.tickets, n.sent, w, n.pending[0]);
  }

  lemma KeepSubmit(n: Net, msgs: seq<Message>, r: Request)
    requires Inv(n, msgs) && r.from1 != READY
    ensures Inv(Step(n, Submit(r)), msgs)
  {
    var n' := Step(n, Submit(r));
    forall v | v in n'.phase ensures Placed(n', msgs, v) {
      assert Placed(n, msgs, v);
    }
  }

  lemma KeepPoll(n: Net, msgs: seq<Message>)
    requires Inv(n, msgs) && n.turn.AtPoll?
    ensures Inv(StepPoll(n), msgs)
  {
    var n' := StepPoll(n);
    forall v | v in n'.phase ensures Placed(n', msgs, v) {
      assert Placed(n, msgs, v);
    }
  }

  predicate KnownClient(e: Event) {
    e.Submit? ==> e.r.from1 != READY
  }

  lemma KeepStep(n: Net, msgs: seq<Message>, e: Event) returns (msgs': seq<Message>)
    requires Inv(n, msgs) && KnownClient(e)
    ensures Inv(Step(n, e), msgs')
  {
    msgs' := msgs;
    match e
    case Submit(r) => KeepSubmit(n, msgs, r);
    case Announce(w) => msgs' := KeepAnnounce(n, msgs, w);
    case Receive(w) => KeepReceive(n, msgs, w);
    case Respond(w, body) => msgs' := KeepRespond(n, msgs, w, body);
    case BrokerStep =>
      match n.turn {
        case AtPoll => KeepPoll(n, msgs);
        case AtWorkers(_) => msgs' := KeepFromWorker(n, msgs);
        case AtClients => KeepFromClient(n, msgs);
      }
  }

  /** Every state that any interleaving of the parties can reach. */
  lemma {:induction false} EveryState(workers: set<string>, events: seq<Event>) returns (msgs: seq<Message>)
    requires forall e | e in events :: KnownClient(e)
    ensures Inv(Exec(Init(workers), events), msgs)
    decreases |events|
  {
    if events == [] {
      msgs := [];
    } else {
      var last := |events| - 1;
      assert events[last] in events;
      msgs := EveryState(workers, events[..last]);
      msgs := KeepStep(Exec(Init(workers), events[..last]), msgs, events[last]);
    }
  }

  // ---------------------------------------------------------------- What holds in every run

  function Bit(b: bool): nat {
    if b then 1 else 0
  }

  /** In how many of its four possible places a worker is: starting, announcing, queued, holding a request. */
  ghost function Places(n: Net, unread: seq<Message>, w: string): nat
    requires w in n.phase
  {
    Bit(n.phase[w].Starting?) + Bit(Ready(w) in unread) + multiset(n.queue)[w] + Bit(w in n.held)
  }

  /** A held request is in the worker's inbox, in its hands, or in a reply of its own on the way. */
  predicate HeldOnce(n: Net, unread: seq<Message>, w: string)
    requires w in n.phase && w in n.inbox && w in n.held && n.held[w] < |n.accepted|
  {
    var r := n.accepted[n.held[w]];
    || (n.inbox[w] == [r] && n.phase[w].Waiting? && From(unread, w) == [])
    || (n.inbox[w] == [] && n.phase[w] == Working(r) && From(unread, w) == [])
    || (n.inbox[w] == [] && n.phase[w].Waiting? && |From(unread, w)| == 1 && From(unread, w)[0].Answer?
        && From(unread, w)[0].reply.to1 == r.from1 && From(unread, w)[0].reply.to2 == r.from2)
  }

  lemma {:induction false} CountNoRepeats<T>(s: seq<T>, x: T)
    requires NoRepeats(s)
    ensures multiset(s)[x] == if x in s then 1 else 0
  {
    if s != [] {
      var rest := s[1..];
      assert s == [s[0]] + rest;
      assert NoRepeats(rest) by {
        forall i, j | 0 <= i < j < |rest| ensures rest[i] != rest[j] {
          assert rest[i] == s[i + 1] && rest[j] == s[j + 1];
        }
      }
      CountNoRepeats(rest, x);
      assert s[0] !in rest by {
        forall j | 0 <= j < |rest| ensures rest[j] != s[0] {
          assert rest[j] == s[j + 1];
        }
      }
    }
  }

  lemma {:induction false} FromHas(msgs: seq<Message>, m: Message)
    ensures m in msgs <==> m in From(msgs, m.worker)
  {
    if msgs != [] {
      FromHas(msgs[1..], m);
    }
  }

  lemma PlaceOf(n: Net, msgs: seq<Message>, w: string)
    requires w in n.phase && w in n.inbox && Placed(n, msgs, w) && NoRepeats(n.queue)
    ensures Places(n, msgs, w) == 1
    ensures w in n.held ==> n.held[w] < |n.accepted| && HeldOnce(n, msgs, w)
  {
    CountNoRepeats(n.queue, w);
    FromHas(msgs, Ready(w));
  }

  /**
    In every run whose clients are not called READY, the messages on their way can be read back, the
    broker never fails, and each worker is in exactly one place and holds at most one request.
    */
  lemma EachWorkerInOnePlace(workers: set<string>, events: seq<Event>)
    requires forall e | e in events :: KnownClient(e)
    ensures var n := Exec(Init(workers), events);
      && !n.turn.Aborted?
      && n.phase.Keys == n.inbox.Keys == workers
      && Decode(n.stream).Some?
      && forall w | w in workers ::
          && Places(n, Decode(n.stream).value, w) == 1
          && (w in n.held ==> n.held[w] < |n.accepted| && HeldOnce(n, Decode(n.stream).value, w))
  {
    var n := Exec(Init(workers), events);
    var msgs := EveryState(workers, events);
    WorkersStay(workers, events);
    assert Decode(n.stream) == Some(msgs) by {
      forall i | 0 <= i < |msgs| ensures Distinguishable(msgs[i]) {
        assert msgs[i] in msgs;
      }
      DecodeEncodeIff(msgs);
    }
    forall w | w in workers
      ensures Places(n, msgs, w) == 1 && (w in n.held ==> n.held[w] < |n.accepted| && HeldOnce(n, msgs, w))
    {
      PlaceOf(n, msgs, w);
    }
  }

  lemma {:induction false} WorkersStay(workers: set<string>, events: seq<Event>)
    ensures var n := Exec(Init(workers), events); n.phase.Keys == n.inbox.Keys == workers
    decreases |events|
  {
    if events != [] {
      var n := Exec(Init(workers), events[..|events| - 1]);
      WorkersStay(workers, events[..|events| - 1]);
      StepWorkers(n, events[|events| - 1]);
    }
  }

  lemma KeysUpdate<V>(m: map<string, V>, w: string, v: V)
    requires w in m
    ensures m[w := v].Keys == m.Keys
  {
  }

  lemma StepWorkers(n: Net, e: Event)
    requires n.phase.Keys == n.inbox.Keys
    ensures Step(n, e).phase.Keys == Step(n, e).inbox.Keys == n.phase.Keys
  {
    match e
    case Submit(_) =>
    case Announce(w) => if w in n.phase { KeysUpdate(n.phase, w, Waiting); }
    case Respond(w, _) => if w in n.phase { KeysUpdate(n.phase, w, Waiting); }
    case Receive(w) =>
      if w in n.phase && n.inbox[w] != [] {
        KeysUpdate(n.phase, w, Working(n.inbox[w][0]));
        KeysUpdate(n.inbox, w, n.inbox[w][1..]);
      }
    case BrokerStep =>
      if n.queue != [] && n.pending != [] && n.queue[0] in n.inbox {
        KeysUpdate(n.inbox, n.queue[0], n.inbox[n.queue[0]] + [n.pending[0]]);
      }
  }

  /** The requests that the clients have sent, in order. */
  function Submitted(events: seq<Event>): seq<Request> {
    if events == [] then []
    else
      var e := events[|events| - 1];
      Submitted(events[..|events| - 1]) + if e.Submit? then [e.r] else []
  }

  lemma {:induction false} AcceptedInOrder(workers: set<string>, events: seq<Event>)
    ensures var n := Exec(Init(workers), events); Submitted(events) == n.accepted + n.pending
    decreases |events|
  {
    if events != [] {
      var before, e := events[..|events| - 1], events[|events| - 1];
      AcceptedInOrder(workers, before);
      StepAccepts(Exec(Init(workers), before), e);
    }
  }

  lemma StepAccepts(n: Net, e: Event)
    ensures var n' := Step(n, e);
      n'.accepted + n'.pending == n.accepted + n.pending + if e.Submit? then [e.r] else []
  {
    if e.BrokerStep? && n.turn.AtClients? && n.queue != [] && n.pending != [] {
      assert (n.accepted + [n.pending[0]]) + n.pending[1..] == n.accepted + n.pending;
    }
  }

  /** The worker that the request went to still holds it. */
  predicate InProgress(n: Net, t: nat) {
    t < |n.used| && n.used[t] in n.held && n.held[n.used[t]] == t
  }

  /**
    In every run whose clients are not called READY, each request handed to a worker is either in
    progress or answered, never both and never twice; every reply went to the pair of addresses its
    own request came from, with what was computed for that request.
    */
  lemma AnsweredOnce(workers: set<string>, events: seq<Event>)
    requires forall e | e in events :: KnownClient(e)
    ensures var n := Exec(Init(workers), events);
      && |n.tickets| == |n.sent| && NoRepeats(n.tickets)
      && (forall t: nat | t < |n.accepted| :: InProgress(n, t) <==> t !in n.tickets)
      && (forall k | 0 <= k < |n.sent| :: AnswerTo(n.accepted, n.computed, n.tickets[k], n.sent[k]))
  {
    var msgs := EveryState(workers, events);
  }

  /** Workers are used in the order in which they became idle, requests taken in the order in which they came. */
  lemma FirstIdleFirstUsed(workers: set<string>, events: seq<Event>)
    requires forall e | e in events :: KnownClient(e)
    ensures var n := Exec(Init(workers), events);
      && n.pushed == n.used + n.queue
      && |n.used| == |n.accepted|
      && n.accepted <= Submitted(events)
  {
    var msgs := EveryState(workers, events);
    AcceptedInOrder(workers, events);
  }

  /** A step that a worker or the broker takes, as opposed to a client. */
  predicate Internal(e: Event) {
    !e.Submit?
  }

  lemma WorkerCanMove(n: Net, msgs: seq<Message>, w: string) returns (e: Event)
    requires w in n.phase && w in n.inbox && Placed(n, msgs, w) && Turns(n, msgs)
    requires w in n.queue ==> n.pending != []
    requires forall m | m in msgs :: Distinguishable(m)
    ensures Internal(e) && Step(n, e) != n
  {
    if n.phase[w].Starting? {
      return Announce(w);
    } else if n.phase[w].Working? {
      e := Respond(w, "");
      assert Step(n, e).phase[w].Waiting?;
      return;
    } else if n.inbox[w] != [] {
      e := Receive(w);
      assert Step(n, e).phase[w].Working?;
      return;
    }
    e := BrokerStep;
    if n.turn.AtPoll? {
      assert w in n.queue || From(msgs, w) != [];
      assert From([], w) == [];
    } else if n.turn.AtWorkers? {
      assert msgs[0] in msgs;
      ReadBack(msgs[0], Encode(msgs[1..]));
      assert |Step(n, e).queue| == |n.queue| + 1;
    } else {
      assert |Step(n, e).queue| == |n.queue| - 1;
    }
  }

  /** While a request waits or is in progress, a worker or the broker can take a step. */
  lemma NeverStuck(workers: set<string>, events: seq<Event>) returns (e: Event)
    requires forall e | e in events :: KnownClient(e)
    requires workers != {}
    requires var n := Exec(Init(workers), events); n.pending != [] || n.held != map[]
    ensures var n := Exec(Init(workers), events); Internal(e) && Step(n, e) != n
  {
    var n := Exec(Init(workers), events);
    var msgs := EveryState(workers, events);
    WorkersStay(workers, events);
    var w :| w in workers && (n.pending == [] ==> w in n.held);
    assert Placed(n, msgs, w);
    e := WorkerCanMove(n, msgs, w);
  }

  // ---------------------------------------------------------------- Everything is answered

  /** What a worker still has to do, in frames to send and steps to take. */
  function LoadOf(phase: map<string, Phase>, inbox: map<string, seq<Request>>, w: string): nat {
    (if w !in phase || phase[w].Waiting? then 0 else if phase[w].Starting? then 4 else 7)
    + (if w in inbox then 8 * |inbox[w]| else 0)
  }

  function Load(phase: map<string, Phase>, inbox: map<string, seq<Request>>, ws: seq<string>): nat {
    if ws == [] then 0 else LoadOf(phase, inbox, ws[0]) + Load(phase, inbox, ws[1..])
  }

  lemma {:induction false} LoadChanges(phase: map<string, Phase>, inbox: map<string, seq<Request>>,
                                       phase': map<string, Phase>, inbox': map<string, seq<Request>>, ws: seq<string>, w: string)
    requires NoRepeats(ws)
    requires forall v | v in ws && v != w :: LoadOf(phase', inbox', v) == LoadOf(phase, inbox, v)
    ensures Load(phase', inbox', ws) ==
      Load(phase, inbox, ws) + if w in ws then LoadOf(phase', inbox', w) - LoadOf(phase, inbox, w) else 0
  {
    if ws != [] {
      assert forall k | 0 <= k < |ws[1..]| :: ws[1..][k] == ws[k + 1];
      LoadChanges(phase, inbox, phase', inbox', ws[1..], w);
    }
  }

  /** The work left for the workers `ws` and the broker: requests, answers and frames on their way, and the turn. */
  function Work(n: Net, ws: seq<string>): nat {
    11 * |n.pending| + Load(n.phase, n.inbox, ws) + |n.stream|
    + match n.turn case AtPoll => 3 case AtWorkers(_) => 2 case AtClients => 1 case Aborted => 0
  }

  ghost predicate Lists(ws: seq<string>, workers: set<string>) {
    NoRepeats(ws) && forall w :: w in ws <==> w in workers
  }

  lemma {:induction false} SomeList(workers: set<string>) returns (ws: seq<string>)
    ensures Lists(ws, workers)
    decreases |workers|
  {
    ws := [];
    if workers != {} {
      var w :| w in workers;
      ws := SomeList(workers - {w});
      NoRepeatsMore(ws, w);
      ws := ws + [w];
    }
  }

  lemma HandOutWorks(n: Net, ws: seq<string>)
    requires Lists(ws, n.phase.Keys) && n.inbox.Keys == n.phase.Keys
    requires n.turn.AtClients? && n.queue != [] && n.pending != []
    ensures Work(StepFromClient(n), ws) < Work(n, ws)
  {
    var n', w := StepFromClient(n), n.queue[0];
    forall v | v in ws && v != w ensures LoadOf(n.phase, n'.inbox, v) == LoadOf(n.phase, n.inbox, v) {
    }
    LoadChanges(n.phase, n.inbox, n.phase, n'.inbox, ws, w);
  }

  lemma WorkerWorks(n: Net, phase': map<string, Phase>, inbox': map<string, seq<Request>>, ws: seq<string>, w: string)
    requires Lists(ws, n.phase.Keys) && w in n.phase
    requires w in phase' && w in inbox' && phase' == n.phase[w := phase'[w]] && inbox' == n.inbox[w := inbox'[w]]
    ensures Load(phase', inbox', ws) == Load(n.phase, n.inbox, ws) + LoadOf(phase', inbox', w) - LoadOf(n.phase, n.inbox, w)
  {
    forall v | v in ws && v != w ensures LoadOf(phase', inbox', v) == LoadOf(n.phase, n.inbox, v) {
    }
    LoadChanges(n.phase, n.inbox, phase', inbox', ws, w);
  }

  lemma AnnounceWorks(n: Net, ws: seq<string>, w: string)
    requires Lists(ws, n.phase.Keys) && n.inbox.Keys == n.phase.Keys && w in n.phase && n.phase[w].Starting?
    ensures Work(StepAnnounce(n, w), ws) < Work(n, ws)
  {
    var n' := StepAnnounce(n, w);
    WorkerWorks(n, n'.phase, n'.inbox, ws, w);
  }

  lemma ReceiveWorks(n: Net, ws: seq<string>, w: string)
    requires Lists(ws, n.phase.Keys) && n.inbox.Keys == n.phase.Keys && w in n.phase && n.phase[w].Waiting? && n.inbox[w] != []
    ensures Work(StepReceive(n, w), ws) < Work(n, ws)
  {
    var n' := StepReceive(n, w);
    WorkerWorks(n, n'.phase, n'.inbox, ws, w);
  }

  lemma RespondWorks(n: Net, ws: seq<string>, w: string, body: string)
    requires Lists(ws, n.phase.Keys) && n.inbox.Keys == n.phase.Keys && w in n.phase && n.phase[w].Working?
    ensures Work(StepRespond(n, w, body), ws) < Work(n, ws)
  {
    var n' := StepRespond(n, w, body);
    WorkerWorks(n, n'.phase, n'.inbox, ws, w);
  }

  lemma ReadWorks(n: Net, ws: seq<string>)
    requires n.turn.AtWorkers?
    ensures StepFromWorker(n) == n || Work(StepFromWorker(n), ws) < Work(n, ws)
  {
    match ReadMessage(n.stream)
    case Blocked =>
    case Malformed =>
    case Got(m, rest) =>
      var n' := StepFromWorker(n);
      assert n'.stream == rest && n'.phase == n.phase && n'.inbox == n.inbox && n'.pending == n.pending;
  }

  /** Every step of a worker or the broker that changes anything leaves less work. */
  lemma StepWorks(n: Net, e: Event, ws: seq<string>)
    requires Lists(ws, n.phase.Keys) && n.inbox.Keys == n.phase.Keys && Internal(e)
    ensures Step(n, e) == n || Work(Step(n, e), ws) < Work(n, ws)
  {
    match e
    case Announce(w) => if w in n.phase && n.phase[w].Starting? { AnnounceWorks(n, ws, w); }
    case Receive(w) => if w in n.phase && n.phase[w].Waiting? && n.inbox[w] != [] { ReceiveWorks(n, ws, w); }
    case Respond(w, body) => if w in n.phase && n.phase[w].Working? { RespondWorks(n, ws, w, body); }
    case BrokerStep =>
      if n.turn.AtClients? && n.queue != [] && n.pending != [] {
        HandOutWorks(n, ws);
      } else if n.turn.AtWorkers? {
        ReadWorks(n, ws);
      }
  }

  /** A run without new requests in which every step changes something. */
  ghost predicate Active(n: Net, more: seq<Event>) {
    forall k | 0 <= k < |more| ::
      Internal(more[k]) && Step(Exec(n, more[..k]), more[k]) != Exec(n, more[..k])
  }

  lemma {:induction false} ExecMore(n: Net, events: seq<Event>, more: seq<Event>)
    ensures Exec(n, events + more) == Exec(Exec(n, events), more)
    decreases |more|
  {
    if more == [] {
      assert events + more == events;
    } else {
      var all := events + more;
      assert all[..|all| - 1] == events + more[..|more| - 1];
      ExecMore(n, events, more[..|more| - 1]);
    }
  }

  /** Such a run is never longer than the work there was at its start. */
  lemma {:induction false} ActiveRunsEnd(n: Net, more: seq<Event>, ws: seq<string>)
    requires Lists(ws, n.phase.Keys) && n.inbox.Keys == n.phase.Keys && Active(n, more)
    ensures |more| + Work(Exec(n, more), ws) <= Work(n, ws)
    ensures Exec(n, more).phase.Keys == Exec(n, more).inbox.Keys == n.phase.Keys
    decreases |more|
  {
    if more != [] {
      var before, e := more[..|more| - 1], more[|more| - 1];
      assert forall k | 0 <= k < |before| :: before[..k] == more[..k];
      ActiveRunsEnd(n, before, ws);
      StepWorks(Exec(n, before), e, ws);
      StepWorkers(Exec(n, before), e);
    }
  }

  ghost predicate Inward(more: seq<Event>) {
    forall e | e in more :: Internal(e)
  }

  lemma {:induction false} NothingSubmitted(events: seq<Event>, more: seq<Event>)
    requires Inward(more)
    ensures Submitted(events + more) == Submitted(events)
    decreases |more|
  {
    if more == [] {
      assert events + more == events;
    } else {
      var all, before := events + more, more[..|more| - 1];
      assert all[..|all| - 1] == events + before;
      assert Internal(more[|more| - 1]);
      NothingSubmitted(events, before);
    }
  }

  lemma NothingLeft(workers: set<string>, events: seq<Event>)
    requires forall e | e in events :: KnownClient(e)
    requires workers != {}
    requires forall e | Internal(e) :: Step(Exec(Init(workers), events), e) == Exec(Init(workers), events)
    ensures var n := Exec(Init(workers), events);
      && n.accepted == Submitted(events)
      && |n.tickets| == |n.sent| && NoRepeats(n.tickets)
      && (forall t: nat | t < |n.accepted| :: t in n.tickets)
      && (forall k | 0 <= k < |n.sent| :: AnswerTo(n.accepted, n.computed, n.tickets[k], n.sent[k]))
  {
    var n := Exec(Init(workers), events);
    if n.pending != [] || n.held != map[] {
      var e := NeverStuck(workers, events);
      assert false;
    }
    AcceptedInOrder(workers, events);
    AnsweredOnce(workers, events);
    forall t: nat | t < |n.accepted| ensures t in n.tickets {
      assert !InProgress(n, t);
    }
  }

  /**
    When no new requests come in, the workers and the broker take only so many steps, however they are
    scheduled; and when none of them can go on, every request that was ever sent has been answered
    once, to its own address.
    */
  lemma EverythingAnswered(workers: set<string>, ws: seq<string>, events: seq<Event>, more: seq<Event>)
    requires forall e | e in events :: KnownClient(e)
    requires workers != {} && Lists(ws, workers)
    requires Active(Exec(Init(workers), events), more)
    ensures |more| <= Work(Exec(Init(workers), events), ws)
    ensures var n := Exec(Exec(Init(workers), events), more);
      (forall e | Internal(e) :: Step(n, e) == n) ==>
        && n.accepted == Submitted(events)
        && |n.tickets| == |n.sent| && NoRepeats(n.tickets)
        && (forall t: nat | t < |n.accepted| :: t in n.tickets)
        && (forall k | 0 <= k < |n.sent| :: AnswerTo(n.accepted, n.computed, n.tickets[k], n.sent[k]))
  {
    var n := Exec(Init(workers), events);
    WorkersStay(workers, events);
    ActiveRunsEnd(n, more, ws);
    assert Inward(more);
    NothingSubmitted(events, more);
    assert forall e | e in events + more :: e in events || Internal(e);
    ExecMore(Init(workers), events, more);
    if forall e | Internal(e) :: Step(Exec(n, more), e) == Exec(n, more) {
      NothingLeft(workers, events + more);
    }
  }

  /**
    What goes wrong for a client called READY: exactly its replies are taken for announcements. Such a
    reply is not forwarded, and the rest of its frames is left where the next worker's name is expected.
    */
  lemma ReplyForwardedIff(n: Net, m: Message, more: seq<Message>)
    requires n.turn.AtWorkers? && m.Answer? && n.stream == Encode([m] + more)
    ensures StepFromWorker(n).sent == n.sent + [m.reply] <==> m.reply.to1 != READY
    ensures m.reply.to1 == READY ==>
      && StepFromWorker(n).sent == n.sent
      && StepFromWorker(n).stream == [m.reply.to2, "", m.reply.body] + Encode(more)
  {
    assert ([m] + more)[1..] == more;
    ReadBack(m, Encode(more));
    assert |n.sent + [m.reply]| == |n.sent| + 1;
  }

  // ---------------------------------------------------------------- The server

  class Server {
    var phase: map<string, Phase>
    var inbox: map<string, seq<Request>>
    var stream: seq<string>
    var pending: seq<Request>
    var turn: Turn
    var queue: seq<string>
    var sent: seq<Reply>
    ghost var accepted: seq<Request>
    ghost var used: seq<string>
    ghost var pushed: seq<string>
    ghost var held: map<string, nat>
    ghost var computed: map<nat, string>
    ghost var tickets: seq<nat>

    ghost function Snapshot(): Net
      reads this
    {
      Net(phase, inbox, stream, pending, turn, queue, sent, accepted, used, pushed, held, computed, tickets)
    }

    constructor (workers: set<string>)
      ensures Snapshot() == Init(workers)
    {
      phase := map w | w in workers :: Starting;
      inbox := map w | w in workers :: [];
      stream, pending, turn, queue, sent := [], [], AtPoll, [], [];
      accepted, used, pushed, held, computed, tickets := [], [], [], map[], map[], [];
    }

    method RecvFromWorker() returns (frame: string)
      requires stream != []
      modifies `stream
      ensures frame == old(stream)[0] && stream == old(stream)[1..]
    {
      frame := stream[0];
      stream := stream[1..];
    }

    method RecvEmpty()
      requires stream != [] && stream[0] == ""
      modifies `stream
      ensures stream == old(stream)[1..]
    {
      var empty := RecvFromWorker();
      assert empty == "";
    }

    /** What the broker makes of the frames of a message `m` that it can tell apart. */
    method ReadWorker(ghost m: Message, ghost rest: seq<string>)
      requires stream == Frames(m) + rest && Distinguishable(m)
      requires turn.AtWorkers?
      modifies `stream, `queue, `pushed, `sent, `turn
      ensures stream == rest
      ensures queue == old(queue) + [m.worker] && pushed == old(pushed) + [m.worker]
      ensures sent == old(sent) + if m.Answer? then [m.reply] else []
      ensures turn == if old(turn).clientsToo then AtClients else AtPoll
    {
      ghost var frames := stream;
      var workerAddress := RecvFromWorker();
      RecvEmpty();
      var clientAddress1 := RecvFromWorker();
      assert stream == frames[3..] && clientAddress1 == frames[2];
      queue := queue + [workerAddress];
      pushed := pushed + [workerAddress];
      if clientAddress1 != READY {
        var clientAddress2 := RecvFromWorker();
        RecvEmpty();
        var response := RecvFromWorker();
        assert stream == frames[6..];
        sent := sent + [Reply(clientAddress1, clientAddress2, response)];
      }
      turn := if turn.clientsToo then AtClients else AtPoll;
    }

    /** Reads one message of a worker: the frames the broker waits for are there, as it expects them. */
    method TakeFromWorker(ghost m: Message, ghost rest: seq<string>)
      requires stream == Frames(m) + rest && Distinguishable(m)
      requires turn.AtWorkers?
      modifies this
      ensures Snapshot() == StepFromWorker(old(Snapshot()))
    {
      ReadBack(m, rest);
      ghost var n' := StepFromWorker(Snapshot());
      ReadWorker(m, rest);
      tickets, held := n'.tickets, n'.held;
    }

    method SendToWorker(w: string, request: Request)
      modifies `inbox
      ensures inbox == Deliver(old(inbox), w, request)
    {
      if w in inbox {
        inbox := inbox[w := inbox[w] + [request]];
      }
    }

    method RecvFromClient() returns (request: Request)
      requires pending != []
      modifies `pending
      ensures request == old(pending)[0] && pending == old(pending)[1..]
    {
      request := pending[0];
      pending := pending[1..];
    }

    method PopWorker() returns (w: string)
      requires queue != []
      modifies `queue
      ensures w == old(queue)[0] && queue == old(queue)[1..]
    {
      w := queue[0];
      queue := queue[1..];
    }

    ghost method Record(w: string, request: Request)
      modifies `accepted, `used, `held
      ensures accepted == old(accepted) + [request] && used == old(used) + [w]
      ensures held == old(held)[w := |old(accepted)|]
    {
      held := held[w := |accepted|];
      accepted, used := accepted + [request], used + [w];
    }

    /** Hands the oldest request to the worker that has been idle longest. */
    method TakeFromClient()
      requires turn.AtClients? && queue != [] && pending != []
      modifies this
      ensures Snapshot() == StepFromClient(old(Snapshot()))
    {
      var request := RecvFromClient();
      var workerAddress := PopWorker();
      SendToWorker(workerAddress, request);
      turn := AtPoll;
      Record(workerAddress, request);
    }

    method Poll()
      requires turn.AtPoll?
      modifies `turn
      ensures Snapshot() == StepPoll(old(Snapshot()))
    {
      var clients := false;
      if queue != [] {
        clients := pending != [];
      }
      if stream != [] {
        turn := AtWorkers(clients);
      } else if clients {
        turn := AtClients;
      }
    }

    method WorkerStarts(w: string)
      requires w in phase && phase[w].Starting?
      modifies `phase, `stream
      ensures Snapshot() == StepAnnounce(old(Snapshot()), w)
    {
      phase := phase[w := Waiting];
      stream := stream + [w, "", READY];
    }

    method WorkerReceives(w: string)
      requires w in phase && phase[w].Waiting? && w in inbox && inbox[w] != []
      modifies `phase, `inbox
      ensures Snapshot() == StepReceive(old(Snapshot()), w)
    {
      phase := phase[w := Working(inbox[w][0])];
      inbox := inbox[w := inbox[w][1..]];
    }

    method WorkerAnswers(w: string, response: string)
      requires w in phase && phase[w].Working?
      modifies `phase, `stream, `computed
      ensures Snapshot() == StepRespond(old(Snapshot()), w, response)
    {
      var job := phase[w].job;
      phase := phase[w := Waiting];
      stream := stream + [w, "", job.from1, job.from2, "", response];
      computed := if w in held then computed[held[w] := response] else computed;
    }
  }

  /** What a broker that has something to do finds on its sockets. */
  lemma BrokerReady(n: Net, msgs: seq<Message>)
    requires Turns(n, msgs) && forall m | m in msgs :: Distinguishable(m)
    ensures !n.turn.Aborted?
    ensures n.turn.AtWorkers? ==> msgs != [] && Distinguishable(msgs[0]) && n.stream == Frames(msgs[0]) + Encode(msgs[1..])
    ensures n.turn.AtClients? ==> n.queue != [] && n.pending != []
  {
    if msgs != [] {
      assert msgs[0] in msgs;
    }
  }

  lemma BrokerReadyAt(workers: set<string>, events: seq<Event>, n: Net) returns (msgs: seq<Message>)
    requires forall e | e in events :: KnownClient(e)
    requires n == Exec(Init(workers), events)
    ensures !n.turn.Aborted?
    ensures n.turn.AtWorkers? ==> msgs != [] && Distinguishable(msgs[0]) && n.stream == Frames(msgs[0]) + Encode(msgs[1..])
    ensures n.turn.AtClients? ==> n.queue != [] && n.pending != []
  {
    msgs := EveryState(workers, events);
    BrokerReady(n, msgs);
  }

  /**
    The server under any schedule of clients, workers and broker goes through exactly the states of the
    protocol. No assertion of the broker fails, and it never takes a worker from an empty queue.
    */
  method Serve(workers: set<string>, schedule: seq<Event>) returns (server: Server)
    requires forall e | e in schedule :: KnownClient(e)
    ensures fresh(server) && server.Snapshot() == Exec(Init(workers), schedule)
  {
    server := new Server(workers);
    for i := 0 to |schedule|
      invariant fresh(server)
      invariant server.Snapshot() == Exec(Init(workers), schedule[..i])
    {
      ghost var msgs := BrokerReadyAt(workers, schedule[..i], server.Snapshot());
      assert schedule[..i + 1][..i] == schedule[..i] && schedule[..i + 1][i] == schedule[i];
      match schedule[i] {
        case Submit(r) => server.pending := server.pending + [r];
        case Announce(w) =>
          if w in server.phase && server.phase[w].Starting? {
            server.WorkerStarts(w);
          }
        case Receive(w) =>
          if w in server.phase && w in server.inbox && server.phase[w].Waiting? && server.inbox[w] != [] {
            server.WorkerReceives(w);
          }
        case Respond(w, response) =>
          if w in server.phase && server.phase[w].Working? {
            server.WorkerAnswers(w, response);
          }
        case BrokerStep =>
          match server.turn {
            case AtPoll => server.Poll();
            case AtWorkers(_) => server.TakeFromWorker(msgs[0], Encode(msgs[1..]));
            case AtClients => server.TakeFromClient();
          }
      }
    }
    assert schedule[..|schedule|] == schedule;
  }
}
