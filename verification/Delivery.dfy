/** The guarantees of the reliable transport over whole runs. */
module Delivery {
  import opened Wire
  import opened Messages
  import opened Validation
  import opened SequenceNumbers
  import opened Endpoints
  import opened EndpointInvariants
  import opened SenderSteps
  import opened AckSteps
  import opened SenderArms
  import opened Network

  datatype Side = A | B

  datatype Net = Net(a: Node, b: Node) {
    function At(s: Side): Node {
      if s == A then a else b
    }
  }

  datatype Configs = Configs(a: Config, b: Config) {
    function At(s: Side): Config {
      if s == A then a else b
    }
    predicate Valid() {
      a.Valid() && b.Valid()
    }
  }

  function Other(s: Side): Side {
    if s == A then B else A
  }

  function Start(cfg: Configs): Net {
    Net(Node(Fresh(cfg.a), None, false, None), Node(Fresh(cfg.b), None, false, None))
  }

  /** One side moves, the other stands still. */
  ghost predicate Step(cfg: Configs, net: Net, s: Side, ev: Event, net': Net) {
    && NodeStep(cfg.At(s), net.At(s), net.At(Other(s)).e, ev, net'.At(s))
    && net'.At(Other(s)) == net.At(Other(s))
  }

  /** A run: the states it passes through, and the side and event of each step. */
  datatype Run = Run(states: seq<Net>, moves: seq<(Side, Event)>)

  ghost predicate IsRun(cfg: Configs, run: Run) {
    && |run.states| == |run.moves| + 1
    && run.states[0] == Start(cfg)
    && forall i :: 0 <= i < |run.moves| ==> Step(cfg, run.states[i], run.moves[i].0, run.moves[i].1, run.states[i + 1])
  }

  ghost predicate NetInv(cfg: Configs, net: Net) {
    NodeInv(cfg.a, net.a, net.b.e) && NodeInv(cfg.b, net.b, net.a.e)
  }

  // ---------------------------------------------------------------------------
  // Every step keeps the invariant

  lemma {:induction false} ValidatedIsSendable(m: ControlMessage)
    requires Validates(m) && m.WellFormed()
    ensures Sendable(m)
  {
  }

  lemma {:induction false} NodeStepInv(cfg: Config, pcfg: Config, n: Node, peer: Node, ev: Event, n': Node)
    requires NodeInv(cfg, n, peer.e) && NodeInv(pcfg, peer, n.e) && NodeStep(cfg, n, peer.e, ev, n')
    ensures NodeInv(cfg, n', peer.e) && Extends(n.e, n'.e)
  {
    hide NodeInv, Inv, Extends, SameRx, AcksSound, Validates, OnSubmit, OnNrs, OnRetry, OnHelloTimer, OnHelloRetry,
      OnAckTimer, Down, ProcessRxQueue, Receive, Received, ControlMessage.ToBytes, ControlMessage.WellFormed;
    NodeInvParts(cfg, n, peer.e);
    NodeInvParts(pcfg, peer, n.e);
    match ev
    case Submit(m, budget) =>
      ValidatedIsSendable(m);
      SubmitInv(cfg, n.e, m, budget);
      QuietStep(cfg, n, peer.e, n'.e);
    case NrArm(budget) => NrArmStep(cfg, n, peer.e, budget);
    case Retry(j, ok) =>
      RetryInv(cfg, n.e, j, ok);
      QuietStep(cfg, n, peer.e, n'.e);
    case AckExpiry =>
      TimersInv(cfg, n.e, n'.e);
      QuietStep(cfg, n, peer.e, n'.e);
    case HelloExpiry =>
      TimersInv(cfg, n.e, n'.e);
      QuietStep(cfg, n, peer.e, n'.e);
    case HelloTimer(peerId, ok) =>
      HelloTimerInv(cfg, n.e, peerId, ok);
      QuietStep(cfg, n, peer.e, n'.e);
    case HelloRetry(ok) =>
      HelloRetryInv(cfg, n.e, ok);
      QuietStep(cfg, n, peer.e, n'.e);
    case AckTimer(peerId, ok) =>
      AckTimerInv(cfg, n.e, peerId, ok);
      QuietStep(cfg, n, peer.e, n'.e);
    case Close =>
      InvCore(cfg, n.e);
      DownFromLive(cfg, n.e);
      QuietStep(cfg, n, peer.e, n'.e);
    case Recv(p) => RecvStep(cfg, pcfg, n, peer.e, p, n');
    case RxArm => RxArmStep(cfg, pcfg, n, peer.e);
  }

  lemma {:induction false} NodeInvParts(cfg: Config, n: Node, peer: Endpoint)
    requires NodeInv(cfg, n, peer)
    ensures Inv(cfg, n.e) && Core(cfg, n.e) && InOrder(n.e, peer) && AcksSound(n.e, peer)
  {
  }

  lemma {:induction false} StepInv(cfg: Configs, net: Net, s: Side, ev: Event, net': Net)
    requires NetInv(cfg, net) && Step(cfg, net, s, ev, net')
    ensures NetInv(cfg, net') && Extends(net.At(s).e, net'.At(s).e)
  {
    hide NodeInv, NodeStep, Extends;
    var n, peer := net.At(s), net.At(Other(s));
    NodeStepInv(cfg.At(s), cfg.At(Other(s)), n, peer, ev, net'.At(s));
    NodeInvParts(cfg.At(s), n, peer.e);
    PeerExtends(cfg.At(Other(s)), cfg.At(s), peer, n.e, net'.At(s).e);
  }

  lemma {:induction false} StartInv(cfg: Configs)
    requires cfg.Valid()
    ensures NetInv(cfg, Start(cfg))
  {
  }

  /** Every state of every run satisfies the invariant. */
  lemma {:induction false} RunInv(cfg: Configs, run: Run, i: nat)
    requires cfg.Valid() && IsRun(cfg, run) && i < |run.states|
    ensures NetInv(cfg, run.states[i])
  {
    hide NetInv, Step, Start;
    if i == 0 {
      StartInv(cfg);
    } else {
      RunInv(cfg, run, i - 1);
      StepInv(cfg, run.states[i - 1], run.moves[i - 1].0, run.moves[i - 1].1, run.states[i]);
    }
  }

  /** The same, from one side's point of view. */
  lemma {:induction false} StateInv(cfg: Configs, run: Run, i: nat, s: Side)
    requires cfg.Valid() && IsRun(cfg, run) && i < |run.states|
    ensures var e, peer := run.states[i].At(s).e, run.states[i].At(Other(s)).e;
            && Inv(cfg.At(s), e) && Core(cfg.At(s), e) && InOrder(e, peer) && AcksSound(e, peer)
            && Inv(cfg.At(Other(s)), peer) && Core(cfg.At(Other(s)), peer) && InOrder(peer, e) && AcksSound(peer, e)
  {
    hide IsRun, NodeInv, Inv, Core, InOrder, AcksSound;
    RunInv(cfg, run, i);
    var net := run.states[i];
    NodeInvParts(cfg.a, net.a, net.b.e);
    NodeInvParts(cfg.b, net.b, net.a.e);
  }

  // ---------------------------------------------------------------------------
  // Delivery

  function Bodies(ms: seq<ControlMessage>): (bs: seq<ControlMessage>)
    ensures |bs| == |ms| && forall i :: 0 <= i < |ms| ==> bs[i] == ms[i].Body()
  {
    seq(|ms|, i requires 0 <= i < |ms| => ms[i].Body())
  }

  /** What an endpoint sends, in order: its submitted messages, with the HELLO in its place. */
  function Outgoing(e: Endpoint): seq<ControlMessage> {
    if e.hello.Some? && e.hello.value.seqNo <= |e.submitted|
    then Bodies(e.submitted[..e.hello.value.seqNo]) + [e.hello.value.msg.Body()] + Bodies(e.submitted[e.hello.value.seqNo..])
    else Bodies(e.submitted)
  }

  /** In every run, over every network that loses, duplicates and reorders, what one side
      accepts is a prefix of what the other submitted (and its HELLO): in order, without
      duplicates, without gaps, byte for byte but for the transport's own Ns and Nr. */
  lemma {:induction false} InOrderDelivery(cfg: Configs, run: Run, i: nat, s: Side)
    requires cfg.Valid() && IsRun(cfg, run) && i < |run.states|
    ensures Bodies(run.states[i].At(s).e.delivered) <= Outgoing(run.states[i].At(Other(s)).e)
  {
    hide IsRun, Inv, Core, InOrder, AcksSound, Bodies, Outgoing;
    StateInv(cfg, run, i, s);
    DeliveredPrefix(cfg.At(Other(s)), run.states[i].At(s).e, run.states[i].At(Other(s)).e);
  }

  lemma {:induction false} DeliveredPrefix(pcfg: Config, e: Endpoint, peer: Endpoint)
    requires InOrder(e, peer) && Core(pcfg, peer)
    ensures Bodies(e.delivered) <= Outgoing(peer)
  {
    hide GoodPacket, Sendable, Wire16, ControlMessage.Body;
    var out, got := Outgoing(peer), Bodies(e.delivered);
    assert |got| <= |out|;
    forall i | 0 <= i < |got|
      ensures got[i] == out[i]
    {
      assert MessageAt(peer, i) == Some(e.delivered[i].Body());
    }
    assert got == out[..|got|];
  }

  /** In every run, a send that completed without error had been accepted by the peer: the
      message with exactly that number, and with that content. */
  lemma {:induction false} AckSoundness(cfg: Configs, run: Run, i: nat, s: Side, c: nat)
    requires cfg.Valid() && IsRun(cfg, run) && i < |run.states|
    requires var e := run.states[i].At(s).e; c < |e.completed| && e.completed[c].ok
    ensures var e, peer := run.states[i].At(s).e, run.states[i].At(Other(s)).e;
            var id := e.completed[c].id;
            && id < |e.submitted| && SeqNoOf(e, id) < peer.unr == |peer.delivered|
            && peer.delivered[SeqNoOf(e, id)].Body() == e.submitted[id].Body()
  {
    hide IsRun, Inv, Core, MessageAt, ControlMessage.Body, SeqNoOf;
    StateInv(cfg, run, i, s);
    var e := run.states[i].At(s).e;
    CompletedOk(cfg.At(s), e, c);
    AckedSent(cfg.At(s), e);
    MessageOf(cfg.At(s), e, c);
  }

  lemma {:induction false} CompletedOk(cfg: Config, e: Endpoint, c: nat)
    requires Inv(cfg, e) && c < |e.completed| && e.completed[c].ok
    ensures e.completed[c] == Done(c, true) && c < e.acked
  {
  }

  lemma {:induction false} MessageOf(cfg: Config, e: Endpoint, id: nat)
    requires Core(cfg, e) && id < UserSent(e)
    ensures id < |e.submitted| && MessageAt(e, SeqNoOf(e, id)) == Some(e.submitted[id].Body())
  {
  }

  // ---------------------------------------------------------------------------
  // Completion and the window, in every state of every run

  /** Each submitted message is acknowledged, outstanding or waiting while the endpoint
      lives; completions come once each, the successful ones in submission order; and once
      it is down, both queues are empty and every message is completed. */
  lemma {:induction false} ExactlyOnceCompletion(cfg: Configs, run: Run, i: nat, s: Side)
    requires cfg.Valid() && IsRun(cfg, run) && i < |run.states|
    ensures var e := run.states[i].At(s).e;
            && Ledger(e.completed, e.acked, |e.submitted|)
            && (e.alive ==>
                  && |e.completed| == e.acked && |e.submitted| == e.acked + |e.ackQueue| + |e.txQueue|
                  && (forall k :: 0 <= k < |e.ackQueue| ==> e.ackQueue[k].id == e.acked + k)
                  && (forall k :: 0 <= k < |e.txQueue| ==> e.txQueue[k].id == e.acked + |e.ackQueue| + k))
            && (!e.alive ==>
                  && e.txQueue == [] && e.ackQueue == []
                  && forall id :: 0 <= id < |e.submitted| ==> IsCompleted(e.completed, id))
  {
    hide IsRun, Inv, Core, InOrder, AcksSound, Ledger, IsCompleted;
    StateInv(cfg, run, i, s);
    QueueIds(cfg.At(s), run.states[i].At(s).e);
  }

  lemma {:induction false} QueueIds(cfg: Config, e: Endpoint)
    requires Inv(cfg, e)
    ensures Ledger(e.completed, e.acked, |e.submitted|)
    ensures e.alive ==>
              && |e.completed| == e.acked && |e.submitted| == e.acked + |e.ackQueue| + |e.txQueue|
              && (forall k :: 0 <= k < |e.ackQueue| ==> e.ackQueue[k].id == e.acked + k)
              && (forall k :: 0 <= k < |e.txQueue| ==> e.txQueue[k].id == e.acked + |e.ackQueue| + k)
    ensures !e.alive ==>
              e.txQueue == [] && e.ackQueue == [] && forall id :: 0 <= id < |e.submitted| ==> IsCompleted(e.completed, id)
  {
  }

  /** The window never stalls: while a live endpoint has a message waiting, its window is
      full of unacknowledged messages, each with a retry still to come. */
  lemma {:induction false} NoWindowStall(cfg: Configs, run: Run, i: nat, s: Side)
    requires cfg.Valid() && IsRun(cfg, run) && i < |run.states|
    ensures var e := run.states[i].At(s).e;
            e.alive && e.txQueue != [] ==>
              1 <= e.win.cwnd <= e.win.ntx == |e.ackQueue| <= cfg.At(s).window
              && forall k :: 0 <= k < |e.ackQueue| ==> !e.ackQueue[k].isComplete && e.ackQueue[k].nretries < cfg.At(s).maxRetries
  {
    hide IsRun, Inv, Core, InOrder, AcksSound;
    StateInv(cfg, run, i, s);
    FullWindow(cfg.At(s), run.states[i].At(s).e);
  }

  lemma {:induction false} FullWindow(cfg: Config, e: Endpoint)
    requires Inv(cfg, e)
    ensures e.alive && e.txQueue != [] ==>
              1 <= e.win.cwnd <= e.win.ntx == |e.ackQueue| <= cfg.window
              && forall k :: 0 <= k < |e.ackQueue| ==> !e.ackQueue[k].isComplete && e.ackQueue[k].nretries < cfg.maxRetries
  {
  }

  /** The Ns values outstanding in a live endpoint that has sent no HELLO are the contiguous
      run of length ntx, at most the window, ending just before ns. */
  lemma {:induction false} OutstandingContiguous(cfg: Configs, run: Run, i: nat, s: Side)
    requires cfg.Valid() && IsRun(cfg, run) && i < |run.states|
    ensures var e := run.states[i].At(s).e;
            e.alive && e.hello.None? ==>
              && |e.ackQueue| == e.win.ntx <= cfg.At(s).window
              && forall k :: 0 <= k < |e.ackQueue| ==> e.ackQueue[k].msg.ns == Wire16(e.ns - |e.ackQueue| + k)
  {
    hide IsRun, Inv, Core, InOrder, AcksSound, Wire16;
    StateInv(cfg, run, i, s);
    ContiguousNs(cfg.At(s), run.states[i].At(s).e);
  }

  lemma {:induction false} ContiguousNs(cfg: Config, e: Endpoint)
    requires Inv(cfg, e)
    ensures e.alive && e.hello.None? ==>
              && |e.ackQueue| == e.win.ntx <= cfg.window
              && forall k :: 0 <= k < |e.ackQueue| ==> e.ackQueue[k].msg.ns == Wire16(e.ns - |e.ackQueue| + k)
  {
    hide TxQueueOk, AckedInOrder, AckQueueOk, GoodPacket, Sendable, Wire16;
    if e.alive && e.hello.None? {
      QueueNumbers(cfg, e);
      forall k | 0 <= k < |e.ackQueue|
        ensures e.ackQueue[k].msg.ns == Wire16(e.ns - |e.ackQueue| + k)
      {
        ShiftWire(e.uns, k - |e.ackQueue|);
      }
    }
  }

  lemma {:induction false} ShiftWire(n: int, d: int)
    ensures Wire16(n + d) == Wire16(Wire16(n) + d)
  {
  }

  // ---------------------------------------------------------------------------
  // Sixteen-bit decisions are decisions about the unbounded numbers

  /** For a packet no older than half the sequence space, if the peer's window, with its HELLO
      if it has sent one, is less than that: the frame gets through exactly when it fits the
      receive buffer, and its message is judged in sequence exactly when it is next, stale
      exactly when it was already accepted. */
  lemma {:induction false} ReceiverDecisions(cfg: Configs, run: Run, i: nat, s: Side, p: Packet)
    requires cfg.Valid() && IsRun(cfg, run) && i < |run.states|
    requires var net := run.states[i];
             var e, peer := net.At(s).e, net.At(Other(s)).e;
             && p in peer.wire && Span(cfg.At(Other(s)), peer) < HALF
             && e.unr <= p.k + HALF && e.uns < p.r + HALF
    ensures var e := run.states[i].At(s).e;
            && RecvFrame(e, Received(p.msg.ToBytes())) == Some(if |p.msg.ToBytes()| <= 4096 then [p.msg] else [])
            && (InSequence(e, p.msg) <==> p.k == e.unr)
            && (Stale(e, p.msg) <==> p.k < e.unr)
  {
    hide IsRun, Inv, Core, InOrder, AcksSound, RecvFrame, Received, InSequence, Stale, ControlMessage.ToBytes;
    StateInv(cfg, run, i, s);
    var e, peer, pc := run.states[i].At(s).e, run.states[i].At(Other(s)).e, cfg.At(Other(s));
    WireIsGood(pc, peer, p);
    PacketNumbers(cfg.At(s), pc, e, peer, p);
    DecisionsOn(e, peer, p);
    FrameGetsThrough(e, peer, p);
  }

  lemma {:induction false} DecisionsOn(e: Endpoint, peer: Endpoint, p: Packet)
    requires GoodPacket(peer, p) && e.nr == Wire16(e.unr)
    requires p.k < e.unr + HALF && e.unr <= p.k + HALF
    ensures InSequence(e, p.msg) <==> p.k == e.unr
    ensures Stale(e, p.msg) <==> p.k < e.unr
  {
  }

  lemma {:induction false} FrameGetsThrough(e: Endpoint, peer: Endpoint, p: Packet)
    requires GoodPacket(peer, p) && e.ns == Wire16(e.uns) && p.r <= e.uns < p.r + HALF
    ensures RecvFrame(e, Received(p.msg.ToBytes())) == Some(if |p.msg.ToBytes()| <= RECV_BUFFER then [p.msg] else [])
  {
    hide Wire16, SeqCompare, MessageAt, ControlMessage.WellFormed, ControlMessage.ToBytes, ParseMessages,
      ControlMessage.GetType, SeqIncrement;
    IncrementCounts(e.uns);
    CompareRefines(p.r, e.uns + 1);
    if |p.msg.ToBytes()| <= RECV_BUFFER {
      RoundTrip(p.msg);
    } else {
      TruncatedIsRefused(p.msg, RECV_BUFFER);
    }
  }

  lemma {:induction false} PacketNumbers(cfg: Config, pcfg: Config, e: Endpoint, peer: Endpoint, p: Packet)
    requires Inv(cfg, e) && Inv(pcfg, peer) && InOrder(peer, e) && AcksSound(peer, e) && GoodPacket(peer, p)
    ensures p.k <= e.unr + Span(pcfg, peer) && p.r <= e.uns && e.nr == Wire16(e.unr) && e.ns == Wire16(e.uns)
  {
    AckedSent(pcfg, peer);
    if peer.acked > 0 {
      InvCore(pcfg, peer);
      SeqNoBelow(pcfg, peer, peer.acked - 1);
    }
    hide Sendable, MessageAt, Wire16, Queues, Finished;
  }

  /** In every run, an Nr no older than half the sequence space completes exactly the
      outstanding messages before it, in order, and leaves the rest. */
  lemma {:induction false} AcksExact(cfg: Configs, run: Run, i: nat, s: Side, r: nat)
    requires cfg.Valid() && IsRun(cfg, run) && i < |run.states|
    requires var e := run.states[i].At(s).e;
             e.alive && Span(cfg.At(s), e) < HALF && r <= e.uns <= r + HALF
    ensures AcksExactly(cfg.At(s), run.states[i].At(s).e, r)
  {
    hide IsRun, Inv, Core, Queues, InOrder, AcksSound, AcksExactly;
    StateInv(cfg, run, i, s);
    InvCore(cfg.At(s), run.states[i].At(s).e);
    AckExactness(cfg.At(s), run.states[i].At(s).e, r);
  }
}
