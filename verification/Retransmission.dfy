/** How often a message is transmitted, for how long, and what becomes of a HELLO. */
module Retransmission {
  import opened Wire
  import opened Messages
  import opened Validation
  import opened SequenceNumbers
  import opened RetryTimeouts
  import opened Endpoints
  import opened EndpointInvariants
  import opened SenderSteps
  import opened AckSteps
  import opened SenderArms
  import opened Network
  import opened Delivery

  // ---------------------------------------------------------------------------
  // Counting transmissions

  predicate Carries(p: Packet, k: nat) {
    p.k == k && !p.msg.IsAck()
  }

  /** The number of times the message with unbounded sequence number k has been written. */
  function Sends(wire: seq<Packet>, k: nat): nat
    decreases |wire|
  {
    if wire == [] then 0
    else Sends(wire[..|wire| - 1], k) + (if Carries(wire[|wire| - 1], k) then 1 else 0)
  }

  /** How long the retry timers armed by those writings ran for, together. */
  function WaitedFor(wire: seq<Packet>, k: nat): int
    decreases |wire|
  {
    if wire == [] then 0
    else WaitedFor(wire[..|wire| - 1], k) + (if Carries(wire[|wire| - 1], k) then wire[|wire| - 1].wait else 0)
  }

  lemma {:induction false} SendsMore(wire: seq<Packet>, p: Packet, k: nat)
    ensures Sends(wire + [p], k) == Sends(wire, k) + (if Carries(p, k) then 1 else 0)
    ensures WaitedFor(wire + [p], k) == WaitedFor(wire, k) + (if Carries(p, k) then p.wait else 0)
  {
  }

  lemma {:induction false} UnsentIsZero(wire: seq<Packet>, e: Endpoint, k: nat)
    requires (forall i :: 0 <= i < |wire| ==> GoodPacket(e, wire[i])) && k >= e.uns
    ensures Sends(wire, k) == 0
    decreases |wire|
  {
    if wire != [] {
      UnsentIsZero(wire[..|wire| - 1], e, k);
      assert GoodPacket(e, wire[|wire| - 1]);
    }
  }

  /** No message has been written more than maxRetries times, and each writing has doubled
      the wait of the one before. */
  ghost predicate Limited(cfg: Config, e: Endpoint) {
    forall k: nat ::
      Sends(e.wire, k) <= cfg.maxRetries && WaitedFor(e.wire, k) == Waited(cfg.retryTimeout, Sends(e.wire, k))
  }

  /** An outstanding message has been written once more than it has been retried. */
  predicate Tallied(e: Endpoint) {
    && (forall i :: 0 <= i < |e.ackQueue| ==> Sends(e.wire, e.ackQueue[i].seqNo) == e.ackQueue[i].nretries + 1)
    && (e.hello.Some? ==> Sends(e.wire, e.hello.value.seqNo) == e.hello.value.nretries + 1)
  }

  ghost predicate Tally(cfg: Config, e: Endpoint) {
    Limited(cfg, e) && (e.alive ==> Tallied(e))
  }

  /** The limit survives one more frame if its message was below the limit and its wait the
      next one. */
  lemma {:induction false} LimitedMore(cfg: Config, e: Endpoint, e': Endpoint, p: Packet)
    requires Limited(cfg, e) && e'.wire == e.wire + [p]
    requires p.msg.IsAck() || Sends(e.wire, p.k) < cfg.maxRetries
    requires p.msg.IsAck() || p.wait == ScaleRetryTimeout(cfg.retryTimeout, Sends(e.wire, p.k))
    ensures Limited(cfg, e')
  {
  }

  // ---------------------------------------------------------------------------
  // Every arm keeps the tally

  lemma {:induction false} SendHeadTally(cfg: Config, e: Endpoint)
    requires Core(cfg, e) && Queues(cfg, e) && e.txQueue != [] && e.win.CanSend() && Tally(cfg, e)
    ensures Tally(cfg, SendHead(cfg, e))
  {
    var e', x := SendHead(cfg, e), e.txQueue[0];
    SendHeadFields(cfg, e);
    SetSeqKeeps(x.msg, e.ns, e.nr);
    var p := Packet(x.msg.SetTransportSeqNum(e.ns, e.nr), e.uns, e.unr, ScaleRetryTimeout(cfg.retryTimeout, 0));
    assert Sendable(e.submitted[UserSent(e)]);
    UnsentIsZero(e.wire, e, e.uns);
    assert e'.wire == e.wire + [p];
    NumbersBelow(cfg, e);
    hide Core, Queues, SendHead, Sends, WaitedFor, ControlMessage.SetTransportSeqNum, ScaleRetryTimeout;
    LimitedMore(cfg, e, e', p);
    forall i | 0 <= i < |e'.ackQueue|
      ensures Sends(e'.wire, e'.ackQueue[i].seqNo) == e'.ackQueue[i].nretries + 1
    {
      SendsMore(e.wire, p, e'.ackQueue[i].seqNo);
    }
    if e.hello.Some? {
      SendsMore(e.wire, p, e.hello.value.seqNo);
    }
  }

  /** Outstanding messages have distinct numbers, all already given out. */
  lemma {:induction false} NumbersBelow(cfg: Config, e: Endpoint)
    requires Core(cfg, e) && Queues(cfg, e)
    ensures forall i :: 0 <= i < |e.ackQueue| ==> e.ackQueue[i].seqNo < e.uns
    ensures forall i, j :: 0 <= i < j < |e.ackQueue| ==> e.ackQueue[i].seqNo != e.ackQueue[j].seqNo
    ensures e.hello.Some? ==>
              e.hello.value.seqNo < e.uns && forall i :: 0 <= i < |e.ackQueue| ==> e.ackQueue[i].seqNo != e.hello.value.seqNo
  {
  }

  lemma {:induction false} DownKeepsWire(e: Endpoint)
    ensures Down(e).wire == e.wire
  {
    CompleteAllKeepsWire(e, e.txQueue);
    CompleteAllKeepsWire(CompleteAll(e, e.txQueue), e.ackQueue);
  }

  lemma {:induction false} CompleteAllKeepsWire(e: Endpoint, xs: seq<Xmit>)
    ensures CompleteAll(e, xs).wire == e.wire
    decreases |xs|
  {
    if xs != [] {
      CompleteAllKeepsWire(Complete(e, xs[0], false), xs[1..]);
    }
  }

  lemma {:induction false} DownTally(cfg: Config, e: Endpoint)
    requires Limited(cfg, e)
    ensures Tally(cfg, Down(e))
  {
    DownKeepsWire(e);
  }

  lemma {:induction false} ProcessTxTally(cfg: Config, e: Endpoint, budget: nat)
    requires Core(cfg, e) && Queues(cfg, e) && Tally(cfg, e)
    ensures Tally(cfg, ProcessTxQueue(cfg, e, budget).e)
    ensures Tally(cfg, Down(ProcessTxQueue(cfg, e, budget).e))
    decreases |e.txQueue|
  {
    hide Core, Queues, Tallied, Limited, SendHead, Down;
    if e.txQueue == [] || !e.win.CanSend() {
      DownTally(cfg, e);
    } else if budget == 0 {
      var e' := ProcessTxQueue(cfg, e, budget).e;
      SameWireTally(cfg, e, e');
    } else {
      SendHeadCore(cfg, e);
      SendHeadQueues(cfg, e);
      SendHeadTally(cfg, e);
      SendHeadKeeps(cfg, e);
      ProcessTxTally(cfg, SendHead(cfg, e), budget - 1);
    }
  }

  lemma {:induction false} SameWireTally(cfg: Config, e: Endpoint, e': Endpoint)
    requires Tally(cfg, e) && e.alive == e'.alive && e'.wire == e.wire && e'.ackQueue == e.ackQueue && e'.hello == e.hello
    ensures Tally(cfg, e') && Tally(cfg, Down(e'))
  {
    DownTally(cfg, e');
  }

  lemma {:induction false} ProcessAckTally(cfg: Config, e: Endpoint, nr: u16)
    requires Core(cfg, e) && Queues(cfg, e) && Tally(cfg, e)
    ensures Tally(cfg, ProcessAckQueue(cfg, e, nr))
  {
    ProcessAckInv(cfg, e, nr);
    var e' := ProcessAckQueue(cfg, e, nr);
    assert e.alive;
    hide Core, Queues, Extends, SameRx, ProcessAckQueue, HeadAcked, Sends;
    ShorterTally(cfg, e, e', e'.acked - e.acked);
  }

  lemma {:induction false} ShorterTally(cfg: Config, e: Endpoint, e': Endpoint, n: nat)
    requires Tally(cfg, e) && e.alive && e'.wire == e.wire && e'.hello == e.hello
    requires n <= |e.ackQueue| && e'.ackQueue == e.ackQueue[n..]
    ensures Tally(cfg, e')
  {
  }

  lemma {:induction false} EachNrTally(cfg: Config, e: Endpoint, inds: seq<NrInd>, budget: nat)
    requires Inv(cfg, e) && e.alive && Tally(cfg, e)
    ensures Tally(cfg, OnEachNr(cfg, e, inds, budget))
    decreases |inds|
  {
    InvCore(cfg, e);
    hide Core, Queues, Tally, HeadAcked, ProcessAckQueue, ProcessTxQueue, Down, Extends, SameRx;
    if inds == [] {
    } else if !HeadAcked(e, inds[0].nr) {
      EachNrTally(cfg, e, inds[1..], budget);
    } else {
      var e1 := ProcessAckQueue(cfg, e, inds[0].nr);
      ProcessAckInv(cfg, e, inds[0].nr);
      ProcessAckTally(cfg, e, inds[0].nr);
      ProcessTxInv(cfg, e1, budget);
      ProcessTxTally(cfg, e1, budget);
      var r := ProcessTxQueue(cfg, e1, budget);
      if r.ok {
        EachNrTally(cfg, r.e, inds[1..], r.budget);
      }
    }
  }

  lemma {:induction false} NrsTally(cfg: Config, e: Endpoint, inds: seq<NrInd>, budget: nat)
    requires Inv(cfg, e) && e.alive && Tally(cfg, e)
    ensures Tally(cfg, OnNrs(cfg, e, inds, budget))
  {
    hide Inv, OnEachNr, Limited, Tallied, Down;
    EachNrTally(cfg, e, inds, budget);
    SameWireTally(cfg, OnEachNr(cfg, e, inds, budget), OnNrs(cfg, e, inds, budget));
  }

  lemma {:induction false} RetryTally(cfg: Config, e: Endpoint, j: nat, writeOk: bool)
    requires Inv(cfg, e) && e.alive && j < |e.ackQueue| && Tally(cfg, e)
    ensures Tally(cfg, OnRetry(cfg, e, j, writeOk))
  {
    var e' := OnRetry(cfg, e, j, writeOk);
    InvCore(cfg, e);
    RetryInv(cfg, e, j, writeOk);
    var p := RetransmittedPacket(cfg, e, j);
    NumbersBelow(cfg, e);
    hide Inv, Core, Queues, OnRetry, Extends, SameRx, Sends, WaitedFor, Retransmitted, ScaleRetryTimeout;
    if e'.alive {
      LimitedMore(cfg, e, e', p);
      OneMoreTally(e, e', p);
    }
  }

  /** A retransmission writes the message under its old number. */
  lemma {:induction false} RetransmittedPacket(cfg: Config, e: Endpoint, j: nat) returns (p: Packet)
    requires Core(cfg, e) && Queues(cfg, e) && j < |e.ackQueue|
    ensures var e', x := Retransmitted(cfg, e, j), e.ackQueue[j];
            && e'.wire == e.wire + [p] && e'.hello == e.hello && Carries(p, x.seqNo)
            && p.wait == ScaleRetryTimeout(cfg.retryTimeout, x.nretries + 1) && |e'.ackQueue| == |e.ackQueue|
            && e'.ackQueue[j].seqNo == x.seqNo && e'.ackQueue[j].nretries == x.nretries + 1
            && forall i :: 0 <= i < |e.ackQueue| && i != j ==> e'.ackQueue[i] == e.ackQueue[i]
  {
    hide Core, Queues, ControlMessage.SetTransportSeqNum, ControlMessage.GetType, ScaleRetryTimeout;
    var x := e.ackQueue[j];
    OutstandingIsNoAck(cfg, e, j);
    SetSeqKeeps(x.msg, x.msg.ns, e.nr);
    p := Retransmitted(cfg, e, j).wire[|e.wire|];
  }

  lemma {:induction false} OutstandingIsNoAck(cfg: Config, e: Endpoint, j: nat)
    requires Core(cfg, e) && Queues(cfg, e) && j < |e.ackQueue|
    ensures !e.ackQueue[j].msg.IsAck()
  {
  }

  /** The tally of a message and of the HELLO follow the frame just written. */
  lemma {:induction false} OneMoreTally(e: Endpoint, e': Endpoint, p: Packet)
    requires Tallied(e) && e'.wire == e.wire + [p] && |e'.ackQueue| == |e.ackQueue|
    requires forall i :: 0 <= i < |e.ackQueue| ==>
               e'.ackQueue[i].seqNo == e.ackQueue[i].seqNo
               && e'.ackQueue[i].nretries == e.ackQueue[i].nretries + (if Carries(p, e.ackQueue[i].seqNo) then 1 else 0)
    requires e'.hello.Some? ==>
               if e.hello.Some?
               then e'.hello.value.seqNo == e.hello.value.seqNo
                    && e'.hello.value.nretries == e.hello.value.nretries + (if Carries(p, e.hello.value.seqNo) then 1 else 0)
               else e'.hello.value.nretries == 0 && Carries(p, e'.hello.value.seqNo) && Sends(e.wire, e'.hello.value.seqNo) == 0
    ensures Tallied(e')
  {
  }

  lemma {:induction false} HelloTimerTally(cfg: Config, e: Endpoint, peer: u32, writeOk: bool)
    requires Inv(cfg, e) && e.alive && Tally(cfg, e)
    ensures Tally(cfg, OnHelloTimer(cfg, e, peer, writeOk))
  {
    hide Inv, Core, Queues, Limited, Tallied, Down, NewHello, HelloSent, FirstSend, Extends, SameRx;
    var e1 := e.(helloTimer := e.helloTimer.Notice());
    TimersInv(cfg, e, e1);
    SameWireTally(cfg, e, e1);
    InvCore(cfg, e1);
    if e1.hello.None? && NewHello(cfg, peer).Ok? {
      var m := NewHello(cfg, peer).value;
      OwnMessages(cfg, peer);
      HelloSentInv(cfg, e1, m);
      HelloSentTally(cfg, e1, m);
    }
  }

  lemma {:induction false} HelloSentTally(cfg: Config, e: Endpoint, m: ControlMessage)
    requires Core(cfg, e) && Queues(cfg, e) && e.hello.None? && Sendable(m) && Tally(cfg, e)
    ensures Tally(cfg, HelloSent(cfg, e, m))
  {
    var e' := HelloSent(cfg, e, m);
    SetSeqKeeps(m, e.ns, e.nr);
    UnsentIsZero(e.wire, e, e.uns);
    NumbersBelow(cfg, e);
    var p := e'.wire[|e.wire|];
    assert e.alive && e'.wire == e.wire + [p] && Carries(p, e.uns);
    hide Core, Queues, Sends, WaitedFor, ControlMessage.SetTransportSeqNum, ScaleRetryTimeout;
    LimitedMore(cfg, e, e', p);
    OneMoreTally(e, e', p);
  }

  lemma {:induction false} HelloRetryTally(cfg: Config, e: Endpoint, writeOk: bool)
    requires Inv(cfg, e) && e.alive && e.hello.Some? && Tally(cfg, e)
    ensures Tally(cfg, OnHelloRetry(cfg, e, writeOk))
  {
    hide Inv, Core, Queues, OnHelloRetry, Extends, SameRx, Sends, WaitedFor, HelloResent, ScaleRetryTimeout,
      ControlMessage.IsAck;
    var e' := OnHelloRetry(cfg, e, writeOk);
    InvCore(cfg, e);
    HelloRetryInv(cfg, e, writeOk);
    NumbersBelow(cfg, e);
    if e'.alive {
      var p := HelloResentFrame(cfg, e);
      LimitedMore(cfg, e, e', p);
      OneMoreTally(e, e', p);
    }
  }

  lemma {:induction false} HelloResentFrame(cfg: Config, e: Endpoint) returns (p: Packet)
    requires Core(cfg, e) && e.hello.Some?
    ensures var e' := HelloResent(cfg, e);
            && e'.wire == e.wire + [p] && Carries(p, e.hello.value.seqNo)
            && p.wait == ScaleRetryTimeout(cfg.retryTimeout, e.hello.value.nretries + 1)
            && e'.ackQueue == e.ackQueue && e'.hello.Some? && e'.hello.value.seqNo == e.hello.value.seqNo
            && e'.hello.value.nretries == e.hello.value.nretries + 1
  {
    SetSeqKeeps(e.hello.value.msg, e.hello.value.msg.ns, e.nr);
    p := HelloResent(cfg, e).wire[|e.wire|];
    hide ScaleRetryTimeout, ControlMessage.SetTransportSeqNum;
  }

  lemma {:induction false} AckTimerTally(cfg: Config, e: Endpoint, peer: u32, writeOk: bool)
    requires Tally(cfg, e) && e.alive
    ensures Tally(cfg, OnAckTimer(cfg, e, peer, writeOk))
  {
    hide Limited, Tallied, Down, NewAck, Transmit;
    var e1 := e.(ackTimer := e.ackTimer.Notice());
    SameWireTally(cfg, e, e1);
    if NewAck(cfg, peer).Ok? {
      OwnMessages(cfg, peer);
      AckSentTally(cfg, e1, NewAck(cfg, peer).value);
    }
  }

  lemma {:induction false} AckSentTally(cfg: Config, e: Endpoint, m: ControlMessage)
    requires Tally(cfg, e) && e.alive && m.IsAck()
    ensures Tally(cfg, Transmit(e, m, e.ns, e.uns, 0).1)
  {
    hide Limited, Sends, WaitedFor, ControlMessage.GetType;
    SetSeqKeeps(m, e.ns, e.nr);
    var e' := Transmit(e, m, e.ns, e.uns, 0).1;
    var p := e'.wire[|e.wire|];
    LimitedMore(cfg, e, e', p);
    OneMoreTally(e, e', p);
  }

  lemma {:induction false} RxKeepsSender(e: Endpoint)
    ensures var e' := ProcessRxQueue(e);
            && e'.alive == e.alive && e'.wire == e.wire && e'.ackQueue == e.ackQueue && e'.hello == e.hello
    decreases |e.rxQueue|
  {
    hide InSequence, Stale, ControlMessage.IsAck;
    if HeadReady(e) {
      RxKeepsSender(PopRx(e));
    }
  }

  lemma {:induction false} StepTally(cfg: Config, n: Node, peer: Endpoint, ev: Event, n': Node)
    requires Inv(cfg, n.e) && NodeStep(cfg, n, peer, ev, n') && Tally(cfg, n.e)
    ensures Tally(cfg, n'.e)
  {
    hide Inv, Validates, OnNrs, OnRetry, OnHelloTimer, OnHelloRetry, OnAckTimer, Down, ProcessRxQueue,
      Receive, RecvFrame, Received, ControlMessage.ToBytes, ControlMessage.WellFormed, Limited, Tallied, ProcessTxQueue, Core, Queues;
    match ev
    case Submit(m, budget) =>
      ValidatedIsSendable(m);
      SubmitTally(cfg, n.e, m, budget);
    case NrArm(budget) => NrsTally(cfg, n.e, n.nrs.value, budget);
    case Retry(j, ok) => RetryTally(cfg, n.e, j, ok);
    case AckExpiry => SameWireTally(cfg, n.e, n'.e);
    case HelloExpiry => SameWireTally(cfg, n.e, n'.e);
    case HelloTimer(peerId, ok) => HelloTimerTally(cfg, n.e, peerId, ok);
    case HelloRetry(ok) => HelloRetryTally(cfg, n.e, ok);
    case AckTimer(peerId, ok) => AckTimerTally(cfg, n.e, peerId, ok);
    case Close => DownTally(cfg, n.e);
    case Recv(p) =>
      RecvQueued(cfg, n, peer, p, n');
      SameWireTally(cfg, n.e, n'.e);
    case RxArm =>
      RxKeepsSender(n.e);
      SameWireTally(cfg, n.e, n'.e);
  }

  lemma {:induction false} SubmitTally(cfg: Config, e: Endpoint, m: ControlMessage, budget: nat)
    requires Inv(cfg, e) && e.alive && Sendable(m) && Tally(cfg, e)
    ensures Tally(cfg, OnSubmit(cfg, e, m, budget))
  {
    InvCore(cfg, e);
    EnqueuedCore(cfg, e, m);
    EnqueuedQueues(cfg, e, m);
    SameWireTally(cfg, e, Enqueued(e, m));
    hide Core, Queues, Tally, ProcessTxQueue, Down, Extends, SameRx;
    ProcessTxTally(cfg, Enqueued(e, m), budget);
  }

  lemma {:induction false} RunTally(cfg: Configs, run: Run, i: nat, s: Side)
    requires cfg.Valid() && IsRun(cfg, run) && i < |run.states|
    ensures Tally(cfg.At(s), run.states[i].At(s).e)
    decreases i
  {
    hide NodeStep, NodeInv, Inv, Core, InOrder, AcksSound, Tally;
    if i == 0 {
      FreshTally(cfg.At(s));
    } else {
      RunTally(cfg, run, i - 1, s);
      StateInv(cfg, run, i - 1, s);
      var net, net', move := run.states[i - 1], run.states[i], run.moves[i - 1];
      assert Delivery.Step(cfg, net, move.0, move.1, net');
      if move.0 == s {
        StepTally(cfg.At(s), net.At(s), net.At(Other(s)).e, move.1, net'.At(s));
      }
    }
  }

  lemma {:induction false} FreshTally(cfg: Config)
    ensures Tally(cfg, Fresh(cfg))
  {
  }

  /** In every run a message is written at most maxRetries times, always under the sequence
      number and with the content of its first transmission; while it is outstanding it has
      been written exactly once more than it has been retried. */
  lemma {:induction false} RetransmissionBound(cfg: Configs, run: Run, i: nat, s: Side)
    requires cfg.Valid() && IsRun(cfg, run) && i < |run.states|
    ensures var e := run.states[i].At(s).e;
            && (forall k: nat :: Sends(e.wire, k) <= cfg.At(s).maxRetries)
            && (forall p, q :: p in e.wire && q in e.wire && Carries(p, p.k) && Carries(q, p.k)
                               ==> p.msg.ns == q.msg.ns == Wire16(p.k) && p.msg.Body() == q.msg.Body())
            && (e.alive ==> forall j :: 0 <= j < |e.ackQueue| ==>
                              Sends(e.wire, e.ackQueue[j].seqNo) == e.ackQueue[j].nretries + 1)
  {
    hide IsRun, Inv, InOrder, AcksSound, Sends, WaitedFor;
    RunTally(cfg, run, i, s);
    StateInv(cfg, run, i, s);
    var e := run.states[i].At(s).e;
    forall p, q | p in e.wire && q in e.wire && Carries(p, p.k) && Carries(q, p.k)
      ensures p.msg.ns == q.msg.ns == Wire16(p.k) && p.msg.Body() == q.msg.Body()
    {
      assert GoodPacket(e, p) && GoodPacket(e, q);
    }
  }

  // ---------------------------------------------------------------------------
  // Running out of retries

  /** In every run, a retry timer that fires brings the transport down exactly when its
      message has been written maxRetries times.  The message is then completed with an
      error, and the timers armed for it, one after another since its first transmission, have
      run for retryTimeout * (2^maxRetries - 1) together exactly when the longest of these
      waits fits the clock's type. */
  lemma {:induction false} UnackedMessageFails(cfg: Configs, run: Run, i: nat, s: Side, j: nat)
    requires cfg.Valid() && IsRun(cfg, run) && i < |run.moves| && run.moves[i] == (s, Retry(j, true))
    ensures var e, e', c := run.states[i].At(s).e, run.states[i + 1].At(s).e, cfg.At(s);
            && j < |e.ackQueue|
            && var x := e.ackQueue[j];
               var written := Sends(e.wire, x.seqNo);
               && (e'.alive <==> written < c.maxRetries)
               && (e'.alive ==> Sends(e'.wire, x.seqNo) == written + 1)
               && WaitedFor(e.wire, x.seqNo) == Waited(c.retryTimeout, written)
               && (!e'.alive ==> Done(x.id, false) in e'.completed
                                 && (WaitedFor(e.wire, x.seqNo) == c.retryTimeout * (Pow2(c.maxRetries) - 1)
                                     <==> Fits64(c.retryTimeout * Pow2(c.maxRetries - 1))))
  {
    hide Inv, Core, InOrder, AcksSound, Sends, WaitedFor, Waited, Pow2, OnRetry, SameRx, Retransmitted, Fits64, ScaleRetryTimeout;
    RunTally(cfg, run, i, s);
    RunTally(cfg, run, i + 1, s);
    StateInv(cfg, run, i, s);
    StateInv(cfg, run, i + 1, s);
    var e, e', c := run.states[i].At(s).e, run.states[i + 1].At(s).e, cfg.At(s);
    assert Delivery.Step(cfg, run.states[i], s, Retry(j, true), run.states[i + 1]);
    RetryInv(c, e, j, true);
    WaitedExact(c.retryTimeout, c.maxRetries);
    RetriesBelow(c, e, j);
    if e'.alive {
      InvCore(c, e);
      var _ := RetransmittedPacket(c, e, j);
    } else {
      FailureReported(c, e', e.ackQueue[j].id);
    }
  }

  lemma {:induction false} RetriesBelow(cfg: Config, e: Endpoint, j: nat)
    requires Inv(cfg, e) && e.alive && j < |e.ackQueue|
    ensures e.ackQueue[j].nretries < cfg.maxRetries && e.acked <= e.ackQueue[j].id < |e.submitted|
  {
  }

  /** A dead transport has reported an error for every message it had no acknowledgement of. */
  lemma {:induction false} FailureReported(cfg: Config, e: Endpoint, id: nat)
    requires Inv(cfg, e) && !e.alive && e.acked <= id < |e.submitted|
    ensures Done(id, false) in e.completed
  {
    assert IsCompleted(e.completed, id);
    var c :| 0 <= c < |e.completed| && e.completed[c].id == id;
    assert e.completed[c] == Done(id, false);
  }

  // ---------------------------------------------------------------------------
  // HELLO

  function HelloRetries(moves: seq<(Side, Event)>, s: Side): nat
    decreases |moves|
  {
    if moves == [] then 0
    else
      var last := moves[|moves| - 1];
      HelloRetries(moves[..|moves| - 1], s) + (if last.0 == s && last.1.HelloRetry? then 1 else 0)
  }

  /** The HELLO's retry count is the number of times its timer has fired: nothing the peer
      sends brings it to an end. */
  ghost predicate HelloCount(cfg: Config, e: Endpoint, n: nat) {
    && n <= cfg.maxRetries
    && (e.alive ==> n < cfg.maxRetries && n == if e.hello.Some? then e.hello.value.nretries else 0)
  }

  lemma {:induction false} StepHelloCount(cfg: Config, n: Node, peer: Endpoint, ev: Event, n': Node, c: nat)
    requires Inv(cfg, n.e) && NodeStep(cfg, n, peer, ev, n') && HelloCount(cfg, n.e, c)
    ensures HelloCount(cfg, n'.e, if ev.HelloRetry? then c + 1 else c)
  {
    hide Inv, Validates, OnSubmit, OnNrs, OnRetry, OnHelloRetry, OnAckTimer, Down, ProcessRxQueue, NewHello,
      Receive, RecvFrame, Received, ControlMessage.ToBytes, ControlMessage.WellFormed, Core, Queues, Extends, SameRx, Retransmitted;
    match ev
    case Submit(m, budget) =>
      ValidatedIsSendable(m);
      SubmitInv(cfg, n.e, m, budget);
    case NrArm(budget) => NrsInv(cfg, n.e, n.nrs.value, budget);
    case Retry(j, ok) => RetryInv(cfg, n.e, j, ok);
    case AckExpiry =>
    case HelloExpiry =>
    case HelloTimer(peerId, ok) => HelloTimerCount(cfg, n.e, peerId, ok, c);
    case HelloRetry(ok) => HelloRetryInv(cfg, n.e, ok);
    case AckTimer(peerId, ok) => AckTimerInv(cfg, n.e, peerId, ok);
    case Close =>
      InvCore(cfg, n.e);
      DownFromLive(cfg, n.e);
    case Recv(p) => RecvQueued(cfg, n, peer, p, n');
    case RxArm => RxKeepsSender(n.e);
  }

  lemma {:induction false} HelloTimerCount(cfg: Config, e: Endpoint, peer: u32, writeOk: bool, c: nat)
    requires Inv(cfg, e) && e.alive && HelloCount(cfg, e, c)
    ensures HelloCount(cfg, OnHelloTimer(cfg, e, peer, writeOk), c)
  {
  }

  lemma {:induction false} RunHelloCount(cfg: Configs, run: Run, i: nat, s: Side)
    requires cfg.Valid() && IsRun(cfg, run) && i < |run.states|
    ensures HelloCount(cfg.At(s), run.states[i].At(s).e, HelloRetries(run.moves[..i], s))
    decreases i
  {
    hide NodeStep, NodeInv, Inv, Core, InOrder, AcksSound, HelloCount;
    if i == 0 {
      FreshHelloCount(cfg.At(s));
    } else {
      RunHelloCount(cfg, run, i - 1, s);
      StateInv(cfg, run, i - 1, s);
      var net, net', move := run.states[i - 1], run.states[i], run.moves[i - 1];
      assert run.moves[..i][..i - 1] == run.moves[..i - 1];
      assert Delivery.Step(cfg, net, move.0, move.1, net');
      if move.0 == s {
        StepHelloCount(cfg.At(s), net.At(s), net.At(Other(s)).e, move.1, net'.At(s), HelloRetries(run.moves[..i - 1], s));
      }
    }
  }

  lemma {:induction false} FreshHelloCount(cfg: Config)
    requires cfg.Valid()
    ensures HelloCount(cfg, Fresh(cfg), 0)
  {
  }

  /** A keepalive is fatal.  In every run, once the HELLO's timer has fired maxRetries
      times the transport is down, however many of its frames the peer has acknowledged; and
      until then the HELLO stays in flight, so no second one is sent. */
  lemma {:induction false} HelloIsFatal(cfg: Configs, run: Run, i: nat, s: Side)
    requires cfg.Valid() && IsRun(cfg, run) && i < |run.states|
    ensures var e, fired := run.states[i].At(s).e, HelloRetries(run.moves[..i], s);
            && fired <= cfg.At(s).maxRetries
            && (fired == cfg.At(s).maxRetries ==> !e.alive)
            && (e.alive && fired > 0 ==> e.hello.Some? && Sends(e.wire, e.hello.value.seqNo) == fired + 1)
  {
    hide IsRun, Sends;
    RunHelloCount(cfg, run, i, s);
    RunTally(cfg, run, i, s);
  }

  /** In every run a HELLO's retry timer that fires brings the transport down exactly when the
      HELLO has been written maxRetries times. */
  lemma {:induction false} HelloRetryFails(cfg: Configs, run: Run, i: nat, s: Side)
    requires cfg.Valid() && IsRun(cfg, run) && i < |run.moves| && run.moves[i] == (s, HelloRetry(true))
    ensures var e, e' := run.states[i].At(s).e, run.states[i + 1].At(s).e;
            && e.hello.Some?
            && var written := Sends(e.wire, e.hello.value.seqNo);
               && (e'.alive <==> written < cfg.At(s).maxRetries)
               && (e'.alive ==> Sends(e'.wire, e.hello.value.seqNo) == written + 1)
  {
    hide Inv, Core, InOrder, AcksSound, Sends, OnHelloRetry, SameRx, Limited, Extends;
    StateInv(cfg, run, i, s);
    RunTally(cfg, run, i, s);
    RunTally(cfg, run, i + 1, s);
    var e, c := run.states[i].At(s).e, cfg.At(s);
    assert Delivery.Step(cfg, run.states[i], s, HelloRetry(true), run.states[i + 1]);
    HelloRetryInv(c, e, true);
  }
}
