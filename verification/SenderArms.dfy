/** The remaining arms: submission, retransmission, keepalive, explicit acknowledgement,
    and the receiver's turns. */
module SenderArms {
  import opened Wire
  import opened Avps
  import opened Payloads
  import opened Messages
  import opened Validation
  import opened SequenceNumbers
  import opened SlowStart
  import opened RetryTimeouts
  import opened Endpoints
  import opened EndpointInvariants
  import opened SenderSteps
  import opened AckSteps

  // ---------------------------------------------------------------------------
  // Submission

  function Enqueued(e: Endpoint, m: ControlMessage): Endpoint {
    e.(submitted := e.submitted + [m], txQueue := e.txQueue + [Xmit(m, 0, false, |e.submitted|, 0)])
  }

  lemma {:induction false} EnqueuedQueues(cfg: Config, e: Endpoint, m: ControlMessage)
    requires Core(cfg, e) && Queues(cfg, e)
    ensures Queues(cfg, Enqueued(e, m))
  {
    hide Core, Outstanding, Waiting, Window.Bounded;
    var e' := Enqueued(e, m);
    forall i | 0 <= i < |e'.ackQueue|
      ensures Outstanding(cfg, e', e'.ackQueue[i], e'.acked + i)
    {
      OutstandingStable(cfg, e, e', e.ackQueue[i], e.acked + i);
    }
    forall i | 0 <= i < |e'.txQueue|
      ensures Waiting(e', e'.txQueue[i], UserSent(e') + i)
    {
      if i < |e.txQueue| {
        WaitingStable(e, e', e.txQueue[i], UserSent(e) + i);
      } else {
        NewlyWaiting(e, m);
      }
    }
  }

  lemma {:induction false} NewlyWaiting(e: Endpoint, m: ControlMessage)
    ensures Waiting(Enqueued(e, m), Xmit(m, 0, false, |e.submitted|, 0), |e.submitted|)
  {
  }

  lemma {:induction false} SubmitInv(cfg: Config, e: Endpoint, m: ControlMessage, budget: nat)
    requires Inv(cfg, e) && e.alive && Sendable(m)
    ensures var e' := OnSubmit(cfg, e, m, budget);
            && Inv(cfg, e') && Extends(e, e') && SameRx(e, e') && e'.acked == e.acked && e'.hello == e.hello
            && e.submitted + [m] <= e'.submitted
  {
    var e1 := Enqueued(e, m);
    EnqueuedCore(cfg, e, m);
    EnqueuedQueues(cfg, e, m);
    hide Core, Queues, Extends, SameRx;
    ProcessTxInv(cfg, e1, budget);
    ExtendsSubmitted(e1, OnSubmit(cfg, e, m, budget));
    ExtendsTrans(e, e1, OnSubmit(cfg, e, m, budget));
    SameRxTrans(e, e1, OnSubmit(cfg, e, m, budget));
  }

  lemma {:induction false} ExtendsSubmitted(e: Endpoint, e': Endpoint)
    requires Extends(e, e')
    ensures e.submitted <= e'.submitted
  {
  }

  lemma {:induction false} EnqueuedCore(cfg: Config, e: Endpoint, m: ControlMessage)
    requires Core(cfg, e) && Sendable(m)
    ensures Core(cfg, Enqueued(e, m)) && Extends(e, Enqueued(e, m)) && SameRx(e, Enqueued(e, m))
  {
    hide Sendable, GoodPacket;
    CoreStep(cfg, e, Enqueued(e, m));
  }

  // ---------------------------------------------------------------------------
  // Retransmission

  /** A retransmitted message at place j: the same number, a renewed Nr, a closed window. */
  function Retransmitted(cfg: Config, e: Endpoint, j: nat): Endpoint
    requires j < |e.ackQueue|
  {
    var x := e.ackQueue[j];
    var m := x.msg.SetTransportSeqNum(x.msg.ns, e.nr);
    e.(wire := e.wire + [Packet(m, x.seqNo, e.unr, ScaleRetryTimeout(cfg.retryTimeout, x.nretries + 1))],
       ackQueue := e.ackQueue[j := x.(nretries := x.nretries + 1, msg := m)],
       ackTimer := e.ackTimer.Stop(), helloTimer := ResetHello(cfg, e.helloTimer), win := e.win.OnRetransmit())
  }

  lemma {:induction false} RetransmittedOutstanding(cfg: Config, e: Endpoint, j: nat)
    requires Queues(cfg, e) && j < |e.ackQueue| && e.ackQueue[j].nretries + 1 < cfg.maxRetries
    ensures var e' := Retransmitted(cfg, e, j);
            Outstanding(cfg, e', e'.ackQueue[j], e'.acked + j)
  {
  }

  lemma {:induction false} RetransmitQueues(cfg: Config, e: Endpoint, j: nat)
    requires Core(cfg, e) && Queues(cfg, e) && j < |e.ackQueue| && e.ackQueue[j].nretries + 1 < cfg.maxRetries
    ensures Queues(cfg, Retransmitted(cfg, e, j)) && (Settled(e) ==> Settled(Retransmitted(cfg, e, j)))
  {
    hide Core, Waiting, Outstanding, ControlMessage.SetTransportSeqNum, ScaleRetryTimeout;
    var e' := Retransmitted(cfg, e, j);
    StepBounded(e.win, Retransmit, cfg.window);
    RetransmittedOutstanding(cfg, e, j);
    forall i | 0 <= i < |e'.ackQueue|
      ensures Outstanding(cfg, e', e'.ackQueue[i], e'.acked + i)
    {
      if i != j {
        OutstandingStable(cfg, e, e', e.ackQueue[i], e.acked + i);
      }
    }
    forall i | 0 <= i < |e'.txQueue|
      ensures Waiting(e', e'.txQueue[i], UserSent(e') + i)
    {
      WaitingStable(e, e', e.txQueue[i], UserSent(e) + i);
    }
  }

  lemma {:induction false} RetransmitCore(cfg: Config, e: Endpoint, j: nat)
    requires Core(cfg, e) && Queues(cfg, e) && j < |e.ackQueue|
    ensures Core(cfg, Retransmitted(cfg, e, j)) && Extends(e, Retransmitted(cfg, e, j)) && SameRx(e, Retransmitted(cfg, e, j))
  {
    hide TxQueueOk, AckedInOrder, Window.Bounded, Wire16, GoodPacket, ControlMessage.Body, Sendable;
    var e', x := Retransmitted(cfg, e, j), e.ackQueue[j];
    assert Outstanding(cfg, e, x, e.acked + j);
    ResentPacketIsGood(cfg, e, e', x.msg, x.seqNo, ScaleRetryTimeout(cfg.retryTimeout, x.nretries + 1));
    CoreStep(cfg, e, e');
  }

  lemma {:induction false} ResentPacketIsGood(cfg: Config, e: Endpoint, e': Endpoint, msg: ControlMessage, k: nat, wait: int)
    requires Core(cfg, e) && k < e.uns && MessageAt(e, k) == Some(msg.Body()) && msg.ns == Wire16(k)
    requires e'.uns == e.uns && e'.unr == e.unr && MessageAt(e', k) == MessageAt(e, k)
    ensures GoodPacket(e', Packet(msg.SetTransportSeqNum(msg.ns, e.nr), k, e.unr, wait))
  {
    SetSeqKeeps(msg, msg.ns, e.nr);
    BodySendable(cfg, e, k, msg);
    hide ControlMessage.Body, ControlMessage.WellFormed, ControlMessage.GetType, Wire16, MessageAt, ControlMessage.SetTransportSeqNum;
  }

  lemma {:induction false} BodySendable(cfg: Config, e: Endpoint, k: nat, msg: ControlMessage)
    requires Core(cfg, e) && MessageAt(e, k) == Some(msg.Body())
    ensures Sendable(msg)
  {
    hide GoodPacket, Wire16, Sendable, ControlMessage.Body;
    if e.hello.Some? && k == e.hello.value.seqNo {
      SendableBody(e.hello.value.msg, msg);
    } else {
      SendableBody(e.submitted[IdOf(e, k)], msg);
    }
  }

  lemma {:induction false} SendableBody(m: ControlMessage, m': ControlMessage)
    requires Sendable(m) && m'.Body() == m.Body()
    ensures Sendable(m')
  {
  }

  /** Failing one entry early moves its completion forward and nothing else. */
  lemma {:induction false} OwedFail(completed: seq<Done>, acked: nat, n: nat, pend: seq<Xmit>, j: nat)
    requires Owed(completed, acked, n, pend) && j < |pend| && !pend[j].isComplete
    ensures Owed(completed + [Done(pend[j].id, false)], acked, n, pend[j := pend[j].(isComplete := true)])
  {
    var d, pend' := Done(pend[j].id, false), pend[j := pend[j].(isComplete := true)];
    CompletedGrows(completed, d);
    assert forall i :: 0 <= i < |completed| ==> completed[i].id != d.id;
    forall id | 0 <= id < n
      ensures IsCompleted(completed + [d], id) || IsPending(pend', id)
    {
      if !IsCompleted(completed + [d], id) {
        assert IsPending(pend, id);
        var i :| 0 <= i < |pend| && !pend[i].isComplete && pend[i].id == id;
        assert pend'[i] == pend[i];
      }
    }
    hide IsCompleted, IsPending;
  }

  lemma {:induction false} FailInv(cfg: Config, e: Endpoint, j: nat)
    requires Core(cfg, e) && Queues(cfg, e) && j < |e.ackQueue|
    ensures var e' := Down(FailAt(e, j));
            && Inv(cfg, e') && !e'.alive && Extends(e, e') && SameRx(e, e')
            && e'.acked == e.acked && e'.hello == e.hello && e'.wire == e.wire && e'.uns == e.uns
  {
    hide Core, Queues, Owed, Down, FailAt, Extends, SameRx;
    var f := FailAt(e, j);
    FailAtFields(cfg, e, j);
    FailAtOwes(cfg, e, j);
    FailAtCore(cfg, e, f);
    DownInv(cfg, f);
    ExtendsTrans(e, f, Down(f));
    SameRxTrans(e, f, Down(f));
  }

  lemma {:induction false} FailAtFields(cfg: Config, e: Endpoint, j: nat)
    requires Queues(cfg, e) && j < |e.ackQueue|
    ensures var x := e.ackQueue[j];
            && !x.isComplete
            && FailAt(e, j) == e.(completed := e.completed + [Done(x.id, false)],
                                  ackQueue := e.ackQueue[j := x.(isComplete := true)])
  {
  }

  lemma {:induction false} FailAtOwes(cfg: Config, e: Endpoint, j: nat)
    requires Core(cfg, e) && Queues(cfg, e) && j < |e.ackQueue|
    ensures var f := FailAt(e, j);
            Owed(f.completed, f.acked, |f.submitted|, f.txQueue + f.ackQueue)
  {
    hide Core, Queues, Owed, FailAt;
    FailAtFields(cfg, e, j);
    QueuesOwe(cfg, e);
    var f, pend, k := FailAt(e, j), e.txQueue + e.ackQueue, |e.txQueue| + j;
    OwedFail(e.completed, e.acked, |e.submitted|, pend, k);
    assert pend[k := pend[k].(isComplete := true)] == f.txQueue + f.ackQueue;
  }

  lemma {:induction false} FailAtCore(cfg: Config, e: Endpoint, f: Endpoint)
    requires Core(cfg, e) && f == e.(completed := f.completed, ackQueue := f.ackQueue)
    ensures Core(cfg, f) && Extends(e, f) && SameRx(e, f)
  {
  }

  lemma {:induction false} RetryInv(cfg: Config, e: Endpoint, j: nat, writeOk: bool)
    requires Inv(cfg, e) && e.alive && j < |e.ackQueue|
    ensures var e' := OnRetry(cfg, e, j, writeOk);
            && Inv(cfg, e') && Extends(e, e') && SameRx(e, e') && e'.acked == e.acked && e'.hello == e.hello
            && (e'.alive <==> writeOk && e.ackQueue[j].nretries + 1 < cfg.maxRetries)
            && (e'.alive ==> e' == Retransmitted(cfg, e, j))
            && (!e'.alive ==> e'.wire == e.wire)
  {
    hide Core, Extends, SameRx, Settled;
    assert Outstanding(cfg, e, e.ackQueue[j], e.acked + j);
    if writeOk && e.ackQueue[j].nretries + 1 < cfg.maxRetries {
      RetransmitCore(cfg, e, j);
      RetransmitQueues(cfg, e, j);
      LiveIsInv(cfg, Retransmitted(cfg, e, j));
    } else {
      FailInv(cfg, e, j);
    }
    hide Queues, Down, FailAt;
  }

  // ---------------------------------------------------------------------------
  // Keepalive and explicit acknowledgement

  /** The messages the transport makes itself are well formed and of the type it wants. */
  lemma {:induction false} OwnMessages(cfg: Config, peer: u32)
    ensures NewHello(cfg, peer).Ok? ==> Sendable(NewHello(cfg, peer).value)
    ensures NewAck(cfg, peer).Ok? ==> NewAck(cfg, peer).value.WellFormed() && NewAck(cfg, peer).value.IsAck()
  {
    OwnMessage(cfg, peer, MSG_HELLO);
    OwnMessage(cfg, peer, MSG_ACK);
  }

  lemma {:induction false} OwnMessage(cfg: Config, peer: u32, msgType: u16)
    ensures var a := NewAvp(VENDOR_IETF, AVP_MESSAGE, VMsgType(msgType));
            && a.Ok?
            && (NewTransportMessage(cfg, peer, [a.value]).Ok? ==>
                  var m := NewTransportMessage(cfg, peer, [a.value]).value; m.WellFormed() && m.GetType() == Ok(msgType))
  {
    NewAvpDecodes(VENDOR_IETF, AVP_MESSAGE, VMsgType(msgType));
    var a := NewAvp(VENDOR_IETF, AVP_MESSAGE, VMsgType(msgType)).value;
    assert AvpsBytes([a]) == AvpBytes(a) + AvpsBytes([]);
    assert |a.data| == 2;
    hide NewAvp;
  }

  lemma {:induction false} HelloTimerInv(cfg: Config, e: Endpoint, peer: u32, writeOk: bool)
    requires Inv(cfg, e) && e.alive
    ensures var e' := OnHelloTimer(cfg, e, peer, writeOk);
            Inv(cfg, e') && Extends(e, e') && SameRx(e, e') && e'.acked == e.acked
  {
    hide Inv, Core, Queues, Extends, SameRx, NewHello, Down, HelloSent, FirstSend;
    var e1 := e.(helloTimer := e.helloTimer.Notice());
    TimersInv(cfg, e, e1);
    LiveParts(cfg, e1);
    if e1.hello.None? {
      DownFromLive(cfg, e1);
      if NewHello(cfg, peer).Ok? {
        var m := NewHello(cfg, peer).value;
        OwnMessages(cfg, peer);
        HelloSentInv(cfg, e1, m);
      }
    }
    ExtendsTrans(e, e1, OnHelloTimer(cfg, e, peer, writeOk));
    SameRxTrans(e, e1, OnHelloTimer(cfg, e, peer, writeOk));
  }

  lemma {:induction false} LiveParts(cfg: Config, e: Endpoint)
    requires Inv(cfg, e) && e.alive
    ensures Core(cfg, e) && Queues(cfg, e) && Settled(e)
    ensures Extends(e, e) && SameRx(e, e)
  {
  }

  lemma {:induction false} HelloSentInv(cfg: Config, e: Endpoint, m: ControlMessage)
    requires Inv(cfg, e) && e.alive && e.hello.None? && Sendable(m)
    ensures var e' := HelloSent(cfg, e, m);
            && Inv(cfg, e') && Extends(e, e') && SameRx(e, e') && e'.acked == e.acked && e'.hello.Some?
            && FirstSend(cfg, e, Xmit(m, 0, false, 0, 0)) == (e'.hello.value, e'.(hello := None))
  {
    LiveParts(cfg, e);
    HelloSentCore(cfg, e, m);
    HelloSentQueues(cfg, e, m);
    hide Core, Queues, Extends, SameRx, FirstSend;
    LiveIsInv(cfg, HelloSent(cfg, e, m));
  }

  function HelloSent(cfg: Config, e: Endpoint, m: ControlMessage): Endpoint {
    var m' := m.SetTransportSeqNum(e.ns, e.nr);
    e.(wire := e.wire + [Packet(m', e.uns, e.unr, ScaleRetryTimeout(cfg.retryTimeout, 0))],
       ns := SeqIncrement(e.ns), uns := e.uns + 1, hello := Some(Xmit(m', 0, false, 0, e.uns)),
       ackTimer := e.ackTimer.Stop(), helloTimer := ResetHello(cfg, e.helloTimer))
  }

  lemma {:induction false} HelloSentCore(cfg: Config, e: Endpoint, m: ControlMessage)
    requires Core(cfg, e) && e.hello.None? && Sendable(m)
    ensures Core(cfg, HelloSent(cfg, e, m)) && Extends(e, HelloSent(cfg, e, m)) && SameRx(e, HelloSent(cfg, e, m))
    ensures FirstSend(cfg, e, Xmit(m, 0, false, 0, 0)) ==
            (HelloSent(cfg, e, m).hello.value, HelloSent(cfg, e, m).(hello := None))
  {
    SetSeqKeeps(m, e.ns, e.nr);
    IncrementCounts(e.uns);
    hide ControlMessage.WellFormed, ControlMessage.GetType, ControlMessage.Body, Wire16, SeqIncrement;
    CoreStep(cfg, e, HelloSent(cfg, e, m));
  }

  lemma {:induction false} HelloSentQueues(cfg: Config, e: Endpoint, m: ControlMessage)
    requires Core(cfg, e) && Queues(cfg, e) && e.hello.None?
    ensures Queues(cfg, HelloSent(cfg, e, m)) && (Settled(e) ==> Settled(HelloSent(cfg, e, m)))
  {
    hide GoodPacket, Sendable, Outstanding, Waiting, Window.Bounded, Wire16, SeqIncrement, ControlMessage.SetTransportSeqNum;
    var e' := HelloSent(cfg, e, m);
    forall i | 0 <= i < |e'.ackQueue|
      ensures Outstanding(cfg, e', e'.ackQueue[i], e'.acked + i)
    {
      OutstandingStable(cfg, e, e', e.ackQueue[i], e.acked + i);
    }
    forall i | 0 <= i < |e'.txQueue|
      ensures Waiting(e', e'.txQueue[i], UserSent(e') + i)
    {
      WaitingStable(e, e', e.txQueue[i], UserSent(e) + i);
    }
  }

  function HelloResent(cfg: Config, e: Endpoint): Endpoint
    requires e.hello.Some?
  {
    var x := e.hello.value;
    var m := x.msg.SetTransportSeqNum(x.msg.ns, e.nr);
    e.(wire := e.wire + [Packet(m, x.seqNo, e.unr, ScaleRetryTimeout(cfg.retryTimeout, x.nretries + 1))],
       hello := Some(x.(nretries := x.nretries + 1, msg := m)), win := e.win.OnRetransmit(),
       ackTimer := e.ackTimer.Stop(), helloTimer := ResetHello(cfg, e.helloTimer))
  }

  lemma {:induction false} HelloResentInv(cfg: Config, e: Endpoint)
    requires Inv(cfg, e) && e.alive && e.hello.Some? && e.hello.value.nretries + 1 < cfg.maxRetries
    ensures var e' := HelloResent(cfg, e);
            Inv(cfg, e') && Extends(e, e') && SameRx(e, e')
  {
    var e', x := HelloResent(cfg, e), e.hello.value;
    SetSeqKeeps(x.msg, x.msg.ns, e.nr);
    StepBounded(e.win, Retransmit, cfg.window);
    hide ControlMessage.WellFormed, ControlMessage.GetType, ControlMessage.Body, ControlMessage.SetTransportSeqNum, Wire16, GoodPacket;
    ResentPacketIsGood(cfg, e, e', x.msg, x.seqNo, ScaleRetryTimeout(cfg.retryTimeout, x.nretries + 1));
    CoreStep(cfg, e, e');
    HelloResentQueues(cfg, e);
  }

  lemma {:induction false} HelloResentQueues(cfg: Config, e: Endpoint)
    requires Core(cfg, e) && Queues(cfg, e) && e.hello.Some?
    ensures Queues(cfg, HelloResent(cfg, e)) && (Settled(e) ==> Settled(HelloResent(cfg, e)))
  {
    hide Core, Outstanding, Waiting, ControlMessage.SetTransportSeqNum;
    var e' := HelloResent(cfg, e);
    StepBounded(e.win, Retransmit, cfg.window);
    forall i | 0 <= i < |e'.ackQueue|
      ensures Outstanding(cfg, e', e'.ackQueue[i], e'.acked + i)
    {
      OutstandingStable(cfg, e, e', e.ackQueue[i], e.acked + i);
    }
    forall i | 0 <= i < |e'.txQueue|
      ensures Waiting(e', e'.txQueue[i], UserSent(e') + i)
    {
      WaitingStable(e, e', e.txQueue[i], UserSent(e) + i);
    }
  }

  lemma {:induction false} HelloRetryInv(cfg: Config, e: Endpoint, writeOk: bool)
    requires Inv(cfg, e) && e.alive && e.hello.Some?
    ensures var e' := OnHelloRetry(cfg, e, writeOk);
            && Inv(cfg, e') && Extends(e, e') && SameRx(e, e') && e'.acked == e.acked
            && (e'.alive <==> writeOk && e.hello.value.nretries + 1 < cfg.maxRetries)
            && (e'.alive ==> e' == HelloResent(cfg, e))
            && (!e'.alive ==> e'.wire == e.wire && e'.hello == e.hello)
  {
    hide Core, Queues, Extends, SameRx, Down, Settled;
    if writeOk && e.hello.value.nretries + 1 < cfg.maxRetries {
      HelloResentInv(cfg, e);
      LiveIsInv(cfg, HelloResent(cfg, e));
    } else {
      DownFromLive(cfg, e);
    }
  }

  lemma {:induction false} AckTimerInv(cfg: Config, e: Endpoint, peer: u32, writeOk: bool)
    requires Inv(cfg, e) && e.alive
    ensures var e' := OnAckTimer(cfg, e, peer, writeOk);
            Inv(cfg, e') && Extends(e, e') && SameRx(e, e') && e'.acked == e.acked && e'.hello == e.hello
  {
    hide Inv, Core, Queues, Extends, SameRx, NewAck, Down, ControlMessage.SetTransportSeqNum;
    var e1 := e.(ackTimer := e.ackTimer.Notice());
    TimersInv(cfg, e, e1);
    LiveParts(cfg, e1);
    DownFromLive(cfg, e1);
    if NewAck(cfg, peer).Ok? {
      OwnMessages(cfg, peer);
      AckSentInv(cfg, e1, NewAck(cfg, peer).value);
    }
    ExtendsTrans(e, e1, OnAckTimer(cfg, e, peer, writeOk));
    SameRxTrans(e, e1, OnAckTimer(cfg, e, peer, writeOk));
  }

  lemma {:induction false} AckSentInv(cfg: Config, e: Endpoint, m: ControlMessage)
    requires Inv(cfg, e) && e.alive && m.WellFormed() && m.IsAck()
    ensures var e' := Transmit(e, m, e.ns, e.uns, 0).1;
            Inv(cfg, e') && Extends(e, e') && SameRx(e, e')
  {
    var e' := Transmit(e, m, e.ns, e.uns, 0).1;
    SetSeqKeeps(m, e.ns, e.nr);
    AckSentQueues(cfg, e, e');
    hide ControlMessage.WellFormed, ControlMessage.GetType, ControlMessage.Body, Wire16, Queues;
    CoreStep(cfg, e, e');
  }

  /** The queues do not depend on the wire or on the receive half. */
  lemma {:induction false} AckSentQueues(cfg: Config, e: Endpoint, e': Endpoint)
    requires Queues(cfg, e)
    requires e' == e.(wire := e'.wire, nr := e'.nr, unr := e'.unr, rxQueue := e'.rxQueue, delivered := e'.delivered)
    ensures Queues(cfg, e')
  {
  }

  // ---------------------------------------------------------------------------
  // The receiver

  lemma {:induction false} PopRxInv(cfg: Config, e: Endpoint)
    requires Inv(cfg, e) && e.alive && e.rxQueue != []
    ensures Inv(cfg, PopRx(e)) && Extends(e, PopRx(e))
  {
    var e' := PopRx(e);
    IncrementCounts(e.unr);
    AckSentQueues(cfg, e, e');
    hide ControlMessage.GetType, Wire16, Queues, SeqIncrement, GoodPacket, Sendable, InSequence;
    CoreStep(cfg, e, e');
  }

  lemma {:induction false} ProcessRxInv(cfg: Config, e: Endpoint)
    requires Inv(cfg, e) && e.alive
    ensures var e' := ProcessRxQueue(e);
            Inv(cfg, e') && Extends(e, e') && e'.alive
    decreases |e.rxQueue|
  {
    hide Inv, Extends, InSequence, Stale;
    if HeadReady(e) {
      PopRxInv(cfg, e);
      ProcessRxInv(cfg, PopRx(e));
      ExtendsTrans(e, PopRx(e), ProcessRxQueue(PopRx(e)));
    } else {
      ExtendsRefl(e);
    }
  }
}
