/** Acknowledgement processing keeps the invariant and completes what it should. */
module AckSteps {
  import opened Wire
  import opened SequenceNumbers
  import opened SlowStart
  import opened Endpoints
  import opened EndpointInvariants
  import opened SenderSteps

  lemma {:induction false} PopAckedFields(cfg: Config, e: Endpoint)
    requires Core(cfg, e) && Queues(cfg, e) && e.ackQueue != []
    ensures var e' := PopAcked(cfg, e);
            && e' == e.(ackQueue := e.ackQueue[1..], win := e.win.OnAck(cfg.window),
                        completed := e.completed + [Done(e.acked, true)], acked := e.acked + 1)
            && e'.acked <= UserSent(e')
  {
  }

  lemma {:induction false} PopAckedInv(cfg: Config, e: Endpoint)
    requires Core(cfg, e) && Queues(cfg, e) && e.ackQueue != []
    ensures var e' := PopAcked(cfg, e);
            Core(cfg, e') && Queues(cfg, e') && Extends(e, e') && SameRx(e, e')
  {
    PopAckedFields(cfg, e);
    PopAckedQueues(cfg, e);
    hide Queues, PopAcked, GoodPacket, Sendable, Window.OnAck;
    CoreStep(cfg, e, PopAcked(cfg, e));
  }

  lemma {:induction false} PopAckedQueues(cfg: Config, e: Endpoint)
    requires Core(cfg, e) && Queues(cfg, e) && e.ackQueue != []
    ensures Queues(cfg, PopAcked(cfg, e))
  {
    hide Core, PopAcked, AckQueueOk, TxQueueOk;
    PopAckedFields(cfg, e);
    StepBounded(e.win, Ack, cfg.window);
    PopAckedAckQueue(cfg, e);
    PopAckedTxQueue(cfg, e);
  }

  lemma {:induction false} PopAckedAckQueue(cfg: Config, e: Endpoint)
    requires Core(cfg, e) && Queues(cfg, e) && e.ackQueue != []
    ensures AckQueueOk(cfg, PopAcked(cfg, e))
  {
    hide Core, PopAcked, Outstanding, TxQueueOk, Window.Bounded, AckedInOrder;
    var e' := PopAcked(cfg, e);
    PopAckedFields(cfg, e);
    forall i | 0 <= i < |e'.ackQueue|
      ensures Outstanding(cfg, e', e'.ackQueue[i], e'.acked + i)
    {
      OutstandingStable(cfg, e, e', e.ackQueue[i + 1], e.acked + (i + 1));
    }
  }

  lemma {:induction false} PopAckedTxQueue(cfg: Config, e: Endpoint)
    requires Core(cfg, e) && Queues(cfg, e) && e.ackQueue != []
    ensures UserSent(PopAcked(cfg, e)) == UserSent(e) >= 0 && TxQueueOk(PopAcked(cfg, e))
  {
    hide Core, PopAcked, Waiting, AckQueueOk, Window.Bounded, AckedInOrder;
    var e' := PopAcked(cfg, e);
    PopAckedFields(cfg, e);
    forall i | 0 <= i < |e'.txQueue|
      ensures Waiting(e', e'.txQueue[i], UserSent(e') + i)
    {
      WaitingStable(e, e', e.txQueue[i], UserSent(e) + i);
    }
  }

  /** The messages an Nr completes: a run from the head of the queue, each of whose Ns the
      Nr follows on the wire, up to the first it does not. */
  ghost predicate AcksRun(e: Endpoint, e': Endpoint, nr: u16) {
    && e.acked <= e'.acked <= e.acked + |e.ackQueue|
    && e'.ackQueue == e.ackQueue[e'.acked - e.acked..]
    && (forall i :: 0 <= i < e'.acked - e.acked ==> SeqCompare(nr, e.ackQueue[i].msg.ns) > 0)
    && !HeadAcked(e', nr)
    && e'.uns == e.uns && e'.hello == e.hello && e'.wire == e.wire && e'.submitted == e.submitted && e'.txQueue == e.txQueue
  }

  lemma {:induction false} ProcessAckInv(cfg: Config, e: Endpoint, nr: u16)
    requires Core(cfg, e) && Queues(cfg, e)
    ensures var e' := ProcessAckQueue(cfg, e, nr);
            Core(cfg, e') && Queues(cfg, e') && Extends(e, e') && SameRx(e, e') && AcksRun(e, e', nr)
    decreases |e.ackQueue|
  {
    hide Core, Queues, Extends, SameRx, PopAcked;
    if HeadAcked(e, nr) {
      var e1 := PopAcked(cfg, e);
      PopAckedFields(cfg, e);
      PopAckedInv(cfg, e);
      ProcessAckInv(cfg, e1, nr);
      var e' := ProcessAckQueue(cfg, e1, nr);
      ExtendsTrans(e, e1, e');
      SameRxTrans(e, e1, e');
      AcksRunMore(e, e1, e', nr);
    } else {
      ExtendsRefl(e);
      assert e.ackQueue[0..] == e.ackQueue;
    }
  }

  lemma {:induction false} AcksRunMore(e: Endpoint, e1: Endpoint, e': Endpoint, nr: u16)
    requires HeadAcked(e, nr) && AcksRun(e1, e', nr)
    requires e1.ackQueue == e.ackQueue[1..] && e1.acked == e.acked + 1
    requires e1.uns == e.uns && e1.hello == e.hello && e1.wire == e.wire && e1.submitted == e.submitted && e1.txQueue == e.txQueue
    ensures AcksRun(e, e', nr)
  {
  }

  lemma {:induction false} EachNrInv(cfg: Config, e: Endpoint, inds: seq<NrInd>, budget: nat)
    requires Inv(cfg, e) && e.alive
    ensures var e' := OnEachNr(cfg, e, inds, budget);
            Inv(cfg, e') && Extends(e, e') && SameRx(e, e') && e'.hello == e.hello
    decreases |inds|
  {
    hide Core, Queues, Extends, SameRx, HeadAcked, ProcessAckQueue;
    if inds == [] {
      ExtendsRefl(e);
    } else if !HeadAcked(e, inds[0].nr) {
      EachNrInv(cfg, e, inds[1..], budget);
    } else {
      var e1 := ProcessAckQueue(cfg, e, inds[0].nr);
      ProcessAckInv(cfg, e, inds[0].nr);
      ProcessTxInv(cfg, e1, budget);
      var r := ProcessTxQueue(cfg, e1, budget);
      var e2 := if r.ok then r.e else Down(r.e);
      ExtendsTrans(e, e1, e2);
      SameRxTrans(e, e1, e2);
      if r.ok {
        EachNrInv(cfg, r.e, inds[1..], r.budget);
        var e' := OnEachNr(cfg, r.e, inds[1..], r.budget);
        ExtendsTrans(e, e2, e');
        SameRxTrans(e, e2, e');
      }
    }
  }

  /** Timers are not part of the invariant. */
  lemma {:induction false} TimersInv(cfg: Config, e: Endpoint, e': Endpoint)
    requires e' == e.(ackTimer := e'.ackTimer, helloTimer := e'.helloTimer)
    ensures Inv(cfg, e) ==> Inv(cfg, e')
    ensures Extends(e, e') && SameRx(e, e')
  {
    hide Sendable, Outstanding, Waiting, GoodPacket;
    if Inv(cfg, e) {
      TimersCore(cfg, e, e');
      if e.alive {
        TimersQueues(cfg, e, e');
      }
    }
  }

  lemma {:induction false} TimersCore(cfg: Config, e: Endpoint, e': Endpoint)
    requires Core(cfg, e) && e' == e.(ackTimer := e'.ackTimer, helloTimer := e'.helloTimer)
    ensures Core(cfg, e')
  {
  }

  lemma {:induction false} TimersQueues(cfg: Config, e: Endpoint, e': Endpoint)
    requires Queues(cfg, e) && e' == e.(ackTimer := e'.ackTimer, helloTimer := e'.helloTimer)
    ensures Queues(cfg, e')
  {
  }

  /** The arm for a received frame keeps the invariant. */
  lemma {:induction false} NrsInv(cfg: Config, e: Endpoint, inds: seq<NrInd>, budget: nat)
    requires Inv(cfg, e) && e.alive
    ensures var e' := OnNrs(cfg, e, inds, budget);
            Inv(cfg, e') && Extends(e, e') && SameRx(e, e') && e'.hello == e.hello
  {
    hide Inv, Extends, SameRx, OnEachNr, WantsAck;
    var e1, e' := OnEachNr(cfg, e, inds, budget), OnNrs(cfg, e, inds, budget);
    EachNrInv(cfg, e, inds, budget);
    TimersInv(cfg, e1, e');
    ExtendsTrans(e, e1, e');
    SameRxTrans(e, e1, e');
  }

  /** What a single Nr completes is a run of messages outstanding before it arrived. */
  lemma {:induction false} OneNrAcks(cfg: Config, e: Endpoint, ind: NrInd, budget: nat)
    requires Inv(cfg, e) && e.alive
    ensures var e' := OnNrs(cfg, e, [ind], budget);
            && e.acked <= e'.acked <= UserSent(e)
            && (forall id :: e.acked <= id < e'.acked ==> SeqCompare(ind.nr, Wire16(SeqNoOf(e, id))) > 0)
  {
    hide Core, Extends, SameRx, HeadAcked, ProcessAckQueue, ProcessTxQueue, Down, WantsAck;
    assert [ind][1..] == [];
    if HeadAcked(e, ind.nr) {
      var e1 := ProcessAckQueue(cfg, e, ind.nr);
      ProcessAckInv(cfg, e, ind.nr);
      ProcessTxInv(cfg, e1, budget);
      forall id | e.acked <= id < e1.acked
        ensures SeqCompare(ind.nr, Wire16(SeqNoOf(e, id))) > 0
      {
        assert Outstanding(cfg, e, e.ackQueue[id - e.acked], e.acked + (id - e.acked));
      }
      var r := ProcessTxQueue(cfg, e1, budget);
      assert OnEachNr(cfg, e, [ind], budget) == if r.ok then OnEachNr(cfg, r.e, [], r.budget) else Down(r.e);
    } else {
      assert OnEachNr(cfg, e, [ind], budget) == OnEachNr(cfg, e, [], budget);
    }
  }

  // ---------------------------------------------------------------------------
  // Exactness

  /** The longest stretch of numbers that can be unacknowledged: the window, and a HELLO. */
  function Span(cfg: Config, e: Endpoint): nat {
    cfg.window + if e.hello.Some? then 1 else 0
  }

  /** Every comparison of an Nr with an outstanding Ns falls within half the range, so the
      sixteen-bit answer is the order of the unbounded numbers. */
  lemma {:induction false} AckComparisons(cfg: Config, e: Endpoint, r: nat, i: nat)
    requires Core(cfg, e) && Queues(cfg, e) && i < |e.ackQueue|
    requires Span(cfg, e) < HALF && r <= e.uns <= r + HALF
    ensures SeqCompare(Wire16(r), e.ackQueue[i].msg.ns) > 0 <==> e.ackQueue[i].seqNo < r
  {
    hide Core, Queues, Wire16, SeqCompare;
    QueueNumbers(cfg, e);
    CompareRefines(r, e.ackQueue[i].seqNo);
  }

  /** The Nr completes the outstanding messages whose number precedes it, in order and
      without error, and no others; the loop reports whether there were any. */
  ghost predicate AcksExactly(cfg: Config, e: Endpoint, r: nat) {
    var e' := ProcessAckQueue(cfg, e, Wire16(r));
    var n := e'.acked - e.acked;
    && 0 <= n <= |e.ackQueue|
    && (forall i :: 0 <= i < |e.ackQueue| ==> (e.ackQueue[i].seqNo < r <==> i < n))
    && e'.ackQueue == e.ackQueue[n..]
    && (HeadAcked(e, Wire16(r)) <==> n > 0)
    && e'.completed == e.completed + seq(n, i requires 0 <= i < n => Done(e.ackQueue[i].id, true))
  }

  /** An Nr no older than half the sequence space completes exactly the outstanding messages
      before it: they leave from the front in order, each completed without error, and the
      rest stay. */
  lemma {:induction false} AckExactness(cfg: Config, e: Endpoint, r: nat)
    requires Core(cfg, e) && Queues(cfg, e)
    requires Span(cfg, e) < HALF && r <= e.uns <= r + HALF
    ensures AcksExactly(cfg, e, r)
  {
    hide Core, Queues, Extends, SameRx, Wire16, SeqCompare, ProcessAckQueue, Span;
    var e' := ProcessAckQueue(cfg, e, Wire16(r));
    ProcessAckInv(cfg, e, Wire16(r));
    var n := e'.acked - e.acked;
    AckedPrefix(cfg, e, r, n);
    if |e.ackQueue| > 0 {
      AckComparisons(cfg, e, r, 0);
    }
    CompletedRun(cfg, e, e', n);
  }

  /** What leaves the queue are the numbers before r. */
  lemma {:induction false} AckedPrefix(cfg: Config, e: Endpoint, r: nat, n: nat)
    requires Core(cfg, e) && Queues(cfg, e) && Span(cfg, e) < HALF && r <= e.uns <= r + HALF && n <= |e.ackQueue|
    requires forall i :: 0 <= i < n ==> SeqCompare(Wire16(r), e.ackQueue[i].msg.ns) > 0
    requires n < |e.ackQueue| ==> SeqCompare(Wire16(r), e.ackQueue[n].msg.ns) <= 0
    ensures forall i :: 0 <= i < |e.ackQueue| ==> (e.ackQueue[i].seqNo < r <==> i < n)
  {
    hide Core, Queues, Wire16, SeqCompare, Span;
    OutstandingNumbers(cfg, e);
    if n < |e.ackQueue| {
      AckComparisons(cfg, e, r, n);
    }
    forall i | 0 <= i < n
      ensures e.ackQueue[i].seqNo < r
    {
      AckComparisons(cfg, e, r, i);
    }
  }

  lemma {:induction false} CompletedRun(cfg: Config, e: Endpoint, e': Endpoint, n: nat)
    requires Queues(cfg, e) && Queues(cfg, e') && e'.acked == e.acked + n && n <= |e.ackQueue|
    ensures e'.completed == e.completed + seq(n, i requires 0 <= i < n => Done(e.ackQueue[i].id, true))
  {
  }

  /** The outstanding numbers increase along the queue, ... */
  lemma {:induction false} OutstandingNumbers(cfg: Config, e: Endpoint)
    requires Core(cfg, e) && Queues(cfg, e)
    ensures forall i, j :: 0 <= i < j < |e.ackQueue| ==> e.ackQueue[i].seqNo < e.ackQueue[j].seqNo
  {
  }

  /** ... lie in a stretch of the sequence space no longer than the window and one HELLO
      ending just before the next number.  Without a HELLO they are contiguous. */
  lemma {:induction false} QueueNumbers(cfg: Config, e: Endpoint)
    requires Core(cfg, e) && Queues(cfg, e)
    ensures forall i :: 0 <= i < |e.ackQueue| ==>
                          && e.ackQueue[i].msg.ns == Wire16(e.ackQueue[i].seqNo)
                          && e.uns - Span(cfg, e) <= e.ackQueue[i].seqNo < e.uns
    ensures e.hello.None? ==> forall i :: 0 <= i < |e.ackQueue| ==> e.ackQueue[i].seqNo == e.uns - |e.ackQueue| + i
  {
  }
}
