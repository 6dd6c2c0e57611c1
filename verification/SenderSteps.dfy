/** Every arm of the sender keeps the endpoint invariant. */
module SenderSteps {
  import opened Wire
  import opened Messages
  import opened SequenceNumbers
  import opened SlowStart
  import opened Endpoints
  import opened EndpointInvariants

  // ---------------------------------------------------------------------------
  // Going down completes everything exactly once

  /** Every message is completed or still owed a completion by an entry of this list, and
      none is owed twice. */
  ghost predicate Owed(completed: seq<Done>, acked: nat, n: nat, pend: seq<Xmit>) {
    && Ledger(completed, acked, n)
    && (forall i :: 0 <= i < |pend| && !pend[i].isComplete ==> pend[i].id < n && !IsCompleted(completed, pend[i].id))
    && (forall i, j :: 0 <= i < j < |pend| && !pend[i].isComplete && !pend[j].isComplete ==> pend[i].id != pend[j].id)
    && (forall id :: 0 <= id < n ==> IsCompleted(completed, id) || IsPending(pend, id))
  }

  predicate IsPending(pend: seq<Xmit>, id: nat) {
    exists i :: 0 <= i < |pend| && !pend[i].isComplete && pend[i].id == id
  }

  lemma {:induction false} CompletedGrows(completed: seq<Done>, d: Done)
    ensures forall id :: IsCompleted(completed + [d], id) <==> IsCompleted(completed, id) || id == d.id
  {
    var c := completed + [d];
    assert c[|completed|] == d;
    forall id | IsCompleted(completed, id)
      ensures IsCompleted(c, id)
    {
      var i :| 0 <= i < |completed| && completed[i].id == id;
      assert c[i].id == id;
    }
  }

  lemma {:induction false} PendingShrinks(pend: seq<Xmit>)
    requires pend != []
    ensures forall id :: IsPending(pend, id) <==> IsPending(pend[1..], id) || (!pend[0].isComplete && pend[0].id == id)
  {
  }

  lemma {:induction false} CompleteOne(completed: seq<Done>, acked: nat, n: nat, pend: seq<Xmit>)
    requires pend != [] && Owed(completed, acked, n, pend)
    ensures Owed(if pend[0].isComplete then completed else completed + [Done(pend[0].id, false)], acked, n, pend[1..])
  {
    PendingShrinks(pend);
    if !pend[0].isComplete {
      var d := Done(pend[0].id, false);
      CompletedGrows(completed, d);
      assert forall i :: 0 <= i < |completed| ==> completed[i].id != d.id;
    }
    hide IsCompleted, IsPending;
  }

  lemma {:induction false} CompleteAllPays(e: Endpoint, xs: seq<Xmit>, more: seq<Xmit>)
    requires Owed(e.completed, e.acked, |e.submitted|, xs + more)
    ensures var e' := CompleteAll(e, xs);
            && Owed(e'.completed, e'.acked, |e'.submitted|, more)
            && e' == e.(completed := e'.completed)
    decreases |xs|
  {
    hide Owed;
    if xs == [] {
      assert xs + more == more;
    } else {
      CompleteOne(e.completed, e.acked, |e.submitted|, xs + more);
      assert (xs + more)[1..] == xs[1..] + more;
      CompleteAllPays(Complete(e, xs[0], false), xs[1..], more);
    }
  }

  lemma {:induction false} DownInv(cfg: Config, e: Endpoint)
    requires Core(cfg, e) && Owed(e.completed, e.acked, |e.submitted|, e.txQueue + e.ackQueue)
    ensures Inv(cfg, Down(e)) && Extends(e, Down(e)) && SameRx(e, Down(e))
    ensures !Down(e).alive
    ensures Down(e).wire == e.wire && Down(e).acked == e.acked && Down(e).uns == e.uns && Down(e).hello == e.hello
  {
    hide Owed;
    CompleteAllPays(e, e.txQueue, e.ackQueue);
    assert e.ackQueue + [] == e.ackQueue;
    CompleteAllPays(CompleteAll(e, e.txQueue), e.ackQueue, []);
    var e' := Down(e);
    assert Owed(e'.completed, e'.acked, |e'.submitted|, []);
    NothingOwed(e'.completed, e'.acked, |e'.submitted|);
    CoreStep(cfg, e, e');
  }

  lemma {:induction false} NothingOwed(completed: seq<Done>, acked: nat, n: nat)
    requires Owed(completed, acked, n, [])
    ensures Ledger(completed, acked, n) && forall id :: 0 <= id < n ==> IsCompleted(completed, id)
  {
  }

  /** In a live endpoint every submitted message is acknowledged, waiting or outstanding. */
  lemma {:induction false} QueuesOwe(cfg: Config, e: Endpoint)
    requires Core(cfg, e) && Queues(cfg, e)
    ensures Owed(e.completed, e.acked, |e.submitted|, e.txQueue + e.ackQueue)
  {
    hide GoodPacket, Sendable, MessageAt, SeqNoOf, Window.Bounded;
    var pend := e.txQueue + e.ackQueue;
    var u, t := UserSent(e), |e.txQueue|;
    forall i | 0 <= i < |pend|
      ensures !pend[i].isComplete && pend[i].id == if i < t then u + i else e.acked + (i - t)
    {
    }
    forall id | 0 <= id < |e.submitted|
      ensures IsCompleted(e.completed, id) || IsPending(pend, id)
    {
      if id < e.acked {
        assert e.completed[id].id == id;
      } else if id < u {
        assert pend[t + (id - e.acked)].id == id;
      } else {
        assert pend[id - u].id == id;
      }
    }
  }

  lemma {:induction false} DownFromLive(cfg: Config, e: Endpoint)
    requires Core(cfg, e) && Queues(cfg, e)
    ensures Inv(cfg, Down(e)) && Extends(e, Down(e)) && SameRx(e, Down(e)) && !Down(e).alive
    ensures Down(e).wire == e.wire && Down(e).acked == e.acked && Down(e).uns == e.uns && Down(e).hello == e.hello
  {
    hide Owed, Core, Queues;
    QueuesOwe(cfg, e);
    DownInv(cfg, e);
  }

  // ---------------------------------------------------------------------------
  // Transmission

  lemma {:induction false} SetSeqKeeps(m: ControlMessage, ns: u16, nr: u16)
    ensures var m' := m.SetTransportSeqNum(ns, nr);
            && m'.Body() == m.Body() && m'.ns == ns && m'.nr == nr
            && m'.GetType() == m.GetType()
            && (m.WellFormed() ==> m'.WellFormed())
  {
  }

  lemma {:induction false} SendHeadCore(cfg: Config, e: Endpoint)
    requires Core(cfg, e) && Queues(cfg, e) && e.txQueue != [] && e.win.CanSend()
    ensures Core(cfg, SendHead(cfg, e)) && Extends(e, SendHead(cfg, e)) && SameRx(e, SendHead(cfg, e))
  {
    var x, e' := e.txQueue[0], SendHead(cfg, e);
    SetSeqKeeps(x.msg, e.ns, e.nr);
    IncrementCounts(e.uns);
    assert Waiting(e, x, UserSent(e)) && Sendable(e.submitted[UserSent(e)]);
    hide ControlMessage.WellFormed, ControlMessage.GetType, ControlMessage.Body, Wire16, SeqIncrement, Queues;
    assert e'.wire[|e.wire|].k == e.uns;
    assert IdOf(e', e.uns) == UserSent(e);
    CoreStep(cfg, e, e');
  }

  /** The head of the queue becomes the newest outstanding message. */
  lemma {:induction false} SendHeadFields(cfg: Config, e: Endpoint)
    requires Core(cfg, e) && Queues(cfg, e) && e.txQueue != []
    ensures var e', x := SendHead(cfg, e), e.txQueue[0];
            && e'.uns == e.uns + 1 && e'.acked == e.acked && e'.hello == e.hello && e'.alive
            && e'.submitted == e.submitted && e'.completed == e.completed
            && e'.txQueue == e.txQueue[1..] && e'.win == e.win.OnSend()
            && e'.ackQueue == e.ackQueue + [x.(msg := x.msg.SetTransportSeqNum(e.ns, e.nr), seqNo := e.uns)]
            && Waiting(e, x, UserSent(e))
  {
  }

  lemma {:induction false} OutstandingStable(cfg: Config, e: Endpoint, e': Endpoint, x: Xmit, id: nat)
    requires Outstanding(cfg, e, x, id) && e.submitted <= e'.submitted && SeqNoOf(e', id) == SeqNoOf(e, id)
    ensures Outstanding(cfg, e', x, id)
  {
  }

  lemma {:induction false} NewlyOutstanding(cfg: Config, e: Endpoint, x: Xmit)
    requires Core(cfg, e) && UserSent(e) >= 0 && Waiting(e, x, UserSent(e))
    ensures Outstanding(cfg, e, x.(msg := x.msg.SetTransportSeqNum(e.ns, e.nr), seqNo := e.uns), UserSent(e))
  {
  }

  lemma {:induction false} SendHeadAckQueue(cfg: Config, e: Endpoint)
    requires Core(cfg, e) && Queues(cfg, e) && e.txQueue != []
    ensures AckQueueOk(cfg, SendHead(cfg, e))
  {
    hide SendHead, ControlMessage.SetTransportSeqNum, Core, Waiting, TxQueueOk, AckedInOrder, Outstanding, Window.Bounded;
    var e' := SendHead(cfg, e);
    SendHeadFields(cfg, e);
    NewlyOutstanding(cfg, e, e.txQueue[0]);
    forall i | 0 <= i < |e'.ackQueue|
      ensures Outstanding(cfg, e', e'.ackQueue[i], e'.acked + i)
    {
      OutstandingStable(cfg, e, e', e'.ackQueue[i], e.acked + i);
    }
  }

  lemma {:induction false} SendHeadTxQueue(cfg: Config, e: Endpoint)
    requires Core(cfg, e) && Queues(cfg, e) && e.txQueue != []
    ensures UserSent(SendHead(cfg, e)) == UserSent(e) + 1 && TxQueueOk(SendHead(cfg, e))
  {
    hide SendHead, Core, Waiting, AckQueueOk, AckedInOrder, Window.Bounded;
    var e' := SendHead(cfg, e);
    SendHeadFields(cfg, e);
    forall i | 0 <= i < |e'.txQueue|
      ensures Waiting(e', e'.txQueue[i], UserSent(e') + i)
    {
      assert Waiting(e, e.txQueue[i + 1], UserSent(e) + (i + 1));
      WaitingStable(e, e', e.txQueue[i + 1], UserSent(e) + (i + 1));
    }
  }

  lemma {:induction false} WaitingStable(e: Endpoint, e': Endpoint, x: Xmit, id: nat)
    requires Waiting(e, x, id) && e.submitted <= e'.submitted
    ensures Waiting(e', x, id)
  {
  }

  lemma {:induction false} SendHeadQueues(cfg: Config, e: Endpoint)
    requires Core(cfg, e) && Queues(cfg, e) && e.txQueue != [] && e.win.CanSend()
    ensures Queues(cfg, SendHead(cfg, e))
  {
    hide SendHead, AckQueueOk, TxQueueOk, Window.Bounded, ControlMessage.SetTransportSeqNum, Core, Waiting;
    SendHeadFields(cfg, e);
    SendHeadAckQueue(cfg, e);
    SendHeadTxQueue(cfg, e);
    StepBounded(e.win, Send, cfg.window);
  }

  /** Draining the transmit queue keeps the invariant and leaves nothing waiting behind an
      open window; if a write fails, going down afterwards does. */
  lemma {:induction false} ProcessTxInv(cfg: Config, e: Endpoint, budget: nat)
    requires Core(cfg, e) && Queues(cfg, e)
    ensures var r := ProcessTxQueue(cfg, e, budget);
            if r.ok
            then Inv(cfg, r.e) && r.e.alive && Extends(e, r.e) && SameRx(e, r.e) && r.e.acked == e.acked && r.e.hello == e.hello
            else Inv(cfg, Down(r.e)) && !Down(r.e).alive && Extends(e, Down(r.e)) && SameRx(e, Down(r.e))
                 && Down(r.e).acked == e.acked && Down(r.e).hello == e.hello
    decreases |e.txQueue|
  {
    hide Core, Queues, Extends, SameRx;
    if e.txQueue == [] || !e.win.CanSend() {
      ExtendsRefl(e);
      LiveIsInv(cfg, e);
    } else if budget == 0 {
      DownFromLive(cfg, e);
      WriteFailure(cfg, e);
    } else {
      SendHeadCore(cfg, e);
      SendHeadQueues(cfg, e);
      SendHeadKeeps(cfg, e);
      var e1 := SendHead(cfg, e);
      ProcessTxInv(cfg, e1, budget - 1);
      var r := ProcessTxQueue(cfg, e1, budget - 1);
      var end := if r.ok then r.e else Down(r.e);
      ExtendsTrans(e, e1, end);
      SameRxTrans(e, e1, end);
    }
  }

  lemma {:induction false} LiveIsInv(cfg: Config, e: Endpoint)
    requires Core(cfg, e) && Queues(cfg, e)
    ensures e.alive && (Settled(e) ==> Inv(cfg, e))
  {
  }

  lemma {:induction false} SendHeadKeeps(cfg: Config, e: Endpoint)
    requires e.txQueue != []
    ensures SendHead(cfg, e).acked == e.acked && SendHead(cfg, e).hello == e.hello
    ensures SendHead(cfg, e).txQueue == e.txQueue[1..]
  {
  }

  lemma {:induction false} ExtendsRefl(e: Endpoint)
    ensures Extends(e, e) && SameRx(e, e)
  {
  }

  lemma {:induction false} SameRxTrans(a: Endpoint, b: Endpoint, c: Endpoint)
    requires SameRx(a, b) && SameRx(b, c)
    ensures SameRx(a, c)
  {
  }

  /** A failed write completes the head of the queue, which going down would have done. */
  lemma {:induction false} WriteFailure(cfg: Config, e: Endpoint)
    requires Queues(cfg, e) && e.txQueue != []
    ensures Down(Complete(e.(txQueue := e.txQueue[1..]), e.txQueue[0], false)) == Down(e)
  {
    var x := e.txQueue[0];
    assert Waiting(e, x, UserSent(e));
    hide Queues;
    CompleteAllIgnoresQueue(Complete(e, x, false), e.txQueue[1..], e.txQueue[1..]);
    var f := CompleteAll(Complete(e, x, false), e.txQueue[1..]);
    CompleteAllIgnoresQueue(f, e.ackQueue, e.txQueue[1..]);
  }

  lemma {:induction false} CompleteAllIgnoresQueue(e: Endpoint, xs: seq<Xmit>, q: seq<Xmit>)
    ensures CompleteAll(e.(txQueue := q), xs) == CompleteAll(e, xs).(txQueue := q)
    decreases |xs|
  {
    if xs != [] {
      CompleteAllIgnoresQueue(Complete(e, xs[0], false), xs[1..], q);
    }
  }
}
