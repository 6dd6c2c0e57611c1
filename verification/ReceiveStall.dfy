/** Where the receiver falls short of its comment.  It promises to find the next message it
    can handle; it looks only at the head of its queue.  One message that arrives ahead of
    its turn therefore stops reception for good. */
module ReceiveStall {
  import opened Wire
  import opened Messages
  import opened Validation
  import opened SequenceNumbers
  import opened Endpoints
  import opened EndpointInvariants
  import opened SenderSteps
  import opened AckSteps
  import opened SenderArms
  import opened Network
  import opened Delivery

  // ---------------------------------------------------------------------------
  // The search for a message to handle

  predicate Handleable(e: Endpoint, m: ControlMessage) {
    InSequence(e, m) || Stale(e, m)
  }

  /** What the comment promises: some message of the queue is found when one can be handled. */
  ghost predicate FindsHandleable(e: Endpoint) {
    (exists i :: 0 <= i < |e.rxQueue| && Handleable(e, e.rxQueue[i])) ==> HeadReady(e)
  }

  predicate Ahead(e: Endpoint, m: ControlMessage) {
    SeqCompare(m.ns, e.nr) == 1
  }

  /** The promise is kept exactly when the head is not ahead, or nothing can be handled. */
  lemma {:induction false} FindsHandleableIff(e: Endpoint)
    ensures FindsHandleable(e) <==>
            e.rxQueue == [] || !Ahead(e, e.rxQueue[0]) || forall i :: 0 <= i < |e.rxQueue| ==> Ahead(e, e.rxQueue[i])
  {
  }

  // ---------------------------------------------------------------------------
  // Being stalled

  predicate Stalled(e: Endpoint) {
    e.rxQueue != [] && !HeadReady(e)
  }

  lemma {:induction false} StalledStays(e: Endpoint, more: seq<ControlMessage>)
    requires Stalled(e)
    ensures var e' := e.(rxQueue := e.rxQueue + more);
            Stalled(e') && ProcessRxQueue(e') == e'
  {
  }

  // ---------------------------------------------------------------------------
  // In runs

  lemma {:induction false} StepKeepsStall(cfg: Config, pcfg: Config, n: Node, peer: Node, ev: Event, n': Node)
    requires NodeInv(cfg, n, peer.e) && NodeInv(pcfg, peer, n.e) && NodeStep(cfg, n, peer.e, ev, n') && Stalled(n.e)
    ensures Stalled(n'.e) && n'.e.delivered == n.e.delivered
  {
    hide NodeInv, Inv, Extends, Validates, OnSubmit, OnNrs, OnRetry, OnHelloTimer, OnHelloRetry,
      OnAckTimer, Down, Receive, RecvFrame, Received, ControlMessage.ToBytes, ControlMessage.WellFormed, InSequence, Stale;
    NodeInvParts(cfg, n, peer.e);
    match ev
    case Recv(p) =>
      RecvQueued(cfg, n, peer.e, p, n');
      StalledStays(n.e, RecvFrame(n.e, Received(p.msg.ToBytes())).value);
    case RxArm =>
      StalledStays(n.e, []);
      assert n.e.rxQueue + [] == n.e.rxQueue;
    case _ =>
      SenderStepSameRx(cfg, n, peer.e, ev, n');
      StallIsReceiveSide(n.e, n'.e);
  }

  /** No arm of the sender touches the receive half. */
  lemma {:induction false} SenderStepSameRx(cfg: Config, n: Node, peer: Endpoint, ev: Event, n': Node)
    requires Inv(cfg, n.e) && NodeStep(cfg, n, peer, ev, n') && !ev.Recv? && !ev.RxArm?
    ensures SameRx(n.e, n'.e)
  {
    hide Inv, Extends, SameRx, Validates, OnSubmit, OnNrs, OnRetry, OnHelloTimer, OnHelloRetry,
      OnAckTimer, Down, ControlMessage.WellFormed;
    match ev
    case Submit(m, budget) =>
      ValidatedIsSendable(m);
      SubmitInv(cfg, n.e, m, budget);
    case NrArm(budget) => NrsInv(cfg, n.e, n.nrs.value, budget);
    case Retry(j, ok) => RetryInv(cfg, n.e, j, ok);
    case AckExpiry => TimersInv(cfg, n.e, n'.e);
    case HelloExpiry => TimersInv(cfg, n.e, n'.e);
    case HelloTimer(peerId, ok) => HelloTimerInv(cfg, n.e, peerId, ok);
    case HelloRetry(ok) => HelloRetryInv(cfg, n.e, ok);
    case AckTimer(peerId, ok) => AckTimerInv(cfg, n.e, peerId, ok);
    case Close =>
      InvCore(cfg, n.e);
      DownFromLive(cfg, n.e);
  }

  lemma {:induction false} StallIsReceiveSide(e: Endpoint, e': Endpoint)
    requires Stalled(e) && SameRx(e, e')
    ensures Stalled(e') && e'.delivered == e.delivered
  {
  }

  /** In every run, a stalled receiver accepts nothing more, ever. */
  lemma {:induction false} StallIsPermanent(cfg: Configs, run: Run, i: nat, j: nat, s: Side)
    requires cfg.Valid() && IsRun(cfg, run) && i <= j < |run.states|
    requires Stalled(run.states[i].At(s).e)
    ensures Stalled(run.states[j].At(s).e) && run.states[j].At(s).e.delivered == run.states[i].At(s).e.delivered
    decreases j
  {
    hide NodeInv, NodeStep, Stalled;
    if i < j {
      StallIsPermanent(cfg, run, i, j - 1, s);
      RunInv(cfg, run, j - 1);
      var net, net', move := run.states[j - 1], run.states[j], run.moves[j - 1];
      assert Delivery.Step(cfg, net, move.0, move.1, net');
      if move.0 == s {
        StepKeepsStall(cfg.At(s), cfg.At(Other(s)), net.At(s), net.At(Other(s)), move.1, net'.At(s));
      }
    }
  }

  // ---------------------------------------------------------------------------
  // What stalls a receiver

  /** The frame is queued although its number is beyond the receiver's next. */
  ghost predicate ComesAhead(e: Endpoint, ev: Event) {
    ev.Recv? && RecvFrame(e, Received(ev.p.msg.ToBytes())) == Some([ev.p.msg]) && ev.p.k > e.unr
  }

  /** The frame is no older than half the sequence space. */
  predicate WithinHalf(e: Endpoint, ev: Event) {
    ev.Recv? ==> e.unr <= ev.p.k + HALF
  }

  lemma {:induction false} StepStallsIff(cfg: Config, pcfg: Config, n: Node, peer: Node, ev: Event, n': Node)
    requires NodeInv(cfg, n, peer.e) && NodeInv(pcfg, peer, n.e) && NodeStep(cfg, n, peer.e, ev, n') && !Stalled(n.e)
    requires pcfg.window + 1 < HALF && WithinHalf(n.e, ev)
    ensures Stalled(n'.e) <==> ComesAhead(n.e, ev)
  {
    hide NodeInv, Inv, Receive, RecvFrame, Received, ControlMessage.ToBytes, InSequence, Stale, GoodPacket, InOrder, AcksSound;
    NodeInvParts(cfg, n, peer.e);
    NodeInvParts(pcfg, peer, n.e);
    ReadyOnlyInHand(cfg, n, peer.e);
    match ev
    case Recv(p) =>
      RecvQueued(cfg, n, peer.e, p, n');
      var got := RecvFrame(n.e, Received(p.msg.ToBytes())).value;
      assert n'.e.rxQueue == got;
      WireIsGood(pcfg, peer.e, p);
      FrameArrives(n.e, peer.e, p);
      PacketNumbers(cfg, pcfg, n.e, peer.e, p);
      DecisionsOn(n.e, peer.e, p);
      SameJudgement(n.e, n'.e, p.msg);
    case RxArm => WalkEmpties(n.e);
    case _ =>
      SenderStepSameRx(cfg, n, peer.e, ev, n');
      SameRxReady(n.e, n'.e);
  }

  lemma {:induction false} ReadyOnlyInHand(cfg: Config, n: Node, peer: Endpoint)
    requires NodeInv(cfg, n, peer)
    ensures HeadReady(n.e) ==> n.rxDue && |n.e.rxQueue| == 1
  {
  }

  lemma {:induction false} SameJudgement(e: Endpoint, e': Endpoint, m: ControlMessage)
    requires e'.nr == e.nr
    ensures InSequence(e', m) == InSequence(e, m) && Stale(e', m) == Stale(e, m)
  {
  }

  lemma {:induction false} WalkEmpties(e: Endpoint)
    requires !Stalled(e) && |e.rxQueue| <= 1
    ensures ProcessRxQueue(e).rxQueue == []
  {
  }

  /** In every run in which a side receives no frame older than half the sequence space, from
      a peer whose window and HELLO take up less than that: the side is stalled exactly when
      some frame came ahead of its turn. */
  lemma {:induction false} StalledIff(cfg: Configs, run: Run, i: nat, s: Side)
    requires cfg.Valid() && IsRun(cfg, run) && i < |run.states| && cfg.At(Other(s)).window + 1 < HALF
    requires forall j :: 0 <= j < i && run.moves[j].0 == s ==> WithinHalf(run.states[j].At(s).e, run.moves[j].1)
    ensures Stalled(run.states[i].At(s).e) <==>
            exists j :: 0 <= j < i && run.moves[j].0 == s && ComesAhead(run.states[j].At(s).e, run.moves[j].1)
    decreases i
  {
    hide NodeInv, NodeStep, Stalled, ComesAhead, WithinHalf;
    if i == 0 {
      FreshNotStalled(cfg.At(s));
    } else {
      StalledIff(cfg, run, i - 1, s);
      RunInv(cfg, run, i - 1);
      var net, net', move := run.states[i - 1], run.states[i], run.moves[i - 1];
      assert Delivery.Step(cfg, net, move.0, move.1, net');
      if Stalled(net.At(s).e) {
        StallIsPermanent(cfg, run, i - 1, i, s);
      } else if move.0 == s {
        StepStallsIff(cfg.At(s), cfg.At(Other(s)), net.At(s), net.At(Other(s)), move.1, net'.At(s));
      }
    }
  }

  lemma {:induction false} FreshNotStalled(cfg: Config)
    ensures !Stalled(Fresh(cfg))
  {
  }
}
