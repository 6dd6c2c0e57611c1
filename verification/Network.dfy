/** Two endpoints joined by a network that loses, duplicates and reorders frames.

    Everything an endpoint ever wrote stays available for delivery, any number of times and
    in any order, or never: that is the whole channel.  Frames travel as bytes and are
    parsed on arrival.  Two things sixteen bits cannot tell apart are ruled out: a message
    already received is not delivered when the receiver is back at its number a whole number
    of cycles later, and an Nr is not used when the oldest message it could acknowledge is
    more than half a cycle beyond it. */
module Network {
  import opened Wire
  import opened Messages
  import opened Validation
  import opened SequenceNumbers
  import opened SlowStart
  import opened Endpoints
  import opened ReceiveErrors
  import opened EndpointInvariants
  import opened SenderSteps
  import opened AckSteps
  import opened SenderArms

  /** An endpoint between the turns of its two goroutines: the Nr values the receiver has
      yet to hand to the sender, and whether the receive queue is still to be walked.
      The packet in hand is history. */
  datatype Node = Node(e: Endpoint, nrs: Option<seq<NrInd>>, rxDue: bool, inHand: Option<Packet>)

  datatype Event =
    | Submit(m: ControlMessage, budget: nat)
    | NrArm(budget: nat)
    | Retry(j: nat, retryOk: bool)
    | AckExpiry
    | HelloExpiry
    | HelloTimer(helloPeer: u32, helloOk: bool)
    | HelloRetry(helloRetryOk: bool)
    | AckTimer(ackPeer: u32, ackOk: bool)
    | Close
    | Recv(p: Packet)
    | RxArm

  /** A message accepted before whose number the receiver takes for the next one. */
  predicate Aliased(e: Endpoint, p: Packet) {
    p.k < e.unr && Wire16(p.k) == Wire16(e.unr)
  }

  /** The oldest outstanding message is more than half a cycle beyond the Nr. */
  predicate Outdated(e: Endpoint, r: nat) {
    e.ackQueue != [] && e.ackQueue[0].seqNo > r + HALF
  }

  /** A timer expires while it is armed, and is noticed some time later.  Submission goes
      through validation, which no acknowledgement passes. */
  ghost predicate NodeStep(cfg: Config, n: Node, peer: Endpoint, ev: Event, n': Node) {
    n.e.alive &&
    match ev
    case Submit(m, budget) =>
      Validates(m) && m.WellFormed() && n' == n.(e := OnSubmit(cfg, n.e, m, budget))
    case NrArm(budget) =>
      && n.nrs.Some? && (n.nrs.value != [] && n.inHand.Some? ==> !Outdated(n.e, n.inHand.value.r))
      && n' == n.(e := OnNrs(cfg, n.e, n.nrs.value, budget), nrs := None)
    case Retry(j, ok) =>
      j < |n.e.ackQueue| && n' == n.(e := OnRetry(cfg, n.e, j, ok))
    case AckExpiry =>
      n.e.ackTimer.armed && n' == n.(e := n.e.(ackTimer := n.e.ackTimer.Expire()))
    case HelloExpiry =>
      n.e.helloTimer.armed && n' == n.(e := n.e.(helloTimer := n.e.helloTimer.Expire()))
    case HelloTimer(peerId, ok) =>
      n.e.helloTimer.fired && n' == n.(e := OnHelloTimer(cfg, n.e, peerId, ok))
    case HelloRetry(ok) =>
      n.e.hello.Some? && n' == n.(e := OnHelloRetry(cfg, n.e, ok))
    case AckTimer(peerId, ok) =>
      n.e.ackTimer.fired && n' == n.(e := OnAckTimer(cfg, n.e, peerId, ok))
    case Close =>
      n' == n.(e := Down(n.e))
    case Recv(p) =>
      && p in peer.wire && n.nrs.None? && !n.rxDue && !Aliased(n.e, p)
      && var (receipt, e') := Receive(n.e, Received(p.msg.ToBytes()));
         && !receipt.Panics?
         && n' == if receipt.ReceiverEnds? then n.(e := Down(n.e)) else Node(e', Some(receipt.nrs), true, Some(p))
    case RxArm =>
      n.rxDue && n' == n.(e := ProcessRxQueue(n.e), rxDue := false)
  }

  // ---------------------------------------------------------------------------
  // The invariant between the two ends

  /** What has been accepted is what the peer numbered, in order and without gaps. */
  ghost predicate InOrder(e: Endpoint, peer: Endpoint) {
    e.unr <= peer.uns && |e.delivered| == e.unr &&
    forall i :: 0 <= i < e.unr ==> MessageAt(peer, i) == Some(e.delivered[i].Body())
  }

  /** What has been acknowledged has been accepted by the peer. */
  ghost predicate AcksSound(e: Endpoint, peer: Endpoint) {
    forall id :: 0 <= id < e.acked ==> SeqNoOf(e, id) < peer.unr
  }

  /** Nr values on their way to the sender are ones the peer has really reached. */
  ghost predicate NrsOk(n: Node, peer: Endpoint) {
    n.nrs.Some? ==>
      && n.inHand.Some? && n.inHand.value.r <= peer.unr && |n.nrs.value| <= 1
      && (n.nrs.value != [] ==> n.nrs.value[0].nr == Wire16(n.inHand.value.r))
  }

  /** The only message the receiver can take is the one it has just been given. */
  ghost predicate RxOk(n: Node, peer: Endpoint) {
    HeadReady(n.e) ==>
      n.rxDue && n.inHand.Some? && n.e.rxQueue == [n.inHand.value.msg] && !Aliased(n.e, n.inHand.value)
      && GoodPacket(peer, n.inHand.value)
  }

  ghost predicate NodeInv(cfg: Config, n: Node, peer: Endpoint) {
    Inv(cfg, n.e) && InOrder(n.e, peer) && AcksSound(n.e, peer) && NrsOk(n, peer) && RxOk(n, peer)
  }

  // ---------------------------------------------------------------------------
  // The peer's progress disturbs nothing

  lemma {:induction false} PeerExtends(cfg: Config, pcfg: Config, n: Node, peer: Endpoint, peer': Endpoint)
    requires NodeInv(cfg, n, peer) && Core(pcfg, peer) && Extends(peer, peer')
    ensures NodeInv(cfg, n, peer')
  {
    hide Inv, Core, MessageAt, HeadReady, GoodPacket;
    forall i | 0 <= i < n.e.unr
      ensures MessageAt(peer', i) == Some(n.e.delivered[i].Body())
    {
      MessageAtStable(pcfg, peer, peer', i);
    }
    if HeadReady(n.e) {
      WireStable(pcfg, peer, peer', n.inHand.value);
    }
  }

  // ---------------------------------------------------------------------------
  // A node's own steps

  lemma {:induction false} SeqNoStable(cfg: Config, e: Endpoint, e': Endpoint, id: nat)
    requires Core(cfg, e) && Extends(e, e') && id < UserSent(e)
    ensures SeqNoOf(e', id) == SeqNoOf(e, id)
  {
  }

  /** A step of the sender that acknowledges nothing. */
  lemma {:induction false} QuietStep(cfg: Config, n: Node, peer: Endpoint, e': Endpoint)
    requires NodeInv(cfg, n, peer) && Inv(cfg, e') && Extends(n.e, e') && SameRx(n.e, e') && e'.acked == n.e.acked
    ensures NodeInv(cfg, n.(e := e'), peer)
  {
    AckedSent(cfg, n.e);
    hide Inv, Core, MessageAt, GoodPacket;
    forall id | 0 <= id < e'.acked
      ensures SeqNoOf(e', id) < peer.unr
    {
      InvCore(cfg, n.e);
      SeqNoStable(cfg, n.e, e', id);
    }
  }

  lemma {:induction false} InvCore(cfg: Config, e: Endpoint)
    requires Inv(cfg, e)
    ensures Core(cfg, e) && (e.alive ==> Queues(cfg, e))
  {
  }

  lemma {:induction false} AckedSent(cfg: Config, e: Endpoint)
    requires Inv(cfg, e)
    ensures 0 <= e.acked <= UserSent(e) <= e.uns && UserSent(e) <= e.acked + cfg.window
  {
  }

  /** An Nr that is not outdated acknowledges only what the peer has accepted: the oldest
      message is judged correctly, and so are those that leave after it. */
  lemma {:induction false} FreshNrAcks(cfg: Config, e: Endpoint, peer: Endpoint, r: nat, ind: NrInd, budget: nat)
    requires Inv(cfg, e) && e.alive && AcksSound(e, peer) && r <= peer.unr && !Outdated(e, r) && ind.nr == Wire16(r)
    ensures AcksSound(OnNrs(cfg, e, [ind], budget), peer)
  {
    hide Inv, Core, SeqCompare, Wire16, OnNrs, Outdated;
    var e' := OnNrs(cfg, e, [ind], budget);
    NrsInv(cfg, e, [ind], budget);
    AckedSent(cfg, e);
    OneNrAcks(cfg, e, ind, budget);
    forall id | 0 <= id < e'.acked
      ensures SeqNoOf(e', id) < peer.unr
    {
      InvCore(cfg, e);
      SeqNoStable(cfg, e, e', id);
      if id >= e.acked {
        AckedBefore(cfg, e, r, e'.acked, id);
      }
    }
  }

  lemma {:induction false} AckedBefore(cfg: Config, e: Endpoint, r: nat, end: nat, id: nat)
    requires Inv(cfg, e) && e.alive && !Outdated(e, r) && e.acked <= id < end <= UserSent(e)
    requires forall i :: e.acked <= i < end ==> SeqCompare(Wire16(r), Wire16(SeqNoOf(e, i))) > 0
    ensures SeqNoOf(e, id) < r
    decreases id
  {
    hide Inv, SeqCompare, Wire16;
    if id == e.acked {
      OldestNumber(cfg, e);
    } else {
      AckedBefore(cfg, e, r, end, id - 1);
      assert SeqNoOf(e, id) <= SeqNoOf(e, id - 1) + 2;
    }
    if r <= SeqNoOf(e, id) {
      CompareRefines(r, SeqNoOf(e, id));
    }
  }

  lemma {:induction false} OldestNumber(cfg: Config, e: Endpoint)
    requires Inv(cfg, e) && e.alive && e.acked < UserSent(e)
    ensures e.ackQueue != [] && e.ackQueue[0].seqNo == SeqNoOf(e, e.acked)
  {
  }

  lemma {:induction false} NrArmStep(cfg: Config, n: Node, peer: Endpoint, budget: nat)
    requires NodeInv(cfg, n, peer) && n.e.alive && n.nrs.Some?
    requires n.nrs.value != [] && n.inHand.Some? ==> !Outdated(n.e, n.inHand.value.r)
    ensures var e' := OnNrs(cfg, n.e, n.nrs.value, budget);
            NodeInv(cfg, n.(e := e', nrs := None), peer) && Extends(n.e, e')
  {
    hide Inv, AcksSound, Extends, MessageAt, GoodPacket, Wire16, OnNrs, Outdated, Aliased, HeadReady;
    var e' := OnNrs(cfg, n.e, n.nrs.value, budget);
    NrsInv(cfg, n.e, n.nrs.value, budget);
    if n.nrs.value == [] {
      NoNrsAcks(cfg, n.e, peer, budget);
    } else {
      assert n.nrs.value == [n.nrs.value[0]];
      FreshNrAcks(cfg, n.e, peer, n.inHand.value.r, n.nrs.value[0], budget);
    }
    SameRxReady(n.e, e');
  }

  lemma {:induction false} SameRxReady(e: Endpoint, e': Endpoint)
    requires SameRx(e, e')
    ensures HeadReady(e') == HeadReady(e)
    ensures forall p :: Aliased(e', p) == Aliased(e, p)
  {
  }

  lemma {:induction false} NoNrsAcks(cfg: Config, e: Endpoint, peer: Endpoint, budget: nat)
    requires AcksSound(e, peer)
    ensures AcksSound(OnNrs(cfg, e, [], budget), peer)
  {
    var e' := OnNrs(cfg, e, [], budget);
    forall id | 0 <= id < e'.acked
      ensures SeqNoOf(e', id) < peer.unr
    {
      assert SeqNoOf(e, id) < peer.unr;
    }
  }

  lemma {:induction false} SeqNoBelow(cfg: Config, e: Endpoint, id: nat)
    requires Core(cfg, e) && id < UserSent(e)
    ensures id <= SeqNoOf(e, id) < e.uns
  {
  }

  /** Printed, carried and parsed, a packet arrives as the message it was, or is dropped; it is
      dropped if it does not fit the receive buffer. */
  lemma {:induction false} FrameArrives(e: Endpoint, peer: Endpoint, p: Packet)
    requires GoodPacket(peer, p)
    ensures var got := RecvFrame(e, Received(p.msg.ToBytes()));
            got == Some([]) || (got == Some([p.msg]) && |p.msg.ToBytes()| <= RECV_BUFFER)
  {
    hide ParseMessages, ControlMessage.ToBytes, ControlMessage.WellFormed, ControlMessage.GetType, MessageAt, Wire16;
    if |p.msg.ToBytes()| <= RECV_BUFFER {
      RoundTrip(p.msg);
    } else {
      TruncatedIsRefused(p.msg, RECV_BUFFER);
    }
  }

  lemma {:induction false} IndsOf(m: ControlMessage)
    requires m.GetType().Ok?
    ensures AllTyped([m]) && NrInds([m]) == [NrInd(m.GetType().value, m.nr)] && NrInds([]) == []
  {
  }

  /** A frame received is queued, as much of it as there is. */
  lemma {:induction false} RecvQueued(cfg: Config, n: Node, peer: Endpoint, p: Packet, n': Node)
    requires NodeStep(cfg, n, peer, Recv(p), n')
    ensures var got := RecvFrame(n.e, Received(p.msg.ToBytes()));
            got.Some? && n' == Node(n.e.(rxQueue := n.e.rxQueue + got.value), Some(NrInds(got.value)), true, Some(p))
  {
    hide Receive, RecvFrame, Received, ControlMessage.ToBytes, NrInds, Aliased;
    ReceiveGoesOn(n.e, Received(p.msg.ToBytes()));
  }

  lemma {:induction false} RecvStep(cfg: Config, pcfg: Config, n: Node, peer: Endpoint, p: Packet, n': Node)
    requires NodeInv(cfg, n, peer) && Inv(pcfg, peer) && NodeStep(cfg, n, peer, Recv(p), n')
    ensures NodeInv(cfg, n', peer) && Extends(n.e, n'.e)
  {
    hide Inv, InOrder, MessageAt, GoodPacket, RecvFrame, HeadReady, ControlMessage.ToBytes, Extends, NrInds, Received, Receive;
    RecvQueued(cfg, n, peer, p, n');
    WireIsGood(pcfg, peer, p);
    FrameArrives(n.e, peer, p);
    GoodNumbers(peer, p);
    IndsOf(p.msg);
    var got := RecvFrame(n.e, Received(p.msg.ToBytes())).value;
    var e' := n.e.(rxQueue := n.e.rxQueue + got);
    RxQueueInv(cfg, n.e, e');
    HeadReadyLocal(n.e, e');
    assert n.e.rxQueue == [] ==> e'.rxQueue == got;
    RecvKeeps(n.e, e', peer);
  }

  lemma {:induction false} RecvKeeps(e: Endpoint, e': Endpoint, peer: Endpoint)
    requires InOrder(e, peer) && AcksSound(e, peer) && e' == e.(rxQueue := e'.rxQueue)
    ensures InOrder(e', peer) && AcksSound(e', peer)
  {
    forall id | 0 <= id < e'.acked
      ensures SeqNoOf(e', id) < peer.unr
    {
      assert SeqNoOf(e, id) < peer.unr;
    }
  }

  lemma {:induction false} GoodNumbers(peer: Endpoint, p: Packet)
    requires GoodPacket(peer, p)
    ensures p.r <= peer.unr && p.k <= peer.uns && p.msg.GetType().Ok? && p.msg.nr == Wire16(p.r)
  {
  }

  /** Readiness depends on the head of the queue and on nr alone. */
  lemma {:induction false} HeadReadyLocal(e: Endpoint, e': Endpoint)
    requires e'.nr == e.nr && (e.rxQueue != [] ==> e'.rxQueue != [] && e'.rxQueue[0] == e.rxQueue[0])
    ensures e.rxQueue != [] ==> (HeadReady(e') <==> HeadReady(e))
    ensures e'.rxQueue == [] ==> !HeadReady(e')
  {
  }

  lemma {:induction false} WireIsGood(cfg: Config, e: Endpoint, p: Packet)
    requires Inv(cfg, e) && p in e.wire
    ensures GoodPacket(e, p)
  {
  }

  /** The receive queue is not part of the invariant. */
  lemma {:induction false} RxQueueInv(cfg: Config, e: Endpoint, e': Endpoint)
    requires Inv(cfg, e) && e.alive && e' == e.(rxQueue := e'.rxQueue)
    ensures Inv(cfg, e') && Extends(e, e')
  {
    InvCore(cfg, e);
    AckSentQueues(cfg, e, e');
    hide GoodPacket, Sendable, Queues;
    CoreStep(cfg, e, e');
  }

  /** The receiver accepts a packet only as the next one in the peer's numbering. */
  lemma {:induction false} RxArmStep(cfg: Config, pcfg: Config, n: Node, peer: Endpoint)
    requires NodeInv(cfg, n, peer) && Inv(pcfg, peer) && AcksSound(peer, n.e) && n.e.alive && n.rxDue
    ensures var e' := ProcessRxQueue(n.e);
            NodeInv(cfg, n.(e := e', rxDue := false), peer) && Extends(n.e, e')
  {
    var e := n.e;
    if HeadReady(e) {
      var e' := PopRx(e);
      assert ProcessRxQueue(e) == e';
      PopRxInv(cfg, e);
      AcceptedIsNext(cfg, pcfg, n, peer);
      hide Inv, MessageAt, GoodPacket, PopRx, ControlMessage.Body;
      PopRxFields(e);
      QuietRx(cfg, n, peer, e');
    } else {
      ExtendsRefl(e);
      hide Inv, MessageAt, GoodPacket, HeadReady;
    }
  }

  lemma {:induction false} PopRxFields(e: Endpoint)
    requires e.rxQueue != []
    ensures var e' := PopRx(e);
            && e'.uns == e.uns && e'.acked == e.acked && e'.hello == e.hello && e'.rxQueue == e.rxQueue[1..]
  {
  }

  lemma {:induction false} QuietRx(cfg: Config, n: Node, peer: Endpoint, e': Endpoint)
    requires NodeInv(cfg, n, peer) && Inv(cfg, e') && InOrder(e', peer) && e'.rxQueue == []
    requires e'.uns == n.e.uns && e'.acked == n.e.acked && e'.hello == n.e.hello
    ensures NodeInv(cfg, n.(e := e', rxDue := false), peer)
  {
    hide Inv, InOrder, GoodPacket;
    forall id | 0 <= id < e'.acked
      ensures SeqNoOf(e', id) < peer.unr
    {
      assert SeqNoOf(n.e, id) < peer.unr;
    }
  }

  lemma {:induction false} AcceptedIsNext(cfg: Config, pcfg: Config, n: Node, peer: Endpoint)
    requires NodeInv(cfg, n, peer) && Inv(pcfg, peer) && AcksSound(peer, n.e) && HeadReady(n.e)
    ensures InOrder(PopRx(n.e), peer)
  {
    var e, p := n.e, n.inHand.value;
    var m := p.msg;
    assert e.rxQueue[0] == m;
    if !m.IsAck() && InSequence(e, m) {
      WithinOneCycle(cfg, pcfg, e, peer, p.k);
      InvCore(cfg, e);
      EqualWire(e.unr, p.k);
      var e' := PopRx(e);
      hide Inv, Core, MessageAt, Wire16, ControlMessage.GetType, ControlMessage.WellFormed, SeqCompare, ControlMessage.Body;
      assert p.k == e.unr;
      forall i | 0 <= i < e'.unr
        ensures MessageAt(peer, i) == Some(e'.delivered[i].Body())
      {
      }
    }
  }

  /** The peer is never a whole cycle of sequence numbers ahead of what it has been told is
      received, whatever its window. */
  lemma {:induction false} WithinOneCycle(cfg: Config, pcfg: Config, e: Endpoint, peer: Endpoint, k: nat)
    requires Inv(cfg, e) && Inv(pcfg, peer) && AcksSound(peer, e) && k < peer.uns
    ensures k < e.unr + MODULUS && e.nr == Wire16(e.unr)
  {
    AckedSent(pcfg, peer);
    if peer.acked > 0 {
      InvCore(pcfg, peer);
      SeqNoBelow(pcfg, peer, peer.acked - 1);
    }
  }

  // ---------------------------------------------------------------------------
  // Both exclusions are needed

  /** A message already accepted that arrives whole cycles later is accepted again. */
  lemma {:induction false} AliasedFrameIsAccepted(e: Endpoint, p: Packet)
    requires p.msg.ns == Wire16(p.k) && !p.msg.IsAck() && e.nr == Wire16(e.unr) && e.rxQueue == []
    requires Aliased(e, p)
    ensures ProcessRxQueue(e.(rxQueue := [p.msg])).delivered == e.delivered + [p.msg]
  {
    hide ControlMessage.IsAck;
    var e1 := e.(rxQueue := [p.msg]);
    assert InSequence(e1, p.msg);
    assert PopRx(e1).rxQueue == [];
    assert ProcessRxQueue(PopRx(e1)) == PopRx(e1);
  }

  /** An Nr outdated by less than a cycle completes the oldest outstanding message, though the
      peer had not received it when it sent that Nr. */
  lemma {:induction false} OutdatedNrCompletes(cfg: Config, e: Endpoint, r: nat)
    requires Outdated(e, r) && e.ackQueue[0].seqNo < r + MODULUS && e.ackQueue[0].msg.ns == Wire16(e.ackQueue[0].seqNo)
    ensures HeadAcked(e, Wire16(r)) && |ProcessAckQueue(cfg, e, Wire16(r)).ackQueue| < |e.ackQueue|
  {
    hide SeqCompare, Wire16, Window.OnAck;
    CompareIsCentred(r, e.ackQueue[0].seqNo);
    PopsOnly(cfg, PopAcked(cfg, e), Wire16(r));
  }

  lemma {:induction false} PopsOnly(cfg: Config, e: Endpoint, nr: u16)
    ensures |ProcessAckQueue(cfg, e, nr).ackQueue| <= |e.ackQueue|
    decreases |e.ackQueue|
  {
    hide SeqCompare, Window.OnAck;
    if HeadAcked(e, nr) {
      PopsOnly(cfg, PopAcked(cfg, e), nr);
    }
  }
}
