/** Building blocks of runs: a message is sent, taken, acknowledged and completed. */
module Exchanges {
  import opened Wire
  import opened Messages
  import opened Validation
  import opened SequenceNumbers
  import opened SlowStart
  import opened RetryTimeouts
  import opened Endpoints
  import opened ReceiveErrors
  import opened EndpointInvariants
  import opened SenderSteps
  import opened SenderArms
  import opened Network
  import opened Delivery

  // ---------------------------------------------------------------------------
  // Paths

  /** Steps from any state. */
  ghost predicate IsPath(cfg: Configs, path: Delivery.Run) {
    && |path.states| == |path.moves| + 1
    && forall i :: 0 <= i < |path.moves| ==> Delivery.Step(cfg, path.states[i], path.moves[i].0, path.moves[i].1, path.states[i + 1])
  }

  ghost function Last(cfg: Configs, path: Delivery.Run): Net
    requires IsPath(cfg, path)
  {
    path.states[|path.moves|]
  }

  function Moved(net: Net, s: Side, n: Node): Net {
    if s == A then net.(a := n) else net.(b := n)
  }

  /** Nothing in it is the user's doing. */
  predicate Unattended(path: Delivery.Run) {
    forall i :: 0 <= i < |path.moves| ==> !path.moves[i].1.Submit? && !path.moves[i].1.Close?
  }

  /** The path goes on from another. */
  ghost predicate Continues(cfg: Configs, path: Delivery.Run, path': Delivery.Run) {
    && IsPath(cfg, path') && |path.states| > 0 && path'.states[0] == path.states[0]
    && (Unattended(path) ==> Unattended(path'))
  }

  lemma {:induction false} Extend(cfg: Configs, path: Delivery.Run, s: Side, ev: Event, n': Node) returns (path': Delivery.Run)
    requires IsPath(cfg, path)
    requires NodeStep(cfg.At(s), Last(cfg, path).At(s), Last(cfg, path).At(Other(s)).e, ev, n')
    ensures IsPath(cfg, path') && Last(cfg, path') == Moved(Last(cfg, path), s, n')
    ensures path' == Delivery.Run(path.states + [Last(cfg, path')], path.moves + [(s, ev)]) && path'.states[0] == path.states[0]
    ensures !ev.Submit? && !ev.Close? ==> Continues(cfg, path, path')
  {
    hide NodeStep;
    var net' := Moved(Last(cfg, path), s, n');
    path' := Delivery.Run(path.states + [net'], path.moves + [(s, ev)]);
    assert Delivery.Step(cfg, Last(cfg, path), s, ev, net');
    forall i | 0 <= i < |path'.moves|
      ensures Delivery.Step(cfg, path'.states[i], path'.moves[i].0, path'.moves[i].1, path'.states[i + 1])
    {
      if i < |path.moves| {
        assert Delivery.Step(cfg, path.states[i], path.moves[i].0, path.moves[i].1, path.states[i + 1]);
      }
    }
  }

  lemma {:induction false} PathInv(cfg: Configs, path: Delivery.Run, k: nat)
    requires IsPath(cfg, path) && NetInv(cfg, path.states[0]) && k <= |path.moves|
    ensures NetInv(cfg, path.states[k])
  {
    hide NetInv, Delivery.Step;
    if k > 0 {
      PathInv(cfg, path, k - 1);
      Delivery.StepInv(cfg, path.states[k - 1], path.moves[k - 1].0, path.moves[k - 1].1, path.states[k]);
    }
  }

  lemma {:induction false} PathAlone(cfg: Configs, net: Net)
    ensures IsPath(cfg, Delivery.Run([net], [])) && Last(cfg, Delivery.Run([net], [])) == net
  {
  }

  lemma {:induction false} LastInv(cfg: Configs, path: Delivery.Run)
    requires IsPath(cfg, path) && NetInv(cfg, path.states[0])
    ensures NetInv(cfg, Last(cfg, path))
  {
    PathInv(cfg, path, |path.moves|);
  }

  lemma {:induction false} ContinuesInv(cfg: Configs, path: Delivery.Run, path': Delivery.Run)
    requires IsPath(cfg, path) && NetInv(cfg, path.states[0]) && Continues(cfg, path, path')
    ensures IsPath(cfg, path') && path'.states[0] == path.states[0] && NetInv(cfg, Last(cfg, path'))
  {
    LastInv(cfg, path');
  }

  lemma {:induction false} SideInv(cfg: Configs, net: Net, s: Side)
    requires NetInv(cfg, net)
    ensures Inv(cfg.At(s), net.At(s).e) && net.At(s).e.ns == Wire16(net.At(s).e.uns) && net.At(s).e.nr == Wire16(net.At(s).e.unr)
  {
    hide NodeInv, Inv, InOrder, AcksSound, GoodPacket, Wire16;
    NodeInvParts(cfg.a, net.a, net.b.e);
    NodeInvParts(cfg.b, net.b, net.a.e);
  }

  // ---------------------------------------------------------------------------
  // Single steps

  /** The frame that sends message m from endpoint e. */
  function FrameOf(cfg: Config, e: Endpoint, m: ControlMessage): Packet {
    Packet(m.SetTransportSeqNum(e.ns, e.nr), e.uns, e.unr, ScaleRetryTimeout(cfg.retryTimeout, 0))
  }

  /** With nothing waiting and an open window a submitted message is sent at once. */
  lemma {:induction false} SubmitSends(cfg: Config, n: Node, peer: Endpoint, m: ControlMessage) returns (n': Node)
    requires n.e.alive && n.e.txQueue == [] && n.e.win.CanSend() && Validates(m) && m.WellFormed()
    ensures NodeStep(cfg, n, peer, Submit(m, 1), n') && n' == n.(e := n'.e)
    ensures var e, e' := n.e, n'.e;
            && e'.alive && e'.txQueue == [] && e'.submitted == e.submitted + [m] && e'.wire == e.wire + [FrameOf(cfg, e, m)]
            && e'.ns == SeqIncrement(e.ns) && e'.uns == e.uns + 1 && e'.win == e.win.OnSend() && e'.completed == e.completed
            && e'.ackQueue == e.ackQueue + [Xmit(m.SetTransportSeqNum(e.ns, e.nr), 0, false, |e.submitted|, e.uns)]
            && e'.hello == e.hello && SameRx(e, e')
  {
    ValidatedIsSendable(m);
    SetSeqKeeps(m, n.e.ns, n.e.nr);
    hide Validates, ControlMessage.WellFormed, ControlMessage.GetType, ScaleRetryTimeout;
    var e, q := n.e, Enqueued(n.e, m);
    assert q.txQueue == [Xmit(m, 0, false, |e.submitted|, 0)];
    var s := SendHead(cfg, q);
    assert s.txQueue == [];
    assert ProcessTxQueue(cfg, q, 1) == ProcessTxQueue(cfg, s, 0);
    n' := n.(e := OnSubmit(cfg, e, m, 1));
    assert n'.e == s;
  }

  /** A frame that fits and acknowledges nothing that was not sent is queued. */
  lemma {:induction false} RecvQueues(cfg: Config, n: Node, peer: Endpoint, p: Packet) returns (n': Node)
    requires n.e.alive && n.nrs.None? && !n.rxDue && n.e.rxQueue == [] && p in peer.wire && GoodPacket(peer, p)
    requires n.e.ns == Wire16(n.e.uns) && p.r <= n.e.uns < p.r + HALF && n.e.unr <= p.k && |p.msg.ToBytes()| <= RECV_BUFFER
    ensures NodeStep(cfg, n, peer, Recv(p), n')
    ensures n' == Node(n.e.(rxQueue := [p.msg]), Some([NrInd(p.msg.GetType().value, p.msg.nr)]), true, Some(p))
  {
    hide Receive, RecvFrame, Received, ControlMessage.ToBytes, Wire16, ControlMessage.GetType, NrInds, ControlMessage.WellFormed, MessageAt;
    FrameGetsThrough(n.e, peer, p);
    ReceiveGoesOn(n.e, Received(p.msg.ToBytes()));
    IndsOf(p.msg);
    assert n.e.rxQueue + [p.msg] == [p.msg];
    n' := Node(n.e.(rxQueue := [p.msg]), Some(NrInds([p.msg])), true, Some(p));
  }

  /** A sender with nothing outstanding notes at most that an acknowledgement is due. */
  lemma {:induction false} NrArmsTimer(cfg: Config, n: Node, peer: Endpoint, ind: NrInd) returns (n': Node)
    requires n.e.alive && n.e.ackQueue == [] && n.nrs == Some([ind])
    ensures NodeStep(cfg, n, peer, NrArm(0), n')
    ensures n' == n.(nrs := None, e := n.e.(ackTimer := n'.e.ackTimer, helloTimer := n'.e.helloTimer))
    ensures ind.msgType != MSG_ACK ==> n'.e.ackTimer.armed
  {
    assert [ind][1..] == [];
    assert OnEachNr(cfg, n.e, [ind], 0) == OnEachNr(cfg, n.e, [], 0);
    assert [ind][0] == ind;
    n' := n.(e := OnNrs(cfg, n.e, [ind], 0), nrs := None);
  }

  /** The next message is accepted. */
  lemma {:induction false} RxArmAccepts(cfg: Config, n: Node, peer: Endpoint, m: ControlMessage) returns (n': Node)
    requires n.e.alive && n.rxDue && n.e.rxQueue == [m] && m.ns == n.e.nr && !m.IsAck()
    ensures NodeStep(cfg, n, peer, RxArm, n')
    ensures n' == n.(rxDue := false, e := n.e.(rxQueue := [], nr := SeqIncrement(n.e.nr), unr := n.e.unr + 1,
                                               delivered := n.e.delivered + [m]))
  {
    hide ControlMessage.IsAck, SeqIncrement;
    assert InSequence(n.e, m);
    assert PopRx(n.e).rxQueue == [];
    assert ProcessRxQueue(PopRx(n.e)) == PopRx(n.e);
    n' := n.(e := ProcessRxQueue(n.e), rxDue := false);
  }

  /** An acknowledgement is thrown away. */
  lemma {:induction false} RxArmDropsAck(cfg: Config, n: Node, peer: Endpoint, m: ControlMessage) returns (n': Node)
    requires n.e.alive && n.rxDue && n.e.rxQueue == [m] && m.ns == n.e.nr && m.IsAck()
    ensures NodeStep(cfg, n, peer, RxArm, n')
    ensures n' == n.(rxDue := false, e := n.e.(rxQueue := []))
  {
    hide ControlMessage.IsAck, SeqIncrement;
    assert InSequence(n.e, m);
    assert PopRx(n.e).rxQueue == [];
    assert ProcessRxQueue(PopRx(n.e)) == PopRx(n.e);
    n' := n.(e := ProcessRxQueue(n.e), rxDue := false);
  }

  /** The acknowledgement timer, once set, expires and is noticed. */
  lemma {:induction false} ExpiresAndAcks(cfg: Config, n: Node, peer: Endpoint, peerId: u32) returns (n1: Node, n2: Node, p: Packet)
    requires n.e.alive && n.e.ackTimer.armed && NewAck(cfg, peerId).Ok?
    ensures NodeStep(cfg, n, peer, AckExpiry, n1) && NodeStep(cfg, n1, peer, AckTimer(peerId, true), n2)
    ensures p.k == n.e.uns && p.r == n.e.unr && p.msg.ns == n.e.ns && p.msg.nr == n.e.nr
            && p.msg.IsAck() && |p.msg.ToBytes()| <= RECV_BUFFER
    ensures n2 == n.(e := n.e.(ackTimer := n2.e.ackTimer, wire := n.e.wire + [p]))
  {
    hide OnAckTimer, NewAck, ControlMessage.IsAck, ControlMessage.ToBytes;
    n1 := n.(e := n.e.(ackTimer := n.e.ackTimer.Expire()));
    n2 := n1.(e := OnAckTimer(cfg, n1.e, peerId, true));
    p := AckWritten(cfg, n1.e, peerId);
  }

  lemma {:induction false} AckWritten(cfg: Config, e: Endpoint, peerId: u32) returns (p: Packet)
    requires NewAck(cfg, peerId).Ok?
    ensures OnAckTimer(cfg, e, peerId, true) == e.(ackTimer := e.ackTimer.Notice(), wire := e.wire + [p])
    ensures p.k == e.uns && p.r == e.unr && p.msg.ns == e.ns && p.msg.nr == e.nr
            && p.msg.IsAck() && |p.msg.ToBytes()| <= RECV_BUFFER
  {
    OwnMessages(cfg, peerId);
    AckIsShort(cfg, peerId);
    var m := NewAck(cfg, peerId).value;
    SetSeqKeeps(m, e.ns, e.nr);
    hide NewAck, ControlMessage.GetType, ControlMessage.ToBytes;
    p := Packet(m.SetTransportSeqNum(e.ns, e.nr), e.uns, e.unr, 0);
    SameLength(m, p.msg);
  }

  lemma {:induction false} AckIsShort(cfg: Config, peerId: u32)
    requires NewAck(cfg, peerId).Ok?
    ensures |NewAck(cfg, peerId).value.ToBytes()| <= RECV_BUFFER
  {
    OwnMessages(cfg, peerId);
    var m := NewAck(cfg, peerId).value;
    assert |m.ToBytes()| == m.len;
  }

  lemma {:induction false} SameLength(m: ControlMessage, m': ControlMessage)
    requires m'.Body() == m.Body()
    ensures |m'.ToBytes()| == |m.ToBytes()|
  {
  }

  /** An acknowledgement of the only message outstanding completes it. */
  lemma {:induction false} AckCompletes(cfg: Config, n: Node, peer: Endpoint, ind: NrInd) returns (n': Node)
    requires n.e.alive && n.e.txQueue == [] && |n.e.ackQueue| == 1 && !n.e.ackQueue[0].isComplete
    requires n.nrs == Some([ind]) && ind.msgType == MSG_ACK && HeadAcked(n.e, ind.nr)
    requires n.inHand.Some? ==> !Outdated(n.e, n.inHand.value.r)
    ensures NodeStep(cfg, n, peer, NrArm(0), n')
    ensures n' == n.(nrs := None,
                     e := n.e.(ackQueue := [], win := n.e.win.OnAck(cfg.window), acked := n.e.acked + 1,
                               completed := n.e.completed + [Done(n.e.ackQueue[0].id, true)], helloTimer := n'.e.helloTimer))
  {
    hide HeadAcked, Outdated, Window.OnAck;
    var e1 := PopAcked(cfg, n.e);
    assert e1.ackQueue == [] && [ind][1..] == [];
    NoneAcked(e1, ind.nr);
    assert ProcessAckQueue(cfg, n.e, ind.nr) == ProcessAckQueue(cfg, e1, ind.nr) == e1;
    assert ProcessTxQueue(cfg, e1, 0) == TxOutcome(e1, 0, true);
    assert OnEachNr(cfg, n.e, [ind], 0) == OnEachNr(cfg, e1, [], 0);
    n' := n.(e := OnNrs(cfg, n.e, [ind], 0), nrs := None);
  }

  lemma {:induction false} NoneAcked(e: Endpoint, nr: u16)
    requires e.ackQueue == []
    ensures !HeadAcked(e, nr)
  {
  }

  // ---------------------------------------------------------------------------
  // Taking and acknowledging

  /** An end of the connection between turns with nothing waiting. */
  predicate Ready(n: Node) {
    n.nrs.None? && n.e.alive && n.e.txQueue == [] && n.e.rxQueue == [] && !n.rxDue
  }

  lemma {:induction false} TypeOf(e: Endpoint, p: Packet)
    requires GoodPacket(e, p)
    ensures p.msg.GetType().Ok? && (p.msg.IsAck() <==> p.msg.GetType().value == MSG_ACK)
    ensures p.msg.ns == Wire16(p.k) && p.msg.nr == Wire16(p.r)
  {
  }

  /** The state of the receiver after it has taken the message of p and written ack. */
  predicate TookAndAcked(f: Node, f': Node, p: Packet, ack: Packet) {
    && Ready(f')
    && f'.e == f.e.(nr := SeqIncrement(f.e.nr), unr := f.e.unr + 1, delivered := f.e.delivered + [p.msg],
                    ackTimer := f'.e.ackTimer, helloTimer := f'.e.helloTimer, wire := f.e.wire + [ack])
    && ack.k == f.e.uns && ack.r == f.e.unr + 1 && ack.msg.IsAck() && |ack.msg.ToBytes()| <= RECV_BUFFER
  }

  /** A side takes a message that is next, and its acknowledgement timer is set. */
  lemma {:induction false} NextTaken(cfg: Configs, path: Delivery.Run, s: Side, p: Packet) returns (path': Delivery.Run)
    requires IsPath(cfg, path) && NetInv(cfg, Last(cfg, path))
    requires var f, peer := Last(cfg, path).At(s), Last(cfg, path).At(Other(s)).e;
             && Ready(f) && f.e.ackQueue == [] && p in peer.wire && p.k == f.e.unr && p.r <= f.e.uns < p.r + HALF
             && !p.msg.IsAck() && |p.msg.ToBytes()| <= RECV_BUFFER
    ensures Continues(cfg, path, path') && Last(cfg, path').At(Other(s)) == Last(cfg, path).At(Other(s))
    ensures var f, f' := Last(cfg, path).At(s), Last(cfg, path').At(s);
            && Ready(f') && f'.e.ackTimer.armed
            && f'.e == f.e.(nr := SeqIncrement(f.e.nr), unr := f.e.unr + 1, delivered := f.e.delivered + [p.msg],
                            ackTimer := f'.e.ackTimer, helloTimer := f'.e.helloTimer)
  {
    hide NodeStep, GoodPacket, ControlMessage.GetType, ControlMessage.ToBytes, Inv, NetInv, Wire16, SeqIncrement,
      ControlMessage.IsAck, IsPath, Unattended;
    var net, c := Last(cfg, path), cfg.At(s);
    var f, peer := net.At(s), net.At(Other(s)).e;
    SideInv(cfg, net, s);
    SideInv(cfg, net, Other(s));
    WireIsGood(cfg.At(Other(s)), peer, p);
    TypeOf(peer, p);
    var f1 := RecvQueues(c, f, peer, p);
    var f2 := NrArmsTimer(c, f1, peer, f1.nrs.value[0]);
    var f3 := RxArmAccepts(c, f2, peer, p.msg);
    var path1 := Extend(cfg, path, s, Recv(p), f1);
    var path2 := Extend(cfg, path1, s, NrArm(0), f2);
    path' := Extend(cfg, path2, s, RxArm, f3);
  }

  /** The timer having expired, it acknowledges the message. */
  lemma {:induction false} TakenAndAcked(cfg: Configs, path: Delivery.Run, s: Side, p: Packet, peerId: u32)
    returns (path': Delivery.Run, ack: Packet)
    requires IsPath(cfg, path) && NetInv(cfg, Last(cfg, path)) && NewAck(cfg.At(s), peerId).Ok?
    requires var f, peer := Last(cfg, path).At(s), Last(cfg, path).At(Other(s)).e;
             && Ready(f) && f.e.ackQueue == [] && p in peer.wire && p.k == f.e.unr && p.r <= f.e.uns < p.r + HALF
             && !p.msg.IsAck() && |p.msg.ToBytes()| <= RECV_BUFFER
    ensures Continues(cfg, path, path') && Last(cfg, path').At(Other(s)) == Last(cfg, path).At(Other(s))
    ensures TookAndAcked(Last(cfg, path).At(s), Last(cfg, path').At(s), p, ack)
  {
    hide NodeStep, ControlMessage.GetType, ControlMessage.ToBytes, NewAck, NetInv, SeqIncrement, ControlMessage.IsAck, IsPath,
      Unattended;
    var path1 := NextTaken(cfg, path, s, p);
    var f, peer := Last(cfg, path1).At(s), Last(cfg, path1).At(Other(s)).e;
    var f1, f2, q := ExpiresAndAcks(cfg.At(s), f, peer, peerId);
    var path2 := Extend(cfg, path1, s, AckExpiry, f1);
    path' := Extend(cfg, path2, s, AckTimer(peerId, true), f2);
    ack := q;
  }

  /** The sender's half: the acknowledgement completes its only message outstanding. */
  lemma {:induction false} AckTaken(cfg: Configs, path: Delivery.Run, s: Side, ack: Packet) returns (path': Delivery.Run)
    requires IsPath(cfg, path) && NetInv(cfg, Last(cfg, path))
    requires var n, peer := Last(cfg, path).At(s), Last(cfg, path).At(Other(s)).e;
             && Ready(n) && |n.e.ackQueue| == 1 && !n.e.ackQueue[0].isComplete && n.e.ackQueue[0].seqNo + 1 == ack.r == n.e.uns
             && n.e.ackQueue[0].msg.ns == Wire16(n.e.ackQueue[0].seqNo)
             && ack in peer.wire && ack.k == n.e.unr && ack.msg.IsAck() && |ack.msg.ToBytes()| <= RECV_BUFFER
    ensures Continues(cfg, path, path') && Last(cfg, path').At(Other(s)) == Last(cfg, path).At(Other(s))
    ensures var n, n' := Last(cfg, path).At(s), Last(cfg, path').At(s);
            && Ready(n')
            && n'.e == n.e.(ackQueue := [], win := n.e.win.OnAck(cfg.At(s).window), acked := n.e.acked + 1,
                            completed := n.e.completed + [Done(n.e.ackQueue[0].id, true)], helloTimer := n'.e.helloTimer)
  {
    hide NodeStep, GoodPacket, ControlMessage.GetType, ControlMessage.ToBytes, NewAck, Inv, NetInv, Wire16, SeqCompare,
      ControlMessage.IsAck, Window.OnAck;
    var net, c := Last(cfg, path), cfg.At(s);
    var n, peer := net.At(s), net.At(Other(s)).e;
    SideInv(cfg, net, s);
    SideInv(cfg, net, Other(s));
    WireIsGood(cfg.At(Other(s)), peer, ack);
    TypeOf(peer, ack);
    CompareRefines(ack.r, ack.r - 1);
    var n1 := RecvQueues(c, n, peer, ack);
    var n2 := AckCompletes(c, n1, peer, n1.nrs.value[0]);
    var n3 := RxArmDropsAck(c, n2, peer, ack.msg);
    var path1 := Extend(cfg, path, s, Recv(ack), n1);
    var path2 := Extend(cfg, path1, s, NrArm(0), n2);
    path' := Extend(cfg, path2, s, RxArm, n3);
  }
}
