/** A run the program can make in which a keepalive that was answered ends the connection. */
module HelloExample {
  import opened Wire
  import opened Messages
  import opened SequenceNumbers
  import opened RetryTimeouts
  import opened Endpoints
  import opened EndpointInvariants
  import opened SenderSteps
  import opened SenderArms
  import opened Network
  import opened Delivery
  import opened Exchanges

  /** A's keepalive is waiting to be acknowledged. */
  predicate HelloOut(n: Node, p: Packet) {
    && Ready(n) && n.e.ackQueue == [] && n.e.hello.Some? && n.e.hello.value.nretries == 0
    && n.e.uns == 1 && n.e.unr == 0 && n.e.submitted == [] && n.e.wire == [p]
    && p.k == 0 && p.r == 0 && !p.msg.IsAck() && |p.msg.ToBytes()| <= RECV_BUFFER
  }

  lemma {:induction false} HelloIsShort(cfg: Config, peerId: u32)
    requires NewHello(cfg, peerId).Ok?
    ensures |NewHello(cfg, peerId).value.ToBytes()| <= RECV_BUFFER && !NewHello(cfg, peerId).value.IsAck()
  {
    OwnMessages(cfg, peerId);
    var m := NewHello(cfg, peerId).value;
    assert |m.ToBytes()| == m.len;
  }

  /** The timer of a new connection expires and is noticed. */
  lemma {:induction false} HelloSends(cfg: Config, peer: Endpoint, peerId: u32) returns (n1: Node, n2: Node, p: Packet)
    requires cfg.helloTimeout > 0 && NewHello(cfg, peerId).Ok?
    ensures NodeStep(cfg, Node(Fresh(cfg), None, false, None), peer, HelloExpiry, n1)
    ensures NodeStep(cfg, n1, peer, HelloTimer(peerId, true), n2) && HelloOut(n2, p)
    ensures p.msg.Body() == NewHello(cfg, peerId).value.Body()
  {
    hide OnHelloTimer, NewHello, ControlMessage.ToBytes, ControlMessage.IsAck, ControlMessage.Body;
    var n := Node(Fresh(cfg), None, false, None);
    n1 := n.(e := n.e.(helloTimer := n.e.helloTimer.Expire()));
    n2 := n1.(e := OnHelloTimer(cfg, n1.e, peerId, true));
    p := HelloWritten(cfg, n1.e, peerId);
    assert [] + [p] == [p];
  }

  lemma {:induction false} HelloWritten(cfg: Config, e: Endpoint, peerId: u32) returns (p: Packet)
    requires e.hello.None? && NewHello(cfg, peerId).Ok?
    ensures var e' := OnHelloTimer(cfg, e, peerId, true);
            && e' == e.(wire := e.wire + [p], uns := e.uns + 1, ns := e'.ns, hello := e'.hello, ackTimer := e'.ackTimer, helloTimer := e'.helloTimer)
            && e'.hello.Some? && e'.hello.value.nretries == 0
    ensures p.k == e.uns && p.r == e.unr && !p.msg.IsAck() && |p.msg.ToBytes()| <= RECV_BUFFER
    ensures p.msg.Body() == NewHello(cfg, peerId).value.Body()
  {
    HelloIsShort(cfg, peerId);
    var m := NewHello(cfg, peerId).value;
    SetSeqKeeps(m, e.ns, e.nr);
    hide NewHello, ControlMessage.ToBytes, ScaleRetryTimeout, ControlMessage.GetType, ControlMessage.Body;
    p := Packet(m.SetTransportSeqNum(e.ns, e.nr), e.uns, e.unr, ScaleRetryTimeout(cfg.retryTimeout, 0));
    SameLength(m, p.msg);
  }

  /** An acknowledgement finds nothing outstanding. */
  lemma {:induction false} AckIgnored(cfg: Configs, path: Delivery.Run, ack: Packet) returns (path': Delivery.Run)
    requires IsPath(cfg, path) && NetInv(cfg, Last(cfg, path))
    requires var n, peer := Last(cfg, path).a, Last(cfg, path).b.e;
             && Ready(n) && n.e.ackQueue == [] && ack in peer.wire && ack.k == n.e.unr && ack.r == n.e.uns
             && ack.msg.IsAck() && |ack.msg.ToBytes()| <= RECV_BUFFER
    ensures IsPath(cfg, path') && path'.states[0] == path.states[0]
    ensures path'.moves == path.moves + [(A, Recv(ack)), (A, NrArm(0)), (A, RxArm)] && path.states <= path'.states
    ensures var n, n' := Last(cfg, path).a, Last(cfg, path').a;
            Ready(n') && n'.e.hello == n.e.hello && n'.e.uns == n.e.uns && Last(cfg, path').b == Last(cfg, path).b
  {
    hide NodeStep, GoodPacket, ControlMessage.GetType, ControlMessage.ToBytes, Inv, NetInv, Wire16, ControlMessage.IsAck, IsPath,
      Continues;
    var net := Last(cfg, path);
    var n, peer := net.a, net.b.e;
    SideInv(cfg, net, A);
    SideInv(cfg, net, B);
    WireIsGood(cfg.b, peer, ack);
    TypeOf(peer, ack);
    var n1 := RecvQueues(cfg.a, n, peer, ack);
    var n2 := NrArmsTimer(cfg.a, n1, peer, n1.nrs.value[0]);
    var n3 := RxArmDropsAck(cfg.a, n2, peer, ack.msg);
    var path1 := Extend(cfg, path, A, Recv(ack), n1);
    var path2 := Extend(cfg, path1, A, NrArm(0), n2);
    path' := Extend(cfg, path2, A, RxArm, n3);
  }

  /** From then on only its retry timer fires. */
  lemma {:induction false} RetriesToTheEnd(cfg: Configs, path: Delivery.Run) returns (path': Delivery.Run)
    requires IsPath(cfg, path)
    requires Last(cfg, path).a.e.alive && Last(cfg, path).a.e.hello.Some?
    ensures IsPath(cfg, path') && path.states <= path'.states && path.moves <= path'.moves
    ensures !Last(cfg, path').a.e.alive && Last(cfg, path').b == Last(cfg, path).b
    ensures forall i :: |path.moves| <= i < |path'.moves| ==> path'.moves[i] == (A, HelloRetry(true))
    decreases cfg.a.maxRetries - Last(cfg, path).a.e.hello.value.nretries
  {
    hide OnHelloRetry, IsPath, Continues;
    var n, peer := Last(cfg, path).a, Last(cfg, path).b.e;
    var n' := n.(e := OnHelloRetry(cfg.a, n.e, true));
    RetryCounts(cfg.a, n.e);
    path' := Extend(cfg, path, A, HelloRetry(true), n');
    if n'.e.alive {
      path' := RetriesToTheEnd(cfg, path');
    }
  }

  /** A retry that does not end the transport is one fewer to come. */
  lemma {:induction false} RetryCounts(cfg: Config, e: Endpoint)
    requires e.alive && e.hello.Some?
    ensures var e' := OnHelloRetry(cfg, e, true);
            e'.alive ==> && e.hello.value.nretries + 1 < cfg.maxRetries
                         && e'.hello.Some? && e'.hello.value.nretries == e.hello.value.nretries + 1
  {
    hide ScaleRetryTimeout, CompleteAll;
  }

  /** Whatever the configurations, as long as A sends keepalives: a run in which B accepts the
      HELLO and acknowledges it, A takes the acknowledgement, and A's transport goes down by the
      HELLO's retry timer alone, with the peer alive and nothing lost. */
  lemma {:induction false} AnsweredHelloIsFatal(cfg: Configs, peerA: u32, peerB: u32) returns (run: Delivery.Run, k: nat, ack: Packet)
    requires cfg.Valid() && cfg.a.helloTimeout > 0 && NewHello(cfg.a, peerA).Ok? && NewAck(cfg.b, peerB).Ok?
    ensures IsRun(cfg, run) && 3 <= k < |run.moves|
    ensures run.moves[k - 3..k] == [(A, Recv(ack)), (A, NrArm(0)), (A, RxArm)]
    ensures var net := run.states[k];
            && net.a.e.alive && |net.b.e.delivered| == 1 && net.b.e.delivered[0].Body() == NewHello(cfg.a, peerA).value.Body()
            && ack in net.b.e.wire && ack.r == net.a.e.uns
    ensures forall i :: k <= i < |run.moves| ==> run.moves[i] == (A, HelloRetry(true))
    ensures !run.states[|run.moves|].a.e.alive && run.states[|run.moves|].b.e.alive
  {
    hide NodeStep, NewHello, NewAck, ControlMessage.ToBytes, NetInv, ControlMessage.GetType, Continues, ControlMessage.IsAck,
      Delivery.Step, ControlMessage.Body;
    var net0 := Start(cfg);
    StartInv(cfg);
    PathAlone(cfg, net0);
    var a1, a2, p := HelloSends(cfg.a, net0.b.e, peerA);
    var path1 := Extend(cfg, Delivery.Run([net0], []), A, HelloExpiry, a1);
    var path2 := Extend(cfg, path1, A, HelloTimer(peerA, true), a2);
    LastInv(cfg, path2);
    var path3;
    path3, ack := TakenAndAcked(cfg, path2, B, p, peerB);
    ContinuesInv(cfg, path2, path3);
    var path4 := AckIgnored(cfg, path3, ack);
    run := RetriesToTheEnd(cfg, path4);
    k := |path4.moves|;
  }
}
