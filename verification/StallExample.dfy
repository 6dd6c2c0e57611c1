/** A run the program can make that ends in a stalled receiver: three messages, one of them
    overtaken by the next. */
module StallExample {
  import opened Wire
  import opened Messages
  import opened Validation
  import opened SlowStart
  import opened RetryTimeouts
  import opened Endpoints
  import opened EndpointInvariants
  import opened SenderSteps
  import opened Network
  import opened Delivery
  import opened ReceiveStall
  import opened Exchanges

  predicate Suits(m: ControlMessage) {
    m.WellFormed() && |m.ToBytes()| <= RECV_BUFFER
  }

  /** A's first message is sent, taken and acknowledged; its window is open to two more. */
  lemma {:induction false} FirstMessage(cfg: Configs, m: ControlMessage, peerId: u32) returns (path: Delivery.Run)
    requires cfg.Valid() && cfg.a.window >= 2 && NewAck(cfg.b, peerId).Ok? && Validates(m) && Suits(m)
    ensures IsPath(cfg, path) && path.states[0] == Start(cfg)
    ensures var net := Last(cfg, path);
            && Ready(net.a) && Ready(net.b) && net.a.e.ackQueue == [] && net.a.e.win == Window(2, cfg.a.window, 0, 0)
            && net.a.e.submitted == [m] && net.a.e.uns == 1 && net.a.e.unr == 0
            && net.b.e.uns == 0 && net.b.e.unr == 1 && |net.b.e.delivered| == 1 && net.b.e.delivered[0].Body() == m.Body()
  {
    hide Validates, ControlMessage.WellFormed, ControlMessage.ToBytes, NodeStep, ScaleRetryTimeout, NewAck, NetInv,
      ControlMessage.GetType, IsPath, Continues;
    var net0 := Start(cfg);
    StartInv(cfg);
    var path0 := Delivery.Run([net0], []);
    PathAlone(cfg, net0);
    var a := SubmitSends(cfg.a, net0.a, net0.b.e, m);
    var path1 := Extend(cfg, path0, A, Submit(m, 1), a);
    var p := FrameOf(cfg.a, net0.a.e, m);
    ValidatedIsSendable(m);
    SetSeqKeeps(m, 0, 0);
    SameLength(m, p.msg);
    LastInv(cfg, path1);
    var path2, ack := TakenAndAcked(cfg, path1, B, p, peerId);
    ContinuesInv(cfg, path1, path2);
    path := AckTaken(cfg, path2, A, ack);
    ContinuesInv(cfg, path2, path);
    assert net0.a.e.submitted + [m] == [m] && net0.b.e.delivered + [p.msg] == [p.msg];
  }

  /** A sends two messages; the second overtakes the first. */
  lemma {:induction false} Overtaken(cfg: Configs, path: Delivery.Run, m2: ControlMessage, m3: ControlMessage)
    returns (path': Delivery.Run)
    requires cfg.Valid() && IsPath(cfg, path) && path.states[0] == Start(cfg)
    requires Validates(m2) && m2.WellFormed() && Validates(m3) && Suits(m3)
    requires var net := Last(cfg, path);
             && Ready(net.a) && Ready(net.b) && net.a.e.ackQueue == [] && net.a.e.win == Window(2, cfg.a.window, 0, 0)
             && net.a.e.uns == 1 && net.a.e.unr == 0 && net.b.e.uns == 0 && net.b.e.unr == 1
    ensures IsPath(cfg, path') && path'.states[0] == Start(cfg)
    ensures var net, net' := Last(cfg, path), Last(cfg, path');
            && net'.a.e.alive && net'.b.e.alive && |net'.a.e.ackQueue| == 2
            && net'.a.e.submitted == net.a.e.submitted + [m2] + [m3]
            && Stalled(net'.b.e) && net'.b.e.delivered == net.b.e.delivered
  {
    hide NodeStep, GoodPacket, ControlMessage.GetType, ControlMessage.ToBytes, Inv, NetInv, Validates, IsPath,
      ControlMessage.WellFormed, ScaleRetryTimeout;
    var net := Last(cfg, path);
    StartInv(cfg);
    var a1 := SubmitSends(cfg.a, net.a, net.b.e, m2);
    var a2 := SubmitSends(cfg.a, a1, net.b.e, m3);
    var path1 := Extend(cfg, path, A, Submit(m2, 1), a1);
    var path2 := Extend(cfg, path1, A, Submit(m3, 1), a2);
    LastInv(cfg, path1);
    LastInv(cfg, path2);
    SideInv(cfg, Last(cfg, path1), A);
    SideInv(cfg, Last(cfg, path2), A);
    SideInv(cfg, Last(cfg, path2), B);
    var p := FrameOf(cfg.a, a1.e, m3);
    SetSeqKeeps(m3, a1.e.ns, a1.e.nr);
    SameLength(m3, p.msg);
    WireIsGood(cfg.a, a2.e, p);
    var b := RecvQueues(cfg.b, net.b, a2.e, p);
    path' := Extend(cfg, path2, B, Recv(p), b);
  }

  /** With a window of at least two, any three messages, the third no longer than the
      receiver's buffer like the first: a run in which A submits the first, B takes it and
      acknowledges it when its timer expires, A submits the other two and the network loses
      the second.  B is then stalled with only the first message accepted, so by
      StallIsPermanent the second is never accepted, however often it is retransmitted. */
  lemma {:induction false} OvertakenMessageStalls(
    cfg: Configs, m1: ControlMessage, m2: ControlMessage, m3: ControlMessage, peerId: u32) returns (run: Delivery.Run)
    requires cfg.Valid() && cfg.a.window >= 2 && NewAck(cfg.b, peerId).Ok?
    requires Validates(m1) && Suits(m1) && Validates(m2) && m2.WellFormed() && Validates(m3) && Suits(m3)
    ensures IsRun(cfg, run)
    ensures var net := run.states[|run.moves|];
            && net.a.e.alive && net.b.e.alive && net.a.e.submitted == [m1, m2, m3] && |net.a.e.ackQueue| == 2
            && Stalled(net.b.e) && |net.b.e.delivered| == 1 && net.b.e.delivered[0].Body() == m1.Body()
  {
    hide Validates, ControlMessage.WellFormed, ControlMessage.ToBytes, NewAck, Stalled, ControlMessage.Body, Delivery.Step;
    var path := FirstMessage(cfg, m1, peerId);
    run := Overtaken(cfg, path, m2, m3);
    assert [m1] + [m2] + [m3] == [m1, m2, m3];
  }
}
