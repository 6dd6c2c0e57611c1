/** A run of control plane, transport and network in which a tunnel and a session come up. */
module EndToEndExample {
  import opened Wire
  import opened Avps
  import opened Payloads
  import opened Messages
  import opened Validation
  import opened SequenceNumbers
  import opened SlowStart
  import opened Builders
  import opened Sessions
  import opened SessionSafety
  import opened Tunnels
  import opened SessionIndex
  import opened Endpoints
  import opened EndToEnd
  import EndpointInvariants
  import SenderSteps
  import Network
  import D = Delivery
  import C = Connections
  import X = Exchanges
  import W = ControlExamples

  // ---------------------------------------------------------------------------
  // Making runs longer

  ghost function Last(cfg: D.Configs, tcfg: TunnelConfig, run: EndToEnd.Run): Joint
    requires EndToEnd.IsRun(cfg, tcfg, run)
  {
    run.states[|run.moves|]
  }

  lemma {:induction false} Extend(cfg: D.Configs, tcfg: TunnelConfig, run: EndToEnd.Run, mv: EndToEnd.Move, j': Joint)
    returns (run': EndToEnd.Run)
    requires EndToEnd.IsRun(cfg, tcfg, run) && EndToEnd.Step(cfg, Last(cfg, tcfg, run), mv, j')
    ensures EndToEnd.IsRun(cfg, tcfg, run') && Last(cfg, tcfg, run') == j'
  {
    hide EndToEnd.Step;
    run' := EndToEnd.Run(run.states + [j'], run.moves + [mv]);
  }

  /** The network moves along a path. */
  lemma {:induction false} Follow(cfg: D.Configs, tcfg: TunnelConfig, run: EndToEnd.Run, path: D.Run, k: nat) returns (run': EndToEnd.Run)
    requires EndToEnd.IsRun(cfg, tcfg, run) && X.IsPath(cfg, path) && X.Unattended(path) && k <= |path.moves|
    requires path.states[0] == Last(cfg, tcfg, run).net
    ensures EndToEnd.IsRun(cfg, tcfg, run') && Last(cfg, tcfg, run') == Last(cfg, tcfg, run).(net := path.states[k])
  {
    hide EndToEnd.IsRun, D.Step;
    if k == 0 {
      run' := run;
    } else {
      var run1 := Follow(cfg, tcfg, run, path, k - 1);
      var j := Last(cfg, tcfg, run1);
      run' := Extend(cfg, tcfg, run1, NetMove(path.moves[k - 1].0, path.moves[k - 1].1), j.(net := path.states[k]));
    }
  }

  // ---------------------------------------------------------------------------
  // Between exchanges

  /** Both ends at rest, and each has accepted all the other sent. */
  ghost predicate Calm(cfg: D.Configs, net: D.Net) {
    && D.NetInv(cfg, net) && X.Ready(net.a) && X.Ready(net.b)
    && net.a.e.ackQueue == [] && net.b.e.ackQueue == [] && net.a.e.hello.None? && net.b.e.hello.None?
    && net.a.e.uns == net.b.e.unr && net.b.e.uns == net.a.e.unr
  }

  lemma {:induction false} CalmMaySend(cfg: D.Configs, net: D.Net, s: D.Side)
    requires Calm(cfg, net)
    ensures net.At(s).e.win.CanSend() && net.At(s).e.ns == Wire16(net.At(s).e.uns) && net.At(s).e.nr == Wire16(net.At(s).e.unr)
  {
    X.SideInv(cfg, net, s);
    hide D.NetInv, EndpointInvariants.Core, EndpointInvariants.AckQueueOk, EndpointInvariants.TxQueueOk;
  }

  lemma {:induction false} AckBuildable(cfg: Config)
    ensures NewAck(cfg, 0).Ok?
  {
    NewAvpDecodes(VENDOR_IETF, AVP_MESSAGE, VMsgType(MSG_ACK));
  }

  /** One message from s has just been sent. */
  ghost predicate UnderWay(cfg: D.Configs, net: D.Net, s: D.Side, p: Packet) {
    && D.NetInv(cfg, net) && X.Ready(net.At(s)) && X.Ready(net.At(D.Other(s))) && net.At(D.Other(s)).e.ackQueue == []
    && var e, f := net.At(s).e, net.At(D.Other(s)).e;
       && e.hello.None? && f.hello.None? && |e.ackQueue| == 1 && !e.ackQueue[0].isComplete
       && e.ackQueue[0].seqNo + 1 == e.uns && e.ackQueue[0].msg.ns == Wire16(e.ackQueue[0].seqNo)
       && p in e.wire && p.k == f.unr && p.k + 1 == e.uns && p.r == e.unr == f.uns
       && !p.msg.IsAck() && |p.msg.ToBytes()| <= RECV_BUFFER
  }

  /** The network carries it over and brings back the acknowledgement. */
  lemma {:induction false} Carried(cfg: D.Configs, net: D.Net, s: D.Side, p: Packet) returns (path: D.Run)
    requires UnderWay(cfg, net, s, p)
    ensures X.IsPath(cfg, path) && X.Unattended(path) && path.states[0] == net && Calm(cfg, X.Last(cfg, path))
    ensures var e, f, e', f' := net.At(s).e, net.At(D.Other(s)).e, X.Last(cfg, path).At(s).e, X.Last(cfg, path).At(D.Other(s)).e;
            && e'.submitted == e.submitted && e'.delivered == e.delivered && e'.completed == e.completed + [Done(e.ackQueue[0].id, true)]
            && f'.submitted == f.submitted && f'.completed == f.completed && f'.delivered == f.delivered + [p.msg]
  {
    hide D.NetInv, ControlMessage.IsAck, ControlMessage.ToBytes, Wire16, SeqIncrement, NewAck, Window.OnAck, X.IsPath, X.Unattended,
      X.Continues;
    var path0 := D.Run([net], []);
    PathAlone(cfg, net);
    AckBuildable(cfg.At(D.Other(s)));
    var path1, ack := X.TakenAndAcked(cfg, path0, D.Other(s), p, 0);
    ContinuesAlone(cfg, path0, path1);
    path := X.AckTaken(cfg, path1, s, ack);
    ContinuesAlone(cfg, path1, path);
  }

  lemma {:induction false} PathAlone(cfg: D.Configs, net: D.Net)
    ensures var path := D.Run([net], []);
            X.IsPath(cfg, path) && X.Last(cfg, path) == net && X.Unattended(path)
  {
  }

  lemma {:induction false} ContinuesAlone(cfg: D.Configs, path: D.Run, path': D.Run)
    requires X.IsPath(cfg, path) && X.Unattended(path) && D.NetInv(cfg, path.states[0]) && X.Continues(cfg, path, path')
    ensures X.IsPath(cfg, path') && X.Unattended(path') && path'.states[0] == path.states[0] && D.NetInv(cfg, X.Last(cfg, path'))
  {
    X.ContinuesInv(cfg, path, path');
  }

  /** Sending over a network at rest. */
  lemma {:induction false} Sent(cfg: D.Configs, net: D.Net, s: D.Side, m: ControlMessage) returns (net': D.Net, p: Packet)
    requires Calm(cfg, net) && Validates(m) && m.WellFormed() && |m.ToBytes()| <= RECV_BUFFER
    ensures D.Step(cfg, net, s, Network.Submit(m, 1), net') && UnderWay(cfg, net', s, p) && p.msg.Body() == m.Body()
    ensures var e, e' := net.At(s).e, net'.At(s).e;
            && e'.submitted == e.submitted + [m] && e'.ackQueue[0].id == |e.submitted|
            && e'.completed == e.completed && e'.delivered == e.delivered && net'.At(D.Other(s)) == net.At(D.Other(s))
  {
    hide D.NetInv, Validates, ControlMessage.WellFormed, ControlMessage.ToBytes, ControlMessage.GetType, Wire16, Network.NodeStep,
      Window.CanSend, Window.OnSend;
    CalmMaySend(cfg, net, s);
    var n, peer := net.At(s), net.At(D.Other(s)).e;
    var n' := X.SubmitSends(cfg.At(s), n, peer, m);
    net' := X.Moved(net, s, n');
    D.StepInv(cfg, net, s, Network.Submit(m, 1), net');
    p := X.FrameOf(cfg.At(s), n.e, m);
    D.ValidatedIsSendable(m);
    SenderSteps.SetSeqKeeps(m, n.e.ns, n.e.nr);
    X.SameLength(m, p.msg);
  }

  // ---------------------------------------------------------------------------
  // Turns

  /** Nobody is waiting for a message. */
  ghost predicate Settled(cfg: D.Configs, j: Joint) {
    && Calm(cfg, j.net)
    && forall k :: 0 <= k < |j.tickets| ==>
         Completed(j.net.a.e, j.tickets[k].id, true) && j.tickets[k].n < |Sends(j.w, j.tickets[k].actor)|
  }

  /** A turn of this actor with one message, which it records as sent. */
  ghost predicate SendsOne(j: Joint, mv: C.Move, w': C.World, actor: Actor, req: Request) {
    && C.Step(j.w, mv, w') && Mover(mv) == Some(actor) && Allowed(j, mv) && !j.w.t.busy
    && Sends(w', actor) == Sends(j.w, actor) + [Submission(req, true)]
    && forall other :: other != actor ==> Sends(w', other) == Sends(j.w, other)
  }

  /** The control plane's new state after a turn. */
  function Turned(j: Joint, mv: C.Move, w': C.World): Joint {
    j.(w := w', read := if TakesMessage(mv) then j.read + 1 else j.read)
  }

  lemma {:induction false} Submitted(cfg: D.Configs, tcfg: TunnelConfig, run: EndToEnd.Run, mv: C.Move, w': C.World, actor: Actor, req: Request)
    returns (run': EndToEnd.Run)
    requires EndToEnd.IsRun(cfg, tcfg, run) && Settled(cfg, Last(cfg, tcfg, run)) && SendsOne(Last(cfg, tcfg, run), mv, w', actor, req)
    requires req.Message().Ok? && req.TextFits()
    ensures EndToEnd.IsRun(cfg, tcfg, run')
    ensures var j, j' := Last(cfg, tcfg, run), Last(cfg, tcfg, run');
            && Calm(cfg, j'.net) && j' == j.(net := j'.net, tickets := j'.tickets)
            && j'.tickets == j.tickets + [Ticket(actor, |Sends(j.w, actor)|, req, |j.net.a.e.submitted|)]
            && j'.net.a.e.completed == j.net.a.e.completed + [Done(|j.net.a.e.submitted|, true)]
            && j'.net.a.e.delivered == j.net.a.e.delivered
  {
    hide EndToEnd.IsRun, C.Step, Calm, Request.Message, Request.TextFits, Validates, UnderWay, ControlMessage.WellFormed,
      ControlMessage.ToBytes, Sends, Allowed, D.Step;
    var j := Last(cfg, tcfg, run);
    var m, n := req.Message().value, |Sends(j.w, actor)|;
    GoodToSend(req);
    var net1, p := Sent(cfg, j.net, D.A, m);
    assert Foreseen(j, actor, n, req);
    assert InTurn(j, actor, n);
    var t := Ticket(actor, n, req, |j.net.a.e.submitted|);
    var run1 := Extend(cfg, tcfg, run, SendMove(actor, n, req, 1), j.(net := net1, tickets := j.tickets + [t]));
    var path := Carried(cfg, net1, D.A, p);
    run' := Follow(cfg, tcfg, run1, path, |path.moves|);
  }

  lemma {:induction false} GoodToSend(req: Request)
    requires req.Message().Ok? && req.TextFits()
    ensures var m := req.Message().value;
            Validates(m) && m.WellFormed() && |m.ToBytes()| <= RECV_BUFFER
  {
    hide ParseMessages, ControlMessage.ToBytes, ControlMessage.GetType, Validates, Request.Message, Request.TextFits,
      ControlMessage.WellFormed, Request.MsgType, Request.PeerTid, Request.PeerSid;
    BuilderCorrect(req);
    RoundTrip(req.Message().value);
    BuiltIsShort(req);
  }

  /** What was allowed before the message was carried over still is. */
  lemma {:induction false} StillAllowed(cfg: D.Configs, j: Joint, j1: Joint, mv: C.Move)
    requires Calm(cfg, j.net) && Allowed(j, mv) && Mover(mv).Some?
    requires j1.read == j.read && j1.net.a.e.delivered == j.net.a.e.delivered
    ensures Allowed(j1, mv)
  {
    hide D.NetInv;
  }

  /** The new ticket backs the new record. */
  lemma {:induction false} OneRecord(j: Joint, j1: Joint, mv: C.Move, w': C.World, actor: Actor, req: Request)
    requires SendsOne(j, mv, w', actor, req) && j1.w == j.w
    requires forall k :: 0 <= k < |j.tickets| ==> j.tickets[k].n < |Sends(j.w, j.tickets[k].actor)|
    requires j1.tickets == j.tickets + [Ticket(actor, |Sends(j.w, actor)|, req, |j.net.a.e.submitted|)]
    requires Completed(j1.net.a.e, |j.net.a.e.submitted|, true)
    ensures Records(j1, mv, w')
    ensures forall k :: 0 <= k < |j1.tickets| ==> j1.tickets[k].n < |Sends(w', j1.tickets[k].actor)|
  {
    hide C.Step, Sends, Allowed, Completed;
    assert Backs(j1, |j.tickets|, actor, |Sends(j.w, actor)|, Submission(req, true));
  }

  /** A turn that sends: its message is carried over, acknowledged and recorded. */
  lemma {:induction false} SendingTurn(cfg: D.Configs, tcfg: TunnelConfig, run: EndToEnd.Run, mv: C.Move, w': C.World, actor: Actor, req: Request)
    returns (run': EndToEnd.Run)
    requires EndToEnd.IsRun(cfg, tcfg, run) && Settled(cfg, Last(cfg, tcfg, run)) && SendsOne(Last(cfg, tcfg, run), mv, w', actor, req)
    requires req.Message().Ok? && req.TextFits()
    ensures EndToEnd.IsRun(cfg, tcfg, run') && Settled(cfg, Last(cfg, tcfg, run'))
    ensures var j, j' := Last(cfg, tcfg, run), Last(cfg, tcfg, run');
            && j'.w == w' && j'.read == Turned(j, mv, w').read && j'.net.a.e.delivered == j.net.a.e.delivered
  {
    hide EndToEnd.IsRun, C.Step, Calm, Request.Message, Request.TextFits, Sends, Records, Allowed;
    var j := Last(cfg, tcfg, run);
    var run1 := Submitted(cfg, tcfg, run, mv, w', actor, req);
    var j1 := Last(cfg, tcfg, run1);
    StillAllowed(cfg, j, j1, mv);
    OneRecord(j, j1, mv, w', actor, req);
    run' := Extend(cfg, tcfg, run1, ControlMove(mv), Turned(j1, mv, w'));
    forall i | 0 <= i < |j1.tickets|
      ensures Completed(j1.net.a.e, j1.tickets[i].id, true)
    {
      if i < |j.tickets| {
        assert Completed(j.net.a.e, j.tickets[i].id, true);
      }
    }
  }

  /** A turn that sends nothing. */
  lemma {:induction false} QuietTurn(cfg: D.Configs, tcfg: TunnelConfig, run: EndToEnd.Run, mv: C.Move, w': C.World) returns (run': EndToEnd.Run)
    requires EndToEnd.IsRun(cfg, tcfg, run) && Settled(cfg, Last(cfg, tcfg, run))
    requires C.Step(Last(cfg, tcfg, run).w, mv, w') && Allowed(Last(cfg, tcfg, run), mv)
    requires forall actor :: Sends(w', actor) == Sends(Last(cfg, tcfg, run).w, actor)
    ensures EndToEnd.IsRun(cfg, tcfg, run') && Settled(cfg, Last(cfg, tcfg, run'))
    ensures Last(cfg, tcfg, run') == Turned(Last(cfg, tcfg, run), mv, w')
  {
    hide EndToEnd.IsRun, C.Step, Calm, Sends, Completed;
    run' := Extend(cfg, tcfg, run, ControlMove(mv), Turned(Last(cfg, tcfg, run), mv, w'));
  }

  /** The peer sends a message, and our transport accepts it. */
  lemma {:induction false} PeerSays(cfg: D.Configs, tcfg: TunnelConfig, run: EndToEnd.Run, req: Request)
    returns (run': EndToEnd.Run, m': ControlMessage)
    requires EndToEnd.IsRun(cfg, tcfg, run) && Settled(cfg, Last(cfg, tcfg, run)) && req.Message().Ok? && req.TextFits()
    ensures EndToEnd.IsRun(cfg, tcfg, run') && Settled(cfg, Last(cfg, tcfg, run'))
    ensures var j, j' := Last(cfg, tcfg, run), Last(cfg, tcfg, run');
            j' == j.(net := j'.net) && j'.net.a.e.delivered == j.net.a.e.delivered + [m']
    ensures m'.Body() == req.Message().value.Body()
  {
    hide EndToEnd.IsRun, Calm, Request.Message, Request.TextFits, Validates, UnderWay, ControlMessage.WellFormed,
      ControlMessage.ToBytes, Sends, D.Step, ControlMessage.Body;
    var j := Last(cfg, tcfg, run);
    GoodToSend(req);
    var net1, p := Sent(cfg, j.net, D.B, req.Message().value);
    var run1 := Extend(cfg, tcfg, run, NetMove(D.B, Network.Submit(req.Message().value, 1)), j.(net := net1));
    var path := Carried(cfg, net1, D.B, p);
    run' := Follow(cfg, tcfg, run1, path, |path.moves|);
    m' := p.msg;
  }

  // ---------------------------------------------------------------------------
  // The run

  /** Only the transport's own fields differ. */
  lemma {:induction false} SameBody(m: ControlMessage, m': ControlMessage)
    requires m'.Body() == m.Body()
    ensures m'.V2? == m.V2? && m'.avps == m.avps && m'.GetType() == m.GetType() && (Validates(m') <==> Validates(m))
    ensures m.V2? ==> m'.tid == m.tid && m'.sid == m.sid
  {
  }

  lemma {:induction false} BeginSettled(cfg: D.Configs, tcfg: TunnelConfig) returns (run: EndToEnd.Run)
    requires cfg.Valid()
    ensures EndToEnd.IsRun(cfg, tcfg, run) && Settled(cfg, Last(cfg, tcfg, run))
    ensures Last(cfg, tcfg, run) == Joint(C.Begin(tcfg), D.Start(cfg), [], 0)
  {
    hide D.NetInv;
    D.StartInv(cfg);
    run := EndToEnd.Run([Joint(C.Begin(tcfg), D.Start(cfg), [], 0)], []);
  }

  /** The SCCRQ is sent and acknowledged. */
  lemma {:induction false} Called(cfg: D.Configs, tcfg: TunnelConfig) returns (run: EndToEnd.Run)
    requires cfg.Valid() && Sccrq(tcfg).TextFits()
    ensures EndToEnd.IsRun(cfg, tcfg, run) && Settled(cfg, Last(cfg, tcfg, run))
    ensures var j := Last(cfg, tcfg, run);
            W.Asked(j.w, tcfg) && j.read == 0 && j.net.a.e.delivered == []
  {
    hide EndToEnd.IsRun, Settled, TakeTunnelTurn, Request.Message, Request.TextFits;
    var run0 := BeginSettled(cfg, tcfg);
    var w := C.Begin(tcfg);
    var t := W.StartTakesUp(tcfg);
    var w', mv := w.(t := t), C.TunnelMove(StartTurn, W.SMOOTH);
    assert C.AfterTunnel(w, t) == w';
    SessionSafety.Buildable(Sccrq(tcfg));
    assert Sends(w', TunnelActor) == Sends(w, TunnelActor) + [Submission(Sccrq(tcfg), true)];
    run := SendingTurn(cfg, tcfg, run0, mv, w', TunnelActor, Sccrq(tcfg));
  }

  /** The peer answers with an SCCRP, the SCCCN is sent and acknowledged: the tunnel is up. */
  lemma {:induction false} TunnelUp(cfg: D.Configs, tcfg: TunnelConfig, ptid: u16) returns (run: EndToEnd.Run)
    requires cfg.Valid() && Sccrq(tcfg).TextFits()
    ensures EndToEnd.IsRun(cfg, tcfg, run) && Settled(cfg, Last(cfg, tcfg, run))
    ensures var j := Last(cfg, tcfg, run);
            && W.Established(j.w, tcfg, ptid) && j.w.ix == EMPTY && j.w.members == [] && !j.w.t.busy && j.w.t.notices == [Up]
            && j.read == 1 == |j.net.a.e.delivered|
  {
    hide EndToEnd.IsRun, Settled, TakeTunnelTurn, Request.Message, Request.TextFits, W.IsReply;
    var run1 := Called(cfg, tcfg);
    W.BuiltIsReply(tcfg, ptid);
    ReplyFits(tcfg, ptid);
    var run2, m := PeerSays(cfg, tcfg, run1, W.Reply(tcfg, ptid));
    var j := Last(cfg, tcfg, run2);
    ReplySaid(tcfg, ptid, W.Reply(tcfg, ptid).Message().value, m);
    var w, mv := j.w, C.TunnelMove(TunnelMsgTurn(m), W.SMOOTH);
    var t := W.ReplyTakesUp(w.t, tcfg, ptid, m);
    var w' := C.AfterTunnel(w, t);
    assert C.OpenAll(w) == [];
    ScccnFits(t.cfg);
    DeliveredReply(m, tcfg, ptid);
    run := SendingTurn(cfg, tcfg, run2, mv, w', TunnelActor, Scccn(t.cfg));
  }

  lemma {:induction false} ReplyFits(tcfg: TunnelConfig, ptid: u16)
    ensures W.Reply(tcfg, ptid).TextFits()
  {
  }

  lemma {:induction false} ScccnFits(tcfg: TunnelConfig)
    requires tcfg.peerTunnelId <= V2_ID_MAX
    ensures Scccn(tcfg).TextFits() && Scccn(tcfg).Message().Ok?
  {
    SessionSafety.Buildable(Scccn(tcfg));
  }

  lemma {:induction false} ReplySaid(tcfg: TunnelConfig, ptid: u16, m: ControlMessage, m': ControlMessage)
    requires W.IsReply(m, tcfg, ptid) && m'.Body() == m.Body()
    ensures W.IsReply(m', tcfg, ptid)
  {
    SameBody(m, m');
    hide Validates, ControlMessage.GetType, FindUint16Avp, ControlMessage.Body;
  }

  lemma {:induction false} DeliveredReply(m: ControlMessage, tcfg: TunnelConfig, ptid: u16)
    requires W.IsReply(m, tcfg, ptid)
    ensures C.Delivered(m)
  {
  }

  /** The session of the example has sent its call. */
  predicate Waiting(j: Joint, tcfg: TunnelConfig, ptid: u16, name: string, sid: u16) {
    && W.Established(j.w, tcfg, ptid) && !j.w.t.busy && j.w.t.notices == [Up]
    && j.w.ix == EMPTY.Link(Ref(0, name, sid)) && |j.w.members| == 1 && j.w.members[0].inbox == []
    && var s := j.w.members[0].s;
       && s.cfg.sessionId == sid && s.Running() && s.state == WaitReply && !s.established && s.notices == []
  }

  lemma {:induction false} Added(cfg: D.Configs, tcfg: TunnelConfig, ptid: u16, name: string, serial: u32, sid: u16) returns (run: EndToEnd.Run)
    requires cfg.Valid() && Sccrq(tcfg).TextFits()
    ensures EndToEnd.IsRun(cfg, tcfg, run) && Settled(cfg, Last(cfg, tcfg, run))
    ensures var j := Last(cfg, tcfg, run);
            && W.Established(j.w, tcfg, ptid) && !j.w.t.busy && j.w.t.notices == [Up] && j.w.ix == EMPTY.Link(Ref(0, name, sid))
            && j.w.members == [C.Member(NewSession(name, serial, sid), 1, 0, [], 0, false)]
            && j.read == 1 == |j.net.a.e.delivered|
  {
    hide EndToEnd.IsRun, Settled, TakeTunnelTurn, C.AfterTunnel, Request.TextFits;
    var run1 := TunnelUp(cfg, tcfg, ptid);
    var w := Last(cfg, tcfg, run1).w;
    C.AddLeavesTunnel(w, W.SMOOTH);
    var w', mv := C.AfterAdd(w, name, serial, sid, W.SMOOTH), C.AddMove(name, serial, sid, W.SMOOTH);
    run := QuietTurn(cfg, tcfg, run1, mv, w');
  }

  /** The session sends its ICRQ. */
  lemma {:induction false} SessionCalls(cfg: D.Configs, tcfg: TunnelConfig, ptid: u16, name: string, serial: u32, sid: u16)
    returns (run: EndToEnd.Run)
    requires cfg.Valid() && Sccrq(tcfg).TextFits()
    ensures EndToEnd.IsRun(cfg, tcfg, run) && Settled(cfg, Last(cfg, tcfg, run))
    ensures Waiting(Last(cfg, tcfg, run), tcfg, ptid, name, sid)
    ensures Last(cfg, tcfg, run).read == 1 == |Last(cfg, tcfg, run).net.a.e.delivered|
  {
    hide EndToEnd.IsRun, Settled, TakeTurn, Request.Message, Request.TextFits;
    var run1 := Added(cfg, tcfg, ptid, name, serial, sid);
    var w := Last(cfg, tcfg, run1).w;
    var s := w.members[0].s;
    var s' := W.OpenTakes(s, ptid, SessionIO(Outcome.Sent, true, true, []));
    var a := C.Answers(true, true, true, [], false);
    var w', mv := C.AfterSession(w, 0, OpenTurn, a), C.SessionMove(0, OpenTurn, a);
    IcrqFits(s.serial, ptid, s.cfg);
    run := SendingTurn(cfg, tcfg, run1, mv, w', SessionActor(0), Icrq(s.serial, ptid, s.cfg));
  }

  lemma {:induction false} IcrqFits(serial: u32, ptid: u16, scfg: SessionConfig)
    ensures Icrq(serial, ptid, scfg).TextFits() && Icrq(serial, ptid, scfg).Message().Ok?
  {
    SessionSafety.Buildable(Icrq(serial, ptid, scfg));
  }

  /** The peer's ICRP is accepted, taken by the tunnel and passed on to the session. */
  lemma {:induction false} Answered(cfg: D.Configs, tcfg: TunnelConfig, ptid: u16, name: string, serial: u32, sid: u16, psid: u16)
    returns (run: EndToEnd.Run, m: ControlMessage)
    requires cfg.Valid() && Sccrq(tcfg).TextFits()
    ensures EndToEnd.IsRun(cfg, tcfg, run) && Settled(cfg, Last(cfg, tcfg, run)) && AcceptedIcrp(m, sid, psid)
    ensures var j := Last(cfg, tcfg, run);
            |j.w.members| == 1 && Waiting(j.(w := j.w.(members := [j.w.members[0].(inbox := [])])), tcfg, ptid, name, sid)
            && j.w.members[0].inbox == [m]
  {
    hide EndToEnd.IsRun, Settled, TakeTunnelTurn, Request.Message, Request.TextFits, Forwards, AcceptedIcrp, C.Delivered;
    var run1 := SessionCalls(cfg, tcfg, ptid, name, serial, sid);
    var req := W.Answer(tcfg.tunnelId % 0x1_0000, sid, psid);
    AnswerFits(req);
    var run2;
    run2, m := PeerSays(cfg, tcfg, run1, req);
    var j := Last(cfg, tcfg, run2);
    AnswerSaid(tcfg.tunnelId % 0x1_0000, sid, psid, m);
    AnswerForwarded(j.w.t, m, sid, psid);
    var w', mv := C.PassOn(j.w, m.sid, m), C.TunnelMove(TunnelMsgTurn(m), W.SMOOTH);
    assert [] + [m] == [m];
    assert w'.members == [j.w.members[0].(inbox := [m])];
    assert C.AfterTunnel(j.w, j.w.t) == j.w;
    run := QuietTurn(cfg, tcfg, run2, mv, w');
  }

  lemma {:induction false} AnswerFits(req: Request)
    requires req.Icrp? && req.PeerTid() <= V2_ID_MAX && req.PeerSid() <= V2_ID_MAX
    ensures req.TextFits() && req.Message().Ok?
  {
    SessionSafety.Buildable(req);
  }

  lemma {:induction false} AnswerSaid(tid: u16, sid: u16, psid: u16, m': ControlMessage)
    requires W.Answer(tid, sid, psid).Message().Ok? && m'.Body() == W.Answer(tid, sid, psid).Message().value.Body()
    ensures m'.V2? && m'.tid == tid && m'.sid == sid && AcceptedIcrp(m', sid, psid) && C.Delivered(m')
  {
    hide Request.Message, Validates, ControlMessage.GetType, FindUint16Avp, ControlMessage.Body;
    var req := W.Answer(tid, sid, psid);
    W.BuiltIsDelivered(req);
    W.IdIsRead(req);
    SameBody(req.Message().value, m');
  }

  lemma {:induction false} AnswerForwarded(t: Tunnel, m: ControlMessage, sid: u16, psid: u16)
    requires t.Ready() && t.state == TunnelEstablished && m.V2? && m.tid == t.cfg.tunnelId % 0x1_0000 && AcceptedIcrp(m, sid, psid)
    ensures Forwards(t, m) && TakeTunnelTurn(t, TunnelMsgTurn(m), W.SMOOTH) == t
  {
    hide Validates, ControlMessage.GetType, FindUint16Avp, TakeTunnelTurn, Forwards;
    W.PassingLeavesTunnel(t, m);
  }

  /** A waiting session takes the answer: everything working, it is up. */
  lemma {:induction false} AnswerSetsUp(s: Session, ptid: u16, m: ControlMessage, psid: u16) returns (s': Session)
    requires s.Running() && s.state == WaitReply && !s.established && s.notices == [] && AcceptedIcrp(m, s.cfg.sessionId, psid)
    ensures s' == TakeTurn(s, ptid, MsgTurn(m), SessionIO(Outcome.Sent, true, true, []))
    ensures s'.Running() && s'.established && s'.notices == [Up]
    ensures s'.sends == s.sends + [Submission(Iccn(ptid, s.cfg.(peerSessionId := psid)), true)]
  {
    hide Request.Message, Validates, FindUint16Avp, ControlMessage.GetType;
    var io := SessionIO(Outcome.Sent, true, true, []);
    SessionSafety.Buildable(Iccn(ptid, s.cfg.(peerSessionId := psid)));
    var s1 := s.(state := SessionEstablished);
    assert DoOnIcrp(s1, ptid, Msg(m), io) == Announce(s1.(cfg := s.cfg.(peerSessionId := psid), setup := Some(io)), ptid, io);
    assert SessionHandle(s, ptid, GotIcrp, Msg(m), io) == DoOnIcrp(s1, ptid, Msg(m), io);
    s' := TakeTurn(s, ptid, MsgTurn(m), io);
  }

  lemma {:induction false} IccnFits(ptid: u16, scfg: SessionConfig)
    requires scfg.peerSessionId <= V2_ID_MAX
    ensures Iccn(ptid, scfg).TextFits() && Iccn(ptid, scfg).Message().Ok?
  {
    SessionSafety.Buildable(Iccn(ptid, scfg));
  }

  /** For any transport configurations, tunnel, name, serial and IDs, the host name fitting its
      AVP: a run in which tunnel and session come up, each message of either handshake sent,
      accepted by the other side and acknowledged. */
  lemma {:induction false} EverythingComesUp(
    cfg: D.Configs, tcfg: TunnelConfig, ptid: u16, name: string, serial: u32, sid: u16, psid: u16) returns (run: EndToEnd.Run)
    requires cfg.Valid() && Sccrq(tcfg).TextFits()
    ensures EndToEnd.IsRun(cfg, tcfg, run)
    ensures var j := Last(cfg, tcfg, run);
            && j.w.t.established && j.w.t.notices == [Up] && |j.w.members| == 1
            && j.w.members[0].s.established && j.w.members[0].s.notices == [Up]
            && Calm(cfg, j.net)
  {
    hide EndToEnd.IsRun, Calm, TakeTurn, Request.Message, Request.TextFits, AcceptedIcrp, Completed, Index.Link;
    var run1, m := Answered(cfg, tcfg, ptid, name, serial, sid, psid);
    var w := Last(cfg, tcfg, run1).w;
    var s := w.members[0].s;
    var s' := AnswerSetsUp(s, ptid, m, psid);
    var a := C.Answers(true, true, true, [], false);
    var w', mv := C.AfterSession(w, 0, MsgTurn(m), a), C.SessionMove(0, MsgTurn(m), a);
    IccnFits(ptid, s.cfg.(peerSessionId := psid));
    run := SendingTurn(cfg, tcfg, run1, mv, w', SessionActor(0), Iccn(ptid, s.cfg.(peerSessionId := psid)));
  }
}
