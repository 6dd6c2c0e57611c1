/** Runs of a tunnel with its sessions in which something the program's comments promise fails. */
module ControlExamples {
  import opened Wire
  import opened Avps
  import opened Payloads
  import opened Messages
  import opened Validation
  import opened Builders
  import opened Sessions
  import SessionSafety
  import opened Tunnels
  import opened TunnelSafety
  import opened SessionIndex
  import opened Connections

  // ---------------------------------------------------------------------------
  // Making runs longer

  ghost function Last(cfg: TunnelConfig, run: Run): World
    requires IsRun(cfg, run)
  {
    run.states[|run.moves|]
  }

  lemma {:induction false} Extend(cfg: TunnelConfig, run: Run, mv: Move, w': World) returns (run': Run)
    requires IsRun(cfg, run) && Step(Last(cfg, run), mv, w')
    ensures IsRun(cfg, run') && Last(cfg, run') == w'
    ensures run' == Run(run.states + [w'], run.moves + [mv])
  {
    hide Step;
    run' := Run(run.states + [w'], run.moves + [mv]);
  }

  // ---------------------------------------------------------------------------
  // A tunnel that has come up

  const SMOOTH := TunnelIO(true, true, true, [])

  /** Waiting for a reply, nothing linked. */
  predicate Asked(w: World, cfg: TunnelConfig) {
    && w.ix == EMPTY && w.members == []
    && w.t == NewTunnel(cfg).(state := WaitCtlReply, sends := [Submission(Sccrq(cfg), true)])
  }

  lemma {:induction false} AskedRun(cfg: TunnelConfig) returns (run: Run)
    ensures IsRun(cfg, run) && Asked(Last(cfg, run), cfg)
  {
    var w := Begin(cfg);
    var t := StartTakesUp(cfg);
    var w' := w.(t := t);
    assert AfterTunnel(w, t) == w';
    hide TakeTunnelTurn;
    run := Extend(cfg, Run([w], []), TunnelMove(StartTurn, SMOOTH), w');
  }

  lemma {:induction false} StartTakesUp(cfg: TunnelConfig) returns (t: Tunnel)
    ensures t == TakeTunnelTurn(NewTunnel(cfg), StartTurn, SMOOTH)
    ensures t == NewTunnel(cfg).(state := WaitCtlReply, sends := [Submission(Sccrq(cfg), true)])
  {
    hide Request.Message;
    SessionSafety.Buildable(Sccrq(cfg));
    var t0 := NewTunnel(cfg);
    t := TakeTunnelTurn(t0, StartTurn, SMOOTH);
    assert TunnelHandle(t0, OpenTunnel, NoArgs, SMOOTH) == DoSendSccrq(t0.(state := WaitCtlReply), SMOOTH);
    assert t0.sends + [Submission(Sccrq(cfg), true)] == [Submission(Sccrq(cfg), true)];
  }

  /** The peer's reply, as its builder makes it. */
  function Reply(cfg: TunnelConfig, ptid: u16): Request {
    Sccrp(TunnelConfig([], 0, ptid, cfg.tunnelId % 0x1_0000))
  }

  /** A built message whose text fits is what the transport delivers. */
  lemma {:induction false} BuiltIsDelivered(req: Request)
    requires req.PeerTid() <= V2_ID_MAX && req.PeerSid() <= V2_ID_MAX && req.TextFits()
    ensures req.Message().Ok?
    ensures var m := req.Message().value;
            && Delivered(m) && Validates(m) && m.V2? && m.tid == req.PeerTid() && m.sid == req.PeerSid()
            && m.GetType() == Ok(req.MsgType()) && m.WellFormed()
  {
    hide ParseMessages, ControlMessage.ToBytes, ControlMessage.GetType, Validates, Request.Message, Request.TextFits,
      Request.MsgType, Request.PeerTid, Request.PeerSid;
    BuilderCorrect(req);
    RoundTrip(req.Message().value);
  }

  /** The ID the peer assigns, read back. */
  lemma {:induction false} IdIsRead(req: Request)
    requires req.Message().Ok?
    ensures req.Sccrp? ==> FindUint16Avp(req.Message().value.avps, VENDOR_IETF, AVP_TUNNEL_ID) == Ok(req.cfg.tunnelId % 0x1_0000)
    ensures req.Icrp? ==> FindUint16Avp(req.Message().value.avps, VENDOR_IETF, AVP_SESSION_ID) == Ok(req.scfg.sessionId % 0x1_0000)
  {
    hide Request.Message, FindUint16Avp;
    BuiltValuesAreRead(req);
  }

  /** Up, with nothing linked. */
  predicate Established(w: World, cfg: TunnelConfig, ptid: u16) {
    && w.t.Ready() && w.t.state == TunnelEstablished && w.t.established && w.t.xportOpen && !w.t.isClosing
    && w.t.cfg == cfg.(peerTunnelId := ptid)
  }

  lemma {:induction false} UpRun(cfg: TunnelConfig, ptid: u16) returns (run: Run)
    ensures IsRun(cfg, run) && Established(Last(cfg, run), cfg, ptid)
    ensures Last(cfg, run).ix == EMPTY && Last(cfg, run).members == []
  {
    hide Request.Message, TakeTunnelTurn, Delivered, Validates, ControlMessage.GetType;
    var run1 := AskedRun(cfg);
    var w := Last(cfg, run1);
    BuiltIsReply(cfg, ptid);
    var m := Reply(cfg, ptid).Message().value;
    var t := ReplyTakesUp(w.t, cfg, ptid, m);
    var w' := AfterTunnel(w, t);
    assert OpenAll(w) == [];
    run := Extend(cfg, run1, TunnelMove(TunnelMsgTurn(m), SMOOTH), w');
  }

  /** A valid SCCRP for this tunnel that assigns the ID ptid. */
  ghost predicate IsReply(m: ControlMessage, cfg: TunnelConfig, ptid: u16) {
    && m.V2? && m.tid == cfg.tunnelId % 0x1_0000 && Validates(m) && Delivered(m) && m.GetType() == Ok(MSG_SCCRP)
    && FindUint16Avp(m.avps, VENDOR_IETF, AVP_TUNNEL_ID) == Ok(ptid)
  }

  lemma {:induction false} BuiltIsReply(cfg: TunnelConfig, ptid: u16)
    ensures Reply(cfg, ptid).Message().Ok? && IsReply(Reply(cfg, ptid).Message().value, cfg, ptid)
  {
    hide Request.Message, FindUint16Avp, Delivered, Validates, ControlMessage.GetType;
    BuiltIsDelivered(Reply(cfg, ptid));
    IdIsRead(Reply(cfg, ptid));
  }

  lemma {:induction false} ReplyTakesUp(t0: Tunnel, cfg: TunnelConfig, ptid: u16, m: ControlMessage) returns (t: Tunnel)
    requires t0 == NewTunnel(cfg).(state := WaitCtlReply, sends := [Submission(Sccrq(cfg), true)]) && IsReply(m, cfg, ptid)
    ensures !Forwards(t0, m) && t == TakeTunnelTurn(t0, TunnelMsgTurn(m), SMOOTH)
    ensures ComesUp(t0, t) && t.Ready() && t.state == TunnelEstablished && t.xportOpen && !t.isClosing
    ensures t.cfg == cfg.(peerTunnelId := ptid) && t.sends == t0.sends + [Submission(Scccn(t.cfg), true)] && t.notices == [Up]
  {
    hide TunnelHandle, Delivered, Validates, ControlMessage.GetType;
    SccrpHandled(t0, m);
    t := SccrpEstablishes(t0, m, ptid);
  }

  /** A valid SCCRP raises its event. */
  lemma {:induction false} SccrpHandled(t: Tunnel, m: ControlMessage)
    requires ForUs(t, m) && Validates(m) && m.GetType() == Ok(MSG_SCCRP) && !t.halted
    ensures !Forwards(t, m) && TakeTunnelTurn(t, TunnelMsgTurn(m), SMOOTH) == TunnelHandle(t, GotSccrp, Msg(m), SMOOTH)
  {
    hide TunnelHandle, Validates, ControlMessage.GetType;
    assert TunnelEventOf(m) == Some(Some(GotSccrp));
  }

  lemma {:induction false} SccrpEstablishes(t0: Tunnel, m: ControlMessage, ptid: u16) returns (t: Tunnel)
    requires t0.state == WaitCtlReply && t0.xportOpen && !t0.halted && FindUint16Avp(m.avps, VENDOR_IETF, AVP_TUNNEL_ID) == Ok(ptid)
    ensures t == TunnelHandle(t0, GotSccrp, Msg(m), SMOOTH)
    ensures var cfg := t0.cfg.(peerTunnelId := ptid);
            t == t0.(state := TunnelEstablished, cfg := cfg, sends := t0.sends + [Submission(Scccn(cfg), true)], established := true,
                     notices := t0.notices + [Up])
  {
    hide FindUint16Avp, Establish;
    var t1 := t0.(state := TunnelEstablished);
    t := TunnelHandle(t0, GotSccrp, Msg(m), SMOOTH);
    assert t == DoTunnelAction(t1, Some(OnSccrp), Msg(m), SMOOTH);
    assert t == DoOnSccrp(t1, Msg(m), SMOOTH);
    assert t == Establish(t1.(cfg := t0.cfg.(peerTunnelId := ptid)), SMOOTH);
    EstablishesSmoothly(t1.(cfg := t0.cfg.(peerTunnelId := ptid)));
  }

  lemma {:induction false} EstablishesSmoothly(t: Tunnel)
    requires t.state == TunnelEstablished && t.xportOpen && !t.halted && t.cfg.peerTunnelId <= V2_ID_MAX
    ensures Establish(t, SMOOTH) == t.(sends := t.sends + [Submission(Scccn(t.cfg), true)], established := true, notices := t.notices + [Up])
  {
    hide Request.Message, TunnelHandle;
    SessionSafety.Buildable(Scccn(t.cfg));
  }

  // ---------------------------------------------------------------------------
  // Sessions

  /** A session added to a tunnel that is up is linked and told to open. */
  lemma {:induction false} AddRun(cfg: TunnelConfig, run: Run, ptid: u16, name: string, serial: u32, sid: u32) returns (run': Run)
    requires IsRun(cfg, run)
    requires var w := Last(cfg, run);
             Established(w, cfg, ptid) && name !in w.ix.byName && sid !in w.ix.byId
    ensures IsRun(cfg, run')
    ensures var w := Last(cfg, run);
            Last(cfg, run') == World(w.t, w.ix.Link(Ref(|w.members|, name, sid)),
                                     w.members + [Member(NewSession(name, serial, sid), 1, 0, [], 0, false)])
  {
    var w := Last(cfg, run);
    AddLeavesTunnel(w, SMOOTH);
    hide TakeTunnelTurn, AfterTunnel;
    run' := Extend(cfg, run, AddMove(name, serial, sid, SMOOTH), AfterAdd(w, name, serial, sid, SMOOTH));
  }

  /** A new session takes the news that its tunnel is up. */
  lemma {:induction false} OpenTakes(s: Session, ptid: u16, io: SessionIO) returns (s': Session)
    requires s == NewSession(s.name, s.serial, s.cfg.sessionId) && (io.send == Sent || io.send == Failed)
    ensures s' == TakeTurn(s, ptid, OpenTurn, io) && !s'.halted && s'.cfg == s.cfg && s'.name == s.name
    ensures io.send == Sent ==> s'.state == WaitReply && s'.Running() && !s'.established && s'.notices == []
    ensures io.send == Sent ==> s'.sends == [Submission(Icrq(s.serial, ptid, s.cfg), true)]
    ensures io.send == Failed ==> s'.isClosed
  {
    hide Request.Message;
    SessionSafety.Buildable(Icrq(s.serial, ptid, s.cfg));
    s' := TakeTurn(s, ptid, OpenTurn, io);
    assert SessionHandle(s, ptid, TunnelOpen, NoArgs, io) == DoSendIcrq(s.(state := WaitReply), ptid, io);
  }

  // ---------------------------------------------------------------------------
  // A session left up

  /** The turn that handles an ICRP announces the session after closing it when the interface
      name cannot be had. */
  lemma {:induction false} LeftUpWithoutName(s: Session, ptid: u16, icrp: ControlMessage, psid: u16, text: seq<byte>)
    requires s.Running() && s.state == WaitReply && !s.established && s.notices == []
    requires icrp.V2? && icrp.sid == s.cfg.sessionId % 0x1_0000 && Validates(icrp) && icrp.GetType() == Ok(MSG_ICRP)
    requires FindUint16Avp(icrp.avps, VENDOR_IETF, AVP_SESSION_ID) == Ok(psid)
    ensures var s' := TakeTurn(s, ptid, MsgTurn(icrp), SessionIO(Sent, true, false, text));
            s'.isClosed && !s'.halted && s'.notices == [Up]
  {
    hide Request.Message, Validates, FindUint16Avp, ControlMessage.GetType;
    var io := SessionIO(Sent, true, false, text);
    SessionSafety.Buildable(Iccn(ptid, s.cfg.(peerSessionId := psid)));
    var s1 := s.(state := SessionEstablished);
    assert DoOnIcrp(s1, ptid, Msg(icrp), io) == Announce(s1.(cfg := s.cfg.(peerSessionId := psid), setup := Some(io)), ptid, io);
    assert SessionHandle(s, ptid, GotIcrp, Msg(icrp), io) == DoOnIcrp(s1, ptid, Msg(icrp), io);
  }

  /** A session added to a tunnel that is up has sent its call. */
  lemma {:induction false} CalledRun(cfg: TunnelConfig, ptid: u16, name: string, serial: u32, sid: u32) returns (run: Run)
    ensures IsRun(cfg, run)
    ensures var w := Last(cfg, run);
            && Established(w, cfg, ptid) && |w.members| == 1 && w.members[0].inbox == []
            && w.ix == EMPTY.Link(Ref(0, name, sid))
            && w.members[0].s.cfg.sessionId == sid && w.members[0].s.name == name && w.members[0].s.Running()
            && w.members[0].s.state == WaitReply && !w.members[0].s.established && w.members[0].s.notices == []
  {
    hide TakeTurn;
    var run1 := UpRun(cfg, ptid);
    var run2 := AddRun(cfg, run1, ptid, name, serial, sid);
    var w := Last(cfg, run2);
    var s' := OpenTakes(w.members[0].s, ptid, SessionIO(Sent, true, true, []));
    run := Extend(cfg, run2, SessionMove(0, OpenTurn, Answers(true, true, true, [], false)),
                  AfterSession(w, 0, OpenTurn, Answers(true, true, true, [], false)));
  }

  /** The peer's answer to a call, as its builder makes it. */
  function Answer(tid: u16, sid: u16, psid: u16): Request {
    Icrp(tid, SessionConfig(psid, sid))
  }

  /** The tunnel passes the answer on. */
  lemma {:induction false} AnswerPassedOn(cfg: TunnelConfig, run: Run, ptid: u16, name: string, sid: u16, psid: u16)
    returns (run': Run, m: ControlMessage)
    requires IsRun(cfg, run) && Established(Last(cfg, run), cfg, ptid)
    requires |Last(cfg, run).members| == 1 && Last(cfg, run).members[0].inbox == []
    requires Last(cfg, run).ix == EMPTY.Link(Ref(0, name, sid))
    ensures IsRun(cfg, run')
    ensures var w := Last(cfg, run);
            Last(cfg, run') == w.(members := [w.members[0].(inbox := [m])])
    ensures m.V2? && m.sid == sid && Validates(m) && m.GetType() == Ok(MSG_ICRP)
    ensures FindUint16Avp(m.avps, VENDOR_IETF, AVP_SESSION_ID) == Ok(psid)
  {
    hide Request.Message, FindUint16Avp, Delivered, Validates, ControlMessage.GetType;
    var w := Last(cfg, run);
    var req := Answer(cfg.tunnelId % 0x1_0000, sid, psid);
    BuiltIsDelivered(req);
    IdIsRead(req);
    m := req.Message().value;
    PassingLeavesTunnel(w.t, m);
    assert [] + [m] == [m];
    assert w.members[0 := w.members[0].(inbox := [m])] == [w.members[0].(inbox := [m])];
    hide TakeTunnelTurn, Forwards;
    run' := Extend(cfg, run, TunnelMove(TunnelMsgTurn(m), SMOOTH), PassOn(w, m.sid, m));
  }

  lemma {:induction false} PassingLeavesTunnel(t: Tunnel, m: ControlMessage)
    requires t.Ready() && t.state == TunnelEstablished && m.V2? && m.tid == t.cfg.tunnelId % 0x1_0000
    requires Validates(m) && m.GetType() == Ok(MSG_ICRP)
    ensures Forwards(t, m) && TakeTunnelTurn(t, TunnelMsgTurn(m), SMOOTH) == t
  {
    hide Validates, ControlMessage.GetType;
    var (a, dst) := TunnelNext(t.state, SessionMsg).value;
    assert TunnelHandle(t, SessionMsg, Msg(m), SMOOTH) == DoTunnelAction(t.(state := dst), a, Msg(m), SMOOTH);
  }

  /** A run in which a session is announced and never taken back: its call is answered, its
      interface cannot be named, it is closed, and the user has last heard that it is up. */
  lemma {:induction false} SessionLeftUpForGood(cfg: TunnelConfig, ptid: u16, name: string, serial: u32, sid: u16, psid: u16)
    returns (run: Run)
    ensures IsRun(cfg, run)
    ensures var w := Last(cfg, run);
            |w.members| == 1 && w.members[0].s.isClosed && !w.members[0].s.halted && w.members[0].s.notices == [Up]
  {
    hide IsRun, TakeTurn, Validates, FindUint16Avp, ControlMessage.GetType, Index.Link, Index.Unlink;
    var run1 := CalledRun(cfg, ptid, name, serial, sid);
    var run2, m := AnswerPassedOn(cfg, run1, ptid, name, sid, psid);
    var w := Last(cfg, run2);
    var a := Answers(true, true, false, [], false);
    LeftUpWithoutName(w.members[0].s, ptid, m, psid, []);
    run := Extend(cfg, run2, SessionMove(0, MsgTurn(m), a), AfterSession(w, 0, MsgTurn(m), a));
  }

  // ---------------------------------------------------------------------------
  // Maps that disagree

  /** A session may take the name of one the user has closed and that has not ended yet: when
      that one ends, the maps disagree. */
  lemma {:induction false} ReusedNameBreaksAgreement(cfg: TunnelConfig, name: string, sid1: u32, sid2: u32) returns (run: Run)
    requires sid1 != sid2
    ensures IsRun(cfg, run) && !Last(cfg, run).ix.Agrees()
  {
    hide TakeTurn, Index.Agrees;
    var run1 := UpRun(cfg, 1);
    var run2 := AddRun(cfg, run1, 1, name, 1, sid1);
    var w2 := Last(cfg, run2);
    var a, b := Ref(0, name, sid1), Ref(1, name, sid2);
    var w3 := World(w2.t, w2.ix.Unlink(a), w2.members[0 := w2.members[0].(closeAsked := true)]);
    var run3 := Extend(cfg, run2, UserCloseMove(0), w3);
    var run4 := AddRun(cfg, run3, 1, name, 2, sid2);
    var w4 := Last(cfg, run4);
    var ans := Answers(true, true, true, [], false);
    run := Extend(cfg, run4, SessionMove(0, CloseTurn, ans), AfterSession(w4, 0, CloseTurn, ans));
    CloseTakes(w4.members[0].s, 1, SessionIO(Sent, true, true, []));
    TakenNameDisagrees(a, b);
  }

  lemma {:induction false} CloseTakes(s: Session, ptid: u32, io: SessionIO)
    requires s.state == WaitTunnel
    ensures TakeTurn(s, ptid, CloseTurn, io).isClosed
  {
    var why := Code(ResultCode(ADMIN_DISCONNECT, 0, []));
    assert SessionHandle(s, ptid, CloseSession, why, io) == DoAction(s.(state := SessionDead), ptid, CloseAction, why, io);
  }

  lemma {:induction false} TakenNameDisagrees(a: Ref, b: Ref)
    requires a.name == b.name && a.sid != b.sid
    ensures !EMPTY.Link(a).Unlink(a).Link(b).Unlink(a).Agrees()
  {
    assert EMPTY.Link(a).Unlink(a).Link(b).Unlink(a).IdLinked(b);
  }

  /** Closing a session that has already ended takes out of one map the session that has its
      name now. */
  lemma {:induction false} LateCloseBreaksAgreement(cfg: TunnelConfig, name: string, sid1: u32, sid2: u32) returns (run: Run)
    requires sid1 != sid2
    ensures IsRun(cfg, run) && !Last(cfg, run).ix.Agrees()
    ensures run.moves != [] && run.moves[|run.moves| - 1] == UserCloseMove(0)
    ensures run.states[|run.moves| - 1].members[0].s.isClosed
  {
    hide TakeTurn, Index.Agrees;
    var run1 := UpRun(cfg, 1);
    var run2 := AddRun(cfg, run1, 1, name, 1, sid1);
    var w2 := Last(cfg, run2);
    var a, b := Ref(0, name, sid1), Ref(1, name, sid2);
    var s' := OpenTakes(w2.members[0].s, 1, SessionIO(Failed, true, true, []));
    var ans := Answers(false, true, true, [], false);
    var run3 := Extend(cfg, run2, SessionMove(0, OpenTurn, ans), AfterSession(w2, 0, OpenTurn, ans));
    var run4 := AddRun(cfg, run3, 1, name, 2, sid2);
    var w4 := Last(cfg, run4);
    run := Extend(cfg, run4, UserCloseMove(0), World(w4.t, w4.ix.Unlink(a), w4.members[0 := w4.members[0].(closeAsked := true)]));
    TakenNameDisagrees(a, b);
  }
}
