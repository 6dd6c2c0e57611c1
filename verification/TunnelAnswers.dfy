/** What a tunnel does with each message and each request, by the numbers on the wire
    (section 7.2.1 of RFC 2661). */
module TunnelAnswers {
  import opened Wire
  import opened Avps
  import opened Payloads
  import opened Messages
  import opened Validation
  import opened Builders
  import opened Sessions
  import opened Tunnels
  import opened TunnelSafety
  import SessionSafety

  /** Its loop is free, and it is not closing or closed. */
  predicate Open(t: Tunnel) {
    t.Ready() && !t.isClosing && t.xportOpen && t.cfg.peerTunnelId <= 0xffff
  }

  /** Dead, and its closing begun. */
  function Ended(t: Tunnel): Tunnel {
    t.(state := TunnelDead, isClosing := true, busy := true)
  }

  /** The same after a StopCCN with this result, error code and text. */
  function Stopped(t: Tunnel, result: u16, errCode: u16, text: seq<byte>, acked: bool): Tunnel {
    Ended(t).(sends := t.sends + [Submission(Stopccn(ResultCode(result, errCode, text), t.cfg), acked)])
  }

  /** The reply to our SCCRQ, which assigns the ID ptid: the SCCCN goes out under it.  If it is
      not acknowledged the tunnel closes; if the data plane does not come up it stops; otherwise
      it is up. */
  function Replied(t: Tunnel, ptid: u16, io: TunnelIO): Tunnel {
    var cfg := t.cfg.(peerTunnelId := ptid);
    var t1 := t.(state := TunnelEstablished, cfg := cfg, sends := t.sends + [Submission(Scccn(cfg), io.sent)]);
    if !io.sent then t1.(isClosing := true, busy := true)
    else if !io.dataPlaneUp then Stopped(t1, 2, 6, io.text, io.stopSent)
    else t1.(established := true, notices := t.notices + [Up])
  }

  lemma {:induction false} StopIs(t: Tunnel, rc: ResultCode, io: TunnelIO)
    requires t.xportOpen && !t.halted && !t.isClosing && t.cfg.peerTunnelId <= 0xffff
    ensures DoSendStopccn(t.(state := TunnelDead), rc, io) == Stopped(t, rc.result, rc.errCode, rc.errMsg, io.stopSent)
  {
    hide Request.Message;
    SessionSafety.Buildable(Stopccn(rc, t.cfg));
  }

  lemma {:induction false} ReplyIs(t: Tunnel, m: ControlMessage, ptid: u16, io: TunnelIO)
    requires Open(t) && t.state == WaitCtlReply && FindUint16Avp(m.avps, 0, 9) == Ok(ptid)
    ensures DoOnSccrp(t.(state := TunnelEstablished), Msg(m), io) == Replied(t, ptid, io)
  {
    hide FindUint16Avp, Establish;
    EstablishIs(t, ptid, io);
  }

  lemma {:induction false} EstablishIs(t: Tunnel, ptid: u16, io: TunnelIO)
    requires Open(t)
    ensures Establish(t.(state := TunnelEstablished, cfg := t.cfg.(peerTunnelId := ptid)), io) == Replied(t, ptid, io)
  {
    hide Request.Message, DoSendStopccn;
    var t0 := t.(state := TunnelEstablished, cfg := t.cfg.(peerTunnelId := ptid));
    SessionSafety.Buildable(Scccn(t0.cfg));
    if io.sent && !io.dataPlaneUp {
      var t1, rc := t0.(sends := t.sends + [Submission(Scccn(t0.cfg), true)]), ResultCode(2, 6, io.text);
      StopIs(t1, rc, io);
      assert TunnelHandle(t1, CloseTunnel, Code(rc), io) == DoSendStopccn(t1.(state := TunnelDead), rc, io);
    }
  }

  lemma {:induction false} EventIs(t: Tunnel, e: TunnelEvent, m: ControlMessage, io: TunnelIO)
    requires Open(t) && (t.state == WaitCtlReply || t.state == TunnelEstablished)
    requires e == GotSccrp && t.state == WaitCtlReply ==> FindUint16Avp(m.avps, 0, 9).Ok?
    ensures TunnelHandle(t, e, Msg(m), io) ==
            match e
            case OpenTunnel => t.(isClosing := true, busy := true)
            case AddSession => t
            case SessionMsg => t
            case GotStopccn => Ended(t)
            case GotSccrp =>
              if t.state == WaitCtlReply then Replied(t, FindUint16Avp(m.avps, 0, 9).value, io)
              else Stopped(t, 1, 0, [], io.stopSent)
            case _ => Stopped(t, 1, 0, [], io.stopSent)
  {
    hide FindUint16Avp, DoSendStopccn, DoOnSccrp, Replied;
    StopIs(t, ResultCode(1, 0, []), io);
    if e == GotSccrp && t.state == WaitCtlReply {
      ReplyIs(t, m, FindUint16Avp(m.avps, 0, 9).value, io);
    }
    match TunnelNext(t.state, e)
    case None =>
    case Some((a, dst)) =>
      assert TunnelHandle(t, e, Msg(m), io) == DoTunnelAction(t.(state := dst), a, Msg(m), io);
  }

  /** Every valid message for an open tunnel, by its type number.  Waiting for a reply: an
      SCCRP (2) is the reply, a StopCCN (4) the end; an SCCRQ (1) or SCCCN (3) is answered with a
      StopCCN; a HELLO (6) or a session's message (10, 11, 12, 14) changes nothing.  Once up: the same,
      except that an SCCRP is answered with a StopCCN too. */
  lemma {:induction false} AnswersValid(t: Tunnel, m: ControlMessage, io: TunnelIO)
    requires Open(t) && (t.state == WaitCtlReply || t.state == TunnelEstablished)
    requires m.V2? && m.tid == t.cfg.tunnelId % 0x1_0000 && Validates(m) && AllWellFormed(m.avps)
    ensures var t' := TakeTunnelTurn(t, TunnelMsgTurn(m), io);
            && m.GetType().Ok?
            && var n := m.GetType().value;
               && n in {1, 2, 3, 4, 6, 10, 11, 12, 14}
               && (n in {1, 3} ==> t' == Stopped(t, 1, 0, [], io.stopSent))
               && (n == 2 && t.state == TunnelEstablished ==> t' == Stopped(t, 1, 0, [], io.stopSent))
               && (n == 2 && t.state == WaitCtlReply ==>
                     && FindUint16Avp(m.avps, 0, 9).Ok? && t' == Replied(t, FindUint16Avp(m.avps, 0, 9).value, io))
               && (n == 4 ==> t' == Ended(t))
               && (n in {6, 10, 11, 12, 14} ==> t' == t)
  {
    hide FindUint16Avp, Validates, ControlMessage.GetType, TunnelHandle, Replied;
    ValidatesV2Iff(m);
    ValidatedLookup(m);
    if m.GetType() != Ok(6) {
      EventIs(t, TunnelEventOf(m).value.value, m, io);
    }
  }

  /** A message for this tunnel that fails validation, but whose type can be read, is answered
      with a StopCCN of result 2, error 3; one for another tunnel or version is not looked at. */
  lemma {:induction false} AnswersOthers(t: Tunnel, m: ControlMessage, io: TunnelIO)
    requires Open(t) && (t.state == WaitCtlReply || t.state == TunnelEstablished)
    ensures var t' := TakeTunnelTurn(t, TunnelMsgTurn(m), io);
            && (!(m.V2? && m.tid == t.cfg.tunnelId % 0x1_0000) ==> t' == t)
            && (m.V2? && m.tid == t.cfg.tunnelId % 0x1_0000 && m.GetType().Err? ==> t' == t.(halted := true))
            && (m.V2? && m.tid == t.cfg.tunnelId % 0x1_0000 && m.GetType().Ok? && !Validates(m) ==>
                  t' == Stopped(t, 2, 3, io.text, io.stopSent))
  {
    hide Validates, ControlMessage.GetType, TunnelHandle, TunnelEventOf;
    if ForUs(t, m) && !Validates(m) {
      InvalidTunnelTurn(t, m, io);
      CloseIs(t, ResultCode(2, 3, io.text), io);
    }
  }

  lemma {:induction false} CloseIs(t: Tunnel, rc: ResultCode, io: TunnelIO)
    requires Open(t) && (t.state == WaitCtlReply || t.state == TunnelEstablished)
    ensures TunnelHandle(t, CloseTunnel, Code(rc), io) == Stopped(t, rc.result, rc.errCode, rc.errMsg, io.stopSent)
  {
    hide DoSendStopccn;
    StopIs(t, rc, io);
    assert TunnelHandle(t, CloseTunnel, Code(rc), io) == DoSendStopccn(t.(state := TunnelDead), rc, io);
  }

  /** Closed, but its loop goes on: nothing is closed twice, and sending stops the program. */
  predicate Shut(t: Tunnel) {
    t.Ready() && t.isClosing && !t.xportOpen && t.cfg.peerTunnelId <= 0xffff
  }

  /** A valid message for a closed tunnel whose loop has not ended: where an open tunnel would
      send, this one halts; a StopCCN is its end; the rest changes nothing. */
  lemma {:induction false} AnswersWhenShut(t: Tunnel, m: ControlMessage, io: TunnelIO)
    requires Shut(t) && (t.state == WaitCtlReply || t.state == TunnelEstablished)
    requires m.V2? && m.tid == t.cfg.tunnelId % 0x1_0000 && Validates(m) && AllWellFormed(m.avps)
    ensures var t' := TakeTunnelTurn(t, TunnelMsgTurn(m), io);
            && m.GetType().Ok?
            && var n := m.GetType().value;
               && (n in {1, 3} || (n == 2 && t.state == TunnelEstablished) ==> t' == t.(state := TunnelDead, halted := true))
               && (n == 2 && t.state == WaitCtlReply ==>
                     && FindUint16Avp(m.avps, 0, 9).Ok?
                     && t' == t.(state := TunnelEstablished, cfg := t.cfg.(peerTunnelId := FindUint16Avp(m.avps, 0, 9).value), halted := true))
               && (n == 4 ==> t' == t.(state := TunnelDead))
               && (n in {6, 10, 11, 12, 14} ==> t' == t)
  {
    hide FindUint16Avp, Validates, ControlMessage.GetType, TunnelHandle;
    ValidatesV2Iff(m);
    ValidatedLookup(m);
    if m.GetType() != Ok(6) {
      ShutEventIs(t, TunnelEventOf(m).value.value, m, io);
    }
  }

  lemma {:induction false} ShutEventIs(t: Tunnel, e: TunnelEvent, m: ControlMessage, io: TunnelIO)
    requires Shut(t) && (t.state == WaitCtlReply || t.state == TunnelEstablished)
    requires e == GotSccrp && t.state == WaitCtlReply ==> FindUint16Avp(m.avps, 0, 9).Ok?
    ensures e in {GotSccrq, GotSccrp, GotScccn, GotStopccn, SessionMsg} ==>
              TunnelHandle(t, e, Msg(m), io) ==
              match e
              case SessionMsg => t
              case GotStopccn => t.(state := TunnelDead)
              case GotSccrp =>
                if t.state == WaitCtlReply
                then t.(state := TunnelEstablished, cfg := t.cfg.(peerTunnelId := FindUint16Avp(m.avps, 0, 9).value), halted := true)
                else t.(state := TunnelDead, halted := true)
              case _ => t.(state := TunnelDead, halted := true)
  {
    hide FindUint16Avp, Request.Message;
    SessionSafety.Buildable(Stopccn(ResultCode(1, 0, []), t.cfg));
    var (a, dst) := if TunnelNext(t.state, e).Some? then TunnelNext(t.state, e).value else (None, t.state);
    if TunnelNext(t.state, e).Some? {
      assert TunnelHandle(t, e, Msg(m), io) == DoTunnelAction(t.(state := dst), a, Msg(m), io);
    }
    if e == GotSccrp && t.state == WaitCtlReply {
      var ptid := FindUint16Avp(m.avps, 0, 9).value;
      SessionSafety.Buildable(Scccn(t.cfg.(peerTunnelId := ptid)));
      var t1 := t.(state := TunnelEstablished);
      assert DoTunnelAction(t1, a, Msg(m), io) == DoOnSccrp(t1, Msg(m), io);
      assert DoOnSccrp(t1, Msg(m), io) == Establish(t1.(cfg := t1.cfg.(peerTunnelId := ptid)), io);
    }
  }

  /** The other turns.  A new tunnel sends its SCCRQ, under tunnel ID 0, and closes if that is not
      acknowledged; a session changes nothing in the tunnel; the user's close is answered
      with a StopCCN of result 1; a transport that is down begins the closing. */
  lemma {:induction false} AnswersRequests(t: Tunnel, cfg: TunnelConfig, io: TunnelIO)
    requires Open(t) && (t.state == WaitCtlReply || t.state == TunnelEstablished)
    ensures TakeTunnelTurn(NewTunnel(cfg), StartTurn, io) ==
            NewTunnel(cfg).(state := WaitCtlReply, sends := [Submission(Sccrq(cfg), io.sent)], isClosing := !io.sent, busy := !io.sent)
    ensures TakeTunnelTurn(t, AddTurn, io) == t
    ensures TakeTunnelTurn(t, TunnelCloseTurn, io) == Stopped(t, 1, 0, [], io.stopSent).(leaving := true)
    ensures TakeTunnelTurn(t, TransportDownTurn, io) == t.(isClosing := true, busy := true, leaving := true)
  {
    hide Request.Message, TunnelHandle;
    StartIs(cfg, io);
    AddIs(t, io);
    CloseIs(t, ResultCode(1, 0, []), io);
  }

  lemma {:induction false} StartIs(cfg: TunnelConfig, io: TunnelIO)
    ensures TunnelHandle(NewTunnel(cfg), OpenTunnel, NoArgs, io) ==
            NewTunnel(cfg).(state := WaitCtlReply, sends := [Submission(Sccrq(cfg), io.sent)], isClosing := !io.sent, busy := !io.sent)
  {
    hide Request.Message;
    SessionSafety.Buildable(Sccrq(cfg));
    var t := NewTunnel(cfg);
    assert TunnelHandle(t, OpenTunnel, NoArgs, io) == DoSendSccrq(t.(state := WaitCtlReply), io);
    assert [] + [Submission(Sccrq(cfg), io.sent)] == [Submission(Sccrq(cfg), io.sent)];
  }

  lemma {:induction false} AddIs(t: Tunnel, io: TunnelIO)
    requires t.state == WaitCtlReply || t.state == TunnelEstablished
    ensures TunnelHandle(t, AddSession, NoArgs, io) == t
  {
    var (a, dst) := TunnelNext(t.state, AddSession).value;
    assert TunnelHandle(t, AddSession, NoArgs, io) == DoTunnelAction(t.(state := dst), a, NoArgs, io);
  }
}
