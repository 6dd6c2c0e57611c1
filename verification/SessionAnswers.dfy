/** What a session does with each message and each request, by the numbers on the wire
    (section 7.4.1 of RFC 2661). */
module SessionAnswers {
  import opened Wire
  import opened Avps
  import opened Payloads
  import opened Messages
  import opened Validation
  import opened Builders
  import opened Sessions
  import opened SessionSafety

  /** Closed; the user is told if it was up. */
  function Closed(s: Session): Session {
    s.(isClosed := true, established := false, notices := if s.established then s.notices + [Down] else s.notices)
  }

  function Ended(s: Session): Session {
    Closed(s).(state := SessionDead)
  }

  /** The record of a message the tunnel took. */
  function Sending(s: Session, req: Request, out: Outcome): Session {
    if out == Sent || out == Failed then s.(sends := s.sends + [Submission(req, out == Sent)]) else s
  }

  /** Ended with a CDN of this result, error code and text, whether or not it got through. */
  function Disconnected(s: Session, ptid: u32, result: u16, errCode: u16, text: seq<byte>, io: SessionIO): Session {
    var s1 := Sending(s, Cdn(ptid, ResultCode(result, errCode, text), s.cfg), io.send);
    if io.send == Lost then s.(state := SessionDead, halted := true) else Ended(s1)
  }

  /** The reply to our ICRQ, which assigns the ID psid: the ICCN goes out under it.  The session
      is announced unless the data plane is missing, which halts it; it is closed all the same
      if the ICCN was not acknowledged or the interface has no name. */
  function Replied(s: Session, ptid: u32, psid: u16, io: SessionIO): Session {
    var cfg := s.cfg.(peerSessionId := psid);
    var s1 := Sending(s.(state := SessionEstablished, cfg := cfg, setup := Some(io)), Iccn(ptid, cfg), io.send);
    if io.send == Lost then s1.(halted := true)
    else if !io.dataPlaneUp then s1.(isClosed := true, halted := true)
    else s1.(isClosed := io.send != Sent || !io.ifnameOk, established := true, notices := s.notices + [Up])
  }

  /** A session that can send. */
  predicate Able(s: Session, ptid: u32) {
    s.Running() && ptid <= 0xffff && s.cfg.peerSessionId <= 0xffff
  }

  lemma {:induction false} CdnIs(s: Session, ptid: u32, rc: ResultCode, io: SessionIO)
    requires Able(s, ptid)
    ensures DoSendCdn(s.(state := SessionDead), ptid, rc, io) == Disconnected(s, ptid, rc.result, rc.errCode, rc.errMsg, io)
  {
    hide Request.Message;
    SessionSafety.Buildable(Cdn(ptid, rc, s.cfg));
  }

  lemma {:induction false} ReplyIs(s: Session, ptid: u32, m: ControlMessage, psid: u16, io: SessionIO)
    requires Able(s, ptid) && s.state == WaitReply && !s.established && FindUint16Avp(m.avps, 0, 14) == Ok(psid)
    ensures DoOnIcrp(s.(state := SessionEstablished), ptid, Msg(m), io) == Replied(s, ptid, psid, io)
  {
    hide Request.Message, FindUint16Avp;
    SessionSafety.Buildable(Iccn(ptid, s.cfg.(peerSessionId := psid)));
  }

  lemma {:induction false} EventIs(s: Session, ptid: u32, e: SessionEvent, m: ControlMessage, io: SessionIO)
    requires Able(s, ptid) && s.state != SessionDead && (s.state == WaitReply ==> !s.established) && e != TunnelOpen && e != CloseSession
    requires e == GotIcrp && s.state == WaitReply ==> FindUint16Avp(m.avps, 0, 14).Ok?
    ensures SessionHandle(s, ptid, e, Msg(m), io) ==
            match s.state
            case WaitTunnel => Closed(s)
            case WaitReply =>
              if e == GotIcrp then Replied(s, ptid, FindUint16Avp(m.avps, 0, 14).value, io)
              else if e == GotIcrq then Disconnected(s, ptid, 3, 0, [], io)
              else Ended(s)
            case _ => if e == GotCdn then Ended(s) else Disconnected(s, ptid, 3, 0, [], io)
  {
    hide FindUint16Avp, DoSendCdn, DoOnIcrp, Replied, Disconnected;
    CdnIs(s, ptid, ResultCode(3, 0, []), io);
    if e == GotIcrp && s.state == WaitReply {
      ReplyIs(s, ptid, m, FindUint16Avp(m.avps, 0, 14).value, io);
    }
    match SessionNext(s.state, e)
    case None =>
    case Some((a, t)) =>
      assert SessionHandle(s, ptid, e, Msg(m), io) == DoAction(s.(state := t), ptid, a, Msg(m), io);
  }

  lemma {:induction false} CloseIs(s: Session, ptid: u32, rc: ResultCode, io: SessionIO)
    requires Able(s, ptid) && s.state != SessionDead
    ensures SessionHandle(s, ptid, CloseSession, Code(rc), io) ==
            if s.state == WaitTunnel then Ended(s) else Disconnected(s, ptid, rc.result, rc.errCode, rc.errMsg, io)
  {
    hide DoSendCdn, Disconnected;
    CdnIs(s, ptid, rc, io);
    var (a, t) := SessionNext(s.state, CloseSession).value;
    assert SessionHandle(s, ptid, CloseSession, Code(rc), io) == DoAction(s.(state := t), ptid, a, Code(rc), io);
  }

  /** Every valid message for a session, by its type number.  Before the tunnel is up each closes
      it.  Waiting for a reply: an ICRP (11) is the reply, an ICCN (12) or CDN (14) the end, and an
      ICRQ (10) is answered with a CDN.  Once up: a CDN is the end, the others are answered
      with a CDN.  A message that belongs to a tunnel (1, 2, 3, 4, 6) is answered like an invalid one. */
  lemma {:induction false} AnswersValid(s: Session, ptid: u32, m: ControlMessage, io: SessionIO)
    requires Able(s, ptid) && s.state != SessionDead && (s.state == WaitReply ==> !s.established)
    requires m.V2? && m.sid == s.cfg.sessionId % 0x1_0000 && Validates(m) && AllWellFormed(m.avps)
    ensures var s' := TakeTurn(s, ptid, MsgTurn(m), io);
            && m.GetType().Ok?
            && var n := m.GetType().value;
               && n in {1, 2, 3, 4, 6, 10, 11, 12, 14}
               && (n in {1, 2, 3, 4, 6} ==>
                     s' == if s.state == WaitTunnel then Ended(s) else Disconnected(s, ptid, 2, 3, io.text, io))
               && (n in {10, 11, 12, 14} && s.state == WaitTunnel ==> s' == Closed(s))
               && (n == 10 && s.state == WaitReply ==> s' == Disconnected(s, ptid, 3, 0, [], io))
               && (n == 11 && s.state == WaitReply ==>
                     && FindUint16Avp(m.avps, 0, 14).Ok? && s' == Replied(s, ptid, FindUint16Avp(m.avps, 0, 14).value, io))
               && (n in {12, 14} && s.state == WaitReply ==> s' == Ended(s))
               && (n in {10, 11, 12} && s.state == SessionEstablished ==> s' == Disconnected(s, ptid, 3, 0, [], io))
               && (n == 14 && s.state == SessionEstablished ==> s' == Ended(s))
  {
    hide FindUint16Avp, Validates, ControlMessage.GetType, SessionHandle, Replied, Disconnected;
    ValidatesV2Iff(m);
    ValidatedLookup(m);
    CloseIs(s, ptid, ResultCode(2, 3, io.text), io);
    if EventOf(m).Some? {
      EventIs(s, ptid, EventOf(m).value, m, io);
    }
  }

  /** A message for this session that fails validation, but whose type can be read, is answered
      with a CDN of result 2, error 3, if the session has called; one for another session or
      version is not looked at. */
  lemma {:induction false} AnswersOthers(s: Session, ptid: u32, m: ControlMessage, io: SessionIO)
    requires Able(s, ptid) && s.state != SessionDead
    ensures var s' := TakeTurn(s, ptid, MsgTurn(m), io);
            && (!(m.V2? && m.sid == s.cfg.sessionId % 0x1_0000) ==> s' == s)
            && (m.V2? && m.sid == s.cfg.sessionId % 0x1_0000 && m.GetType().Err? ==> s' == s.(halted := true))
            && (m.V2? && m.sid == s.cfg.sessionId % 0x1_0000 && m.GetType().Ok? && !Validates(m) ==>
                  s' == if s.state == WaitTunnel then Ended(s) else Disconnected(s, ptid, 2, 3, io.text, io))
  {
    hide Validates, ControlMessage.GetType, SessionHandle, EventOf, Disconnected;
    if m.V2? && m.sid == s.cfg.sessionId % 0x1_0000 && !Validates(m) {
      InvalidTurn(s, ptid, m, io);
      CloseIs(s, ptid, ResultCode(2, 3, io.text), io);
    }
  }

  /** The other turns.  Told that the tunnel is up, a session calls, and closes if the ICRQ is
      refused or not acknowledged; told so again, it closes.  The user's close is answered with a CDN of
      result 3 once it has called; a kill closes it without a word. */
  lemma {:induction false} AnswersRequests(s: Session, ptid: u32, io: SessionIO)
    requires Able(s, ptid) && s.state != SessionDead && (s.state == WaitTunnel ==> !s.established)
    ensures TakeTurn(s, ptid, OpenTurn, io) ==
            if s.state != WaitTunnel then Closed(s)
            else
              var s1 := Sending(s.(state := WaitReply), Icrq(s.serial, ptid, s.cfg), io.send);
              if io.send == Lost then s1.(halted := true) else s1.(isClosed := io.send != Sent)
    ensures TakeTurn(s, ptid, CloseTurn, io) == if s.state == WaitTunnel then Ended(s) else Disconnected(s, ptid, 3, 0, [], io)
    ensures TakeTurn(s, ptid, KillTurn, io) == Closed(s)
  {
    hide SessionHandle, Disconnected;
    CloseIs(s, ptid, ResultCode(3, 0, []), io);
    OpenIs(s, ptid, io);
  }

  lemma {:induction false} OpenIs(s: Session, ptid: u32, io: SessionIO)
    requires Able(s, ptid) && s.state != SessionDead && (s.state == WaitTunnel ==> !s.established)
    ensures SessionHandle(s, ptid, TunnelOpen, NoArgs, io) ==
            if s.state != WaitTunnel then Closed(s)
            else
              var s1 := Sending(s.(state := WaitReply), Icrq(s.serial, ptid, s.cfg), io.send);
              if io.send == Lost then s1.(halted := true) else s1.(isClosed := io.send != Sent)
  {
    hide Request.Message;
    SessionSafety.Buildable(Icrq(s.serial, ptid, s.cfg));
    if s.state == WaitTunnel {
      assert SessionHandle(s, ptid, TunnelOpen, NoArgs, io) == DoSendIcrq(s.(state := WaitReply), ptid, io);
    }
  }
}
