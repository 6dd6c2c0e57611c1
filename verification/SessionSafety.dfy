/** What every turn of a session keeps. */
module SessionSafety {
  import opened Wire
  import opened Avps
  import opened Payloads
  import opened Messages
  import opened Validation
  import opened Builders
  import opened Sessions

  /** The wire order: nothing, ICRQ, ICRQ CDN, ICRQ ICCN, or ICRQ ICCN CDN; nothing follows a
      message whose transmission failed. */
  predicate InWireOrder(sends: seq<Submission>) {
    && |sends| <= 3
    && (|sends| >= 1 ==> sends[0].req.Icrq?)
    && (|sends| >= 2 ==> sends[0].ok && (sends[1].req.Iccn? || sends[1].req.Cdn?))
    && (|sends| == 3 ==> sends[1].req.Iccn? && sends[1].ok && sends[2].req.Cdn?)
  }

  /** The user is told Up at most once, and Down at most once and only after Up. */
  predicate Paired(s: Session) {
    && (if s.established then s.notices == [Up] else s.notices == [] || s.notices == [Up, Down])
    && (s.notices != [] ==> s.sends != [])
  }

  /** The three-way handshake and the data plane came up without an error. */
  predicate CleanSetup(io: SessionIO) {
    io.send == Sent && io.dataPlaneUp && io.ifnameOk
  }

  predicate StateOk(s: Session) {
    match s.state
    case WaitTunnel => s.sends == [] && s.notices == []
    case WaitReply => |s.sends| <= 1 && s.notices == [] && (s.Running() ==> |s.sends| == 1 && s.sends[0].ok)
    case SessionEstablished =>
      && 1 <= |s.sends| <= 2 && s.sends[0].ok && (|s.sends| == 2 ==> s.sends[1].req.Iccn?)
      && (s.Running() ==> |s.sends| == 2 && s.sends[1].ok && s.established && s.setup.Some? && CleanSetup(s.setup.value))
    case SessionDead => !s.Running()
  }

  /** How the notices of a session that has run to its end relate to its setup. */
  predicate SetupOk(s: Session) {
    && (s.setup.None? ==> s.notices == [])
    && (s.setup.Some? && !s.halted ==>
          if CleanSetup(s.setup.value) then s.established != s.isClosed
          else s.isClosed && s.established)
  }

  predicate SessionOk(s: Session) {
    InWireOrder(s.sends) && Paired(s) && StateOk(s) && SetupOk(s)
  }

  /** At most one message is submitted, under the given peer tunnel ID, and only if the
      tunnel took it. */
  predicate SendsFrom(s: Session, s': Session, ptid: u32, io: SessionIO) {
    || s'.sends == s.sends
    || (&& |s'.sends| == |s.sends| + 1 && s'.sends == s.sends + [s'.sends[|s.sends|]]
        && s'.sends[|s.sends|].req.PeerTid() == ptid && s'.sends[|s.sends|].req.Message().Ok?
        && (io.send == Sent || io.send == Failed))
  }

  lemma {:induction false} CloseNowOk(s: Session)
    requires SessionOk(s) && s.Running()
    ensures SessionOk(CloseNow(s)) && CloseNow(s).sends == s.sends
  {
  }

  /** The effect of an action that sends a message and, whatever becomes of it, closes. */
  lemma {:induction false} SendCdnOk(s: Session, ptid: u32, rc: ResultCode, io: SessionIO)
    requires SessionOk(s) && s.Running() && (s.state == WaitReply || s.state == SessionEstablished)
    ensures var s' := DoSendCdn(s.(state := SessionDead), ptid, rc, io);
            SessionOk(s') && SendsFrom(s, s', ptid, io)
  {
    hide Request.Message, SessionOk;
    DeadOk(s);
    CdnRecordedOk(s, Submission(Cdn(ptid, rc, s.cfg), io.send == Sent));
    assert DoSendCdn(s.(state := SessionDead), ptid, rc, io)
        == (if Cdn(ptid, rc, s.cfg).Message().Err? || io.send == Refused then CloseNow(s.(state := SessionDead))
            else if io.send == Lost then s.(state := SessionDead, halted := true)
            else CdnRecorded(s, Submission(Cdn(ptid, rc, s.cfg), io.send == Sent)));
  }

  /** Closed after a message the tunnel took. */
  function CdnRecorded(s: Session, sub: Submission): Session {
    CloseNow(s.(state := SessionDead, sends := s.sends + [sub]))
  }

  lemma {:induction false} CdnRecordedOk(s: Session, sub: Submission)
    requires SessionOk(s) && s.Running() && (s.state == WaitReply || s.state == SessionEstablished) && sub.req.Cdn?
    ensures SessionOk(CdnRecorded(s, sub)) && CdnRecorded(s, sub).sends == s.sends + [sub]
  {
  }

  lemma {:induction false} SendIcrqOk(s: Session, ptid: u32, io: SessionIO)
    requires SessionOk(s) && s.Running() && s.state == WaitTunnel
    ensures var s' := DoSendIcrq(s.(state := WaitReply), ptid, io);
            SessionOk(s') && SendsFrom(s, s', ptid, io)
  {
    hide Request.Message;
  }

  lemma {:induction false} OnIcrpOk(s: Session, ptid: u32, args: Args, io: SessionIO)
    requires SessionOk(s) && s.Running() && s.state == WaitReply && ptid <= V2_ID_MAX
    ensures var s' := DoOnIcrp(s.(state := SessionEstablished), ptid, args, io);
            SessionOk(s') && SendsFrom(s, s', ptid, io)
  {
    hide FindUint16Avp, DoSendCdn, Announce;
    if args.Msg? {
      match FindUint16Avp(args.m.avps, VENDOR_IETF, AVP_SESSION_ID)
      case Err(_) =>
        var s0, rc := s.(state := SessionEstablished), ResultCode(GENERAL_ERROR, BAD_VALUE, io.text);
        SendCdnOk(s, ptid, rc, io);
        assert SessionHandle(s0, ptid, CloseSession, Code(rc), io) == DoSendCdn(s.(state := SessionDead), ptid, rc, io);
      case Ok(psid) =>
        AnnounceOk(s, ptid, psid, io);
    }
  }

  lemma {:induction false} Buildable(req: Request)
    ensures req.Message().Ok? <==> req.PeerTid() <= V2_ID_MAX && req.PeerSid() <= V2_ID_MAX
  {
    hide ParseMessages, ControlMessage.ToBytes, ControlMessage.GetType, Validates, Request.Message, Request.TextFits;
    BuilderCorrect(req);
  }

  lemma {:induction false} AnnounceOk(s: Session, ptid: u32, psid: u16, io: SessionIO)
    requires SessionOk(s) && s.Running() && s.state == WaitReply && ptid <= V2_ID_MAX
    ensures var s' := Announce(s.(state := SessionEstablished, cfg := s.cfg.(peerSessionId := psid), setup := Some(io)), ptid, io);
            SessionOk(s') && SendsFrom(s, s', ptid, io)
  {
    hide Request.Message;
    var req := Iccn(ptid, s.cfg.(peerSessionId := psid));
    Buildable(req);
    var r := s.sends[0];
    assert s.sends == [r] && [r] + [Submission(req, true)] == [r, Submission(req, true)]
           && [r] + [Submission(req, false)] == [r, Submission(req, false)];
  }

  lemma {:induction false} HandleOk(s: Session, ptid: u32, e: SessionEvent, args: Args, io: SessionIO)
    requires SessionOk(s) && s.Running() && (s.state == WaitReply ==> ptid <= V2_ID_MAX)
    ensures var s' := SessionHandle(s, ptid, e, args, io);
            SessionOk(s') && SendsFrom(s, s', ptid, io)
  {
    hide SessionOk, DoSendIcrq, DoSendCdn, DoOnIcrp, CloseNow;
    match SessionNext(s.state, e)
    case None => CloseNowOk(s);
    case Some((a, t)) =>
      match a
      case SendIcrq => SendIcrqOk(s, ptid, io);
      case SendCdn => SendCdnOk(s, ptid, CdnResult(args), io);
      case OnIcrp => OnIcrpOk(s, ptid, args, io);
      case OnCdn => DeadOk(s);
      case CloseAction => DeadOk(s);
  }

  lemma {:induction false} DeadOk(s: Session)
    requires SessionOk(s) && s.Running()
    ensures SessionOk(CloseNow(s.(state := SessionDead))) && CloseNow(s.(state := SessionDead)).sends == s.sends
    ensures SessionOk(s.(state := SessionDead, halted := true))
  {
  }

  // ---------------------------------------------------------------------------
  // Turns

  /** A close event ends in the dead state, announces nothing and sends at most a CDN. */
  predicate Died(s: Session, s': Session) {
    && s'.state == SessionDead && (s'.halted || (s'.isClosed && !s'.established))
    && s'.setup == s.setup && s'.cfg == s.cfg && (s'.notices == s.notices || s'.notices == s.notices + [Down])
    && (s'.sends == s.sends || (|s'.sends| == |s.sends| + 1 && s'.sends[|s.sends|].req.Cdn?))
  }

  lemma {:induction false} CloseEventDies(s: Session, ptid: u32, args: Args, io: SessionIO)
    ensures Died(s, SessionHandle(s, ptid, CloseSession, args, io))
  {
    SendCdnDies(s, ptid, CdnResult(args), io);
    hide DoSendCdn, CdnResult;
  }

  lemma {:induction false} SendCdnDies(s: Session, ptid: u32, rc: ResultCode, io: SessionIO)
    ensures Died(s, DoSendCdn(s.(state := SessionDead), ptid, rc, io))
  {
    hide Request.Message;
  }

  /** The dead state absorbs every event. */
  lemma {:induction false} DeadAbsorbs(s: Session, ptid: u32, e: SessionEvent, args: Args, io: SessionIO)
    requires s.state == SessionDead && s.isClosed && !s.established
    ensures SessionHandle(s, ptid, e, args, io) == s
  {
  }

  /** After a failed validation the message's own event changes nothing. */
  lemma {:induction false} InvalidTurn(s: Session, ptid: u32, m: ControlMessage, io: SessionIO)
    requires m.V2? && !Validates(m) && m.sid == s.cfg.sessionId % 0x1_0000
    ensures var s1 := SessionHandle(s, ptid, CloseSession, Code(ResultCode(GENERAL_ERROR, BAD_VALUE, io.text)), io);
            HandleSessionMsg(s, ptid, m, io) == if m.GetType().Err? then s.(halted := true) else s1
  {
    hide Validates, SessionHandle, ControlMessage.GetType, EventOf;
    var bad := Code(ResultCode(GENERAL_ERROR, BAD_VALUE, io.text));
    CloseEventDies(s, ptid, bad, io);
    var s1 := SessionHandle(s, ptid, CloseSession, bad, io);
    if !s1.halted && m.GetType().Ok? {
      match EventOf(m)
      case Some(e) => DeadAbsorbs(s1, ptid, e, Msg(m), io);
      case None => DeadAbsorbs(s1, ptid, CloseSession, bad, io);
    }
  }

  /** A message that fails validation never establishes a session: unless it is dropped for
      carrying another session's ID, the session dies, whatever the message claims to be, or
      is stopped by a message whose type cannot be read. */
  lemma {:induction false} InvalidMessageKills(s: Session, ptid: u32, m: ControlMessage, io: SessionIO)
    requires m.V2? && !Validates(m)
    ensures var s' := HandleSessionMsg(s, ptid, m, io);
            if m.sid != s.cfg.sessionId % 0x1_0000 then s' == s
            else if m.GetType().Err? then s' == s.(halted := true)
            else Died(s, s')
  {
    hide Validates, SessionHandle, ControlMessage.GetType, EventOf;
    if m.sid == s.cfg.sessionId % 0x1_0000 {
      CloseEventDies(s, ptid, Code(ResultCode(GENERAL_ERROR, BAD_VALUE, io.text)), io);
      InvalidTurn(s, ptid, m, io);
    }
  }

  lemma {:induction false} MsgTurnOk(s: Session, ptid: u32, m: ControlMessage, io: SessionIO)
    requires SessionOk(s) && s.Running() && (s.state == WaitReply ==> ptid <= V2_ID_MAX)
    ensures var s' := HandleSessionMsg(s, ptid, m, io);
            SessionOk(s') && SendsFrom(s, s', ptid, io)
  {
    hide Validates, SessionHandle, ControlMessage.GetType, EventOf, StateOk, SetupOk, InWireOrder;
    if m.V2? && m.sid == s.cfg.sessionId % 0x1_0000 {
      var bad := Code(ResultCode(GENERAL_ERROR, BAD_VALUE, io.text));
      HandleOk(s, ptid, CloseSession, bad, io);
      HaltedOk(s);
      if !Validates(m) {
        CloseEventDies(s, ptid, bad, io);
        HaltedOk(SessionHandle(s, ptid, CloseSession, bad, io));
        InvalidTurn(s, ptid, m, io);
      } else if EventOf(m).Some? {
        HandleOk(s, ptid, EventOf(m).value, Msg(m), io);
      }
    }
  }

  lemma {:induction false} HaltedOk(s: Session)
    requires SessionOk(s)
    ensures SessionOk(s.(halted := true))
  {
  }

  /** Every turn of a running session keeps its invariant. */
  lemma {:induction false} TurnOk(s: Session, ptid: u32, turn: SessionTurn, io: SessionIO)
    requires SessionOk(s) && s.Running() && (s.state == WaitReply ==> ptid <= V2_ID_MAX)
    ensures var s' := TakeTurn(s, ptid, turn, io);
            SessionOk(s') && SendsFrom(s, s', ptid, io)
  {
    hide SessionHandle, HandleSessionMsg, SessionOk, CloseNow;
    match turn
    case MsgTurn(m) => MsgTurnOk(s, ptid, m, io);
    case OpenTurn => HandleOk(s, ptid, TunnelOpen, NoArgs, io);
    case KillTurn => CloseNowOk(s);
    case CloseTurn => HandleOk(s, ptid, CloseSession, Code(ResultCode(ADMIN_DISCONNECT, 0, [])), io);
  }

  // ---------------------------------------------------------------------------
  // What a turn leaves alone

  /** A session keeps its name and ID, and its state's rank never rises. */
  predicate SameKeys(s: Session, s': Session) {
    s'.name == s.name && s'.cfg.sessionId == s.cfg.sessionId && SessionRank(s'.state) <= SessionRank(s.state)
  }

  /** It leaves its first state only by dying or by the tunnel-open event. */
  predicate Keeps(s: Session, s': Session, byOpen: bool) {
    && SameKeys(s, s')
    && (s.state in {WaitTunnel, SessionDead} && !byOpen ==> s'.state in {WaitTunnel, SessionDead} && s'.sends == s.sends)
  }

  lemma {:induction false} HandleKeeps(s: Session, ptid: u32, e: SessionEvent, args: Args, io: SessionIO)
    ensures Keeps(s, SessionHandle(s, ptid, e, args, io), e == TunnelOpen)
  {
    hide DoSendCdn, DoOnIcrp, DoSendIcrq;
    match SessionNext(s.state, e)
    case None =>
    case Some((a, t)) =>
      match a
      case SendIcrq => SendIcrqKeeps(s.(state := t), ptid, io);
      case SendCdn => SendCdnKeeps(s.(state := t), ptid, CdnResult(args), io);
      case OnIcrp => OnIcrpKeeps(s.(state := t), ptid, args, io);
      case OnCdn =>
      case CloseAction =>
  }

  lemma {:induction false} SendIcrqKeeps(s: Session, ptid: u32, io: SessionIO)
    ensures SameKeys(s, DoSendIcrq(s, ptid, io))
  {
    hide Request.Message;
  }

  lemma {:induction false} SendCdnKeeps(s: Session, ptid: u32, rc: ResultCode, io: SessionIO)
    ensures SameKeys(s, DoSendCdn(s, ptid, rc, io))
  {
    hide Request.Message;
  }

  lemma {:induction false} OnIcrpKeeps(s: Session, ptid: u32, args: Args, io: SessionIO)
    requires s.state == SessionEstablished
    ensures SameKeys(s, DoOnIcrp(s, ptid, args, io))
  {
    hide FindUint16Avp, DoSendCdn, Request.Message;
    if args.Msg? && FindUint16Avp(args.m.avps, VENDOR_IETF, AVP_SESSION_ID).Err? {
      var rc := ResultCode(GENERAL_ERROR, BAD_VALUE, io.text);
      SendCdnKeeps(s.(state := SessionDead), ptid, rc, io);
      assert SessionHandle(s, ptid, CloseSession, Code(rc), io) == DoSendCdn(s.(state := SessionDead), ptid, rc, io);
    }
  }

  lemma {:induction false} TurnKeeps(s: Session, ptid: u32, turn: SessionTurn, io: SessionIO)
    ensures Keeps(s, TakeTurn(s, ptid, turn, io), turn == OpenTurn)
  {
    hide SessionHandle, Validates, ControlMessage.GetType;
    match turn
    case MsgTurn(m) =>
      var bad := Code(ResultCode(GENERAL_ERROR, BAD_VALUE, io.text));
      HandleKeeps(s, ptid, CloseSession, bad, io);
      var s1 := if Validates(m) then s else SessionHandle(s, ptid, CloseSession, bad, io);
      HandleKeeps(s1, ptid, CloseSession, bad, io);
      if EventOf(m).Some? {
        HandleKeeps(s1, ptid, EventOf(m).value, Msg(m), io);
      }
    case OpenTurn => HandleKeeps(s, ptid, TunnelOpen, NoArgs, io);
    case KillTurn =>
    case CloseTurn => HandleKeeps(s, ptid, CloseSession, Code(ResultCode(ADMIN_DISCONNECT, 0, [])), io);
  }

  // ---------------------------------------------------------------------------
  // How a session is set up

  /** The setup and the IDs are as they were. */
  predicate SameSetup(s: Session, s': Session) {
    s'.setup == s.setup && s'.cfg == s.cfg
  }

  lemma {:induction false} HandleSetsUp(s: Session, ptid: u32, e: SessionEvent, args: Args, io: SessionIO)
    ensures var s' := SessionHandle(s, ptid, e, args, io);
            || SameSetup(s, s')
            || (&& s.state == WaitReply && e == GotIcrp && args.Msg?
                && FindUint16Avp(args.m.avps, VENDOR_IETF, AVP_SESSION_ID) == Ok(s'.cfg.peerSessionId))
  {
    hide DoSendCdn, DoOnIcrp, DoSendIcrq, FindUint16Avp;
    match SessionNext(s.state, e)
    case None =>
    case Some((a, t)) =>
      match a
      case SendIcrq => SendIcrqSetup(s.(state := t), ptid, io);
      case SendCdn => SendCdnDies(s, ptid, CdnResult(args), io);
      case OnIcrp => OnIcrpSetsUp(s.(state := t), ptid, args, io);
      case OnCdn =>
      case CloseAction =>
  }

  lemma {:induction false} SendIcrqSetup(s: Session, ptid: u32, io: SessionIO)
    ensures SameSetup(s, DoSendIcrq(s, ptid, io))
  {
  }

  lemma {:induction false} OnIcrpSetsUp(s: Session, ptid: u32, args: Args, io: SessionIO)
    requires s.state == SessionEstablished
    ensures var s' := DoOnIcrp(s, ptid, args, io);
            || SameSetup(s, s')
            || (args.Msg? && FindUint16Avp(args.m.avps, VENDOR_IETF, AVP_SESSION_ID) == Ok(s'.cfg.peerSessionId))
  {
    hide FindUint16Avp, SessionHandle, Request.Message;
    if args.Msg? && FindUint16Avp(args.m.avps, VENDOR_IETF, AVP_SESSION_ID).Err? {
      CloseEventDies(s, ptid, Code(ResultCode(GENERAL_ERROR, BAD_VALUE, io.text)), io);
    }
  }

  /** A valid ICRP for this session, with the peer's session ID. */
  ghost predicate AcceptedIcrp(m: ControlMessage, sid: u32, psid: u32) {
    && m.V2? && m.sid == sid % 0x1_0000 && Validates(m) && m.GetType() == Ok(MSG_ICRP)
    && FindUint16Avp(m.avps, VENDOR_IETF, AVP_SESSION_ID) == Ok(psid)
  }

  /** Only a valid ICRP that comes while the session waits for one sets it up, and gives it
      the peer's session ID. */
  lemma {:induction false} TurnSetsUp(s: Session, ptid: u32, turn: SessionTurn, io: SessionIO)
    ensures var s' := TakeTurn(s, ptid, turn, io);
            || SameSetup(s, s')
            || (s.state == WaitReply && turn.MsgTurn? && AcceptedIcrp(turn.m, s.cfg.sessionId, s'.cfg.peerSessionId))
  {
    hide SessionHandle, Validates, ControlMessage.GetType, FindUint16Avp, Died;
    match turn
    case MsgTurn(m) =>
      var bad := Code(ResultCode(GENERAL_ERROR, BAD_VALUE, io.text));
      HandleSetsUp(s, ptid, CloseSession, bad, io);
      if m.V2? && !Validates(m) {
        InvalidMessageKills(s, ptid, m, io);
        DiedSetup(s, HandleSessionMsg(s, ptid, m, io));
      } else if EventOf(m).Some? {
        HandleSetsUp(s, ptid, EventOf(m).value, Msg(m), io);
      }
    case OpenTurn => HandleSetsUp(s, ptid, TunnelOpen, NoArgs, io);
    case KillTurn =>
    case CloseTurn => HandleSetsUp(s, ptid, CloseSession, Code(ResultCode(ADMIN_DISCONNECT, 0, [])), io);
  }

  lemma {:induction false} DiedSetup(s: Session, s': Session)
    ensures Died(s, s') ==> SameSetup(s, s')
  {
  }
}
