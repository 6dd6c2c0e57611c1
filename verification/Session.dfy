/** The incoming-call state machine of a session (section 7.4.1 of RFC 2661). */
module Sessions {
  import opened Wire
  import opened Avps
  import opened Payloads
  import opened Messages
  import opened Validation
  import opened Builders
  import opened Fsm

  datatype SessionState = WaitTunnel | WaitReply | SessionEstablished | SessionDead
  datatype SessionEvent = TunnelOpen | GotIcrq | GotIcrp | GotIccn | GotCdn | CloseSession
  datatype SessionAction = SendIcrq | OnIcrp | SendCdn | OnCdn | CloseAction

  type SessionRow = EventDesc<SessionState, SessionEvent, SessionAction>

  const SESSION_TABLE: seq<SessionRow> := [
    EventDesc(WaitTunnel, [TunnelOpen], Some(SendIcrq), WaitReply),
    EventDesc(WaitTunnel, [CloseSession], Some(CloseAction), SessionDead),
    EventDesc(WaitReply, [GotIcrp], Some(OnIcrp), SessionEstablished),
    EventDesc(WaitReply, [GotIccn], Some(CloseAction), SessionDead),
    EventDesc(WaitReply, [GotCdn], Some(OnCdn), SessionDead),
    EventDesc(WaitReply, [GotIcrq, CloseSession], Some(SendCdn), SessionDead),
    EventDesc(SessionEstablished, [GotCdn], Some(OnCdn), SessionDead),
    EventDesc(SessionEstablished, [GotIcrq, GotIcrp, GotIccn, CloseSession], Some(SendCdn), SessionDead)
  ]

  /** What the table amounts to: the action taken and the state moved to. */
  function SessionNext(s: SessionState, e: SessionEvent): Option<(SessionAction, SessionState)> {
    match s
    case WaitTunnel =>
      (match e
       case TunnelOpen => Some((SendIcrq, WaitReply))
       case CloseSession => Some((CloseAction, SessionDead))
       case _ => None)
    case WaitReply =>
      (match e
       case GotIcrp => Some((OnIcrp, SessionEstablished))
       case GotIccn => Some((CloseAction, SessionDead))
       case GotCdn => Some((OnCdn, SessionDead))
       case GotIcrq => Some((SendCdn, SessionDead))
       case CloseSession => Some((SendCdn, SessionDead))
       case TunnelOpen => None)
    case SessionEstablished =>
      (match e
       case GotCdn => Some((OnCdn, SessionDead))
       case TunnelOpen => None
       case _ => Some((SendCdn, SessionDead)))
    case SessionDead => None
  }

  function SessionRowOf(s: SessionState, e: SessionEvent): (i: nat)
    requires SessionNext(s, e).Some?
    ensures i < |SESSION_TABLE|
  {
    match s
    case WaitTunnel => if e == TunnelOpen then 0 else 1
    case WaitReply => (match e case GotIcrp => 2 case GotIccn => 3 case GotCdn => 4 case _ => 5)
    case SessionEstablished => if e == GotCdn then 6 else 7
    case SessionDead => 0
  }

  lemma {:induction false} OnlyThatRow(i: nat, s: SessionState, e: SessionEvent)
    requires i < |SESSION_TABLE| && Takes(SESSION_TABLE[i], s, e)
    ensures SessionNext(s, e).Some? && i == SessionRowOf(s, e)
  {
  }

  lemma {:induction false} SessionTableDeterministic()
    ensures Deterministic(SESSION_TABLE)
  {
    hide Takes;
    forall i, j, s, e | 0 <= i < j < |SESSION_TABLE| && Takes(SESSION_TABLE[i], s, e) && Takes(SESSION_TABLE[j], s, e)
      ensures false
    {
      OnlyThatRow(i, s, e);
      OnlyThatRow(j, s, e);
    }
  }

  lemma {:induction false} SessionRowIs(s: SessionState, e: SessionEvent)
    ensures match SessionNext(s, e)
            case None => forall i :: 0 <= i < |SESSION_TABLE| ==> !Takes(SESSION_TABLE[i], s, e)
            case Some((a, t)) =>
              var row := SESSION_TABLE[SessionRowOf(s, e)];
              Takes(row, s, e) && row.cb == Some(a) && row.dst == t
  {
  }

  /** The table is that transition function. */
  lemma {:induction false} SessionTableIs(s: SessionState, e: SessionEvent)
    ensures match SessionNext(s, e)
            case None => Lookup(SESSION_TABLE, s, e).None?
            case Some((a, t)) => Lookup(SESSION_TABLE, s, e).Some?
                                 && Lookup(SESSION_TABLE, s, e).value.cb == Some(a) && Lookup(SESSION_TABLE, s, e).value.dst == t
  {
    hide Lookup, Takes, SessionNext, SessionRowOf, Deterministic;
    SessionTableDeterministic();
    SessionRowIs(s, e);
    if SessionNext(s, e).Some? {
      TheRow(SESSION_TABLE, SessionRowOf(s, e), s, e);
    }
  }

  // ---------------------------------------------------------------------------
  // The session

  /** What becomes of a message handed to the tunnel: refused because the tunnel is shutting
      down, given to the transport and failed there, or sent and acknowledged.  Lost when
      the transport is already closed, where the program panics or waits for ever. */
  datatype Outcome = Refused | Failed | Sent | Lost

  /** The environment's answers during one turn: the fate of a message, whether the data
      plane comes up and names its interface, and the text of an error message. */
  datatype SessionIO = SessionIO(send: Outcome, dataPlaneUp: bool, ifnameOk: bool, text: seq<byte>)

  /** A message given to the transport, and whether its transmission succeeded. */
  datatype Submission = Submission(req: Request, ok: bool)

  /** What the user is told. */
  datatype Notice = Up | Down

  const GENERAL_ERROR: u16 := 2
  const ADMIN_DISCONNECT: u16 := 3
  const BAD_VALUE: u16 := 3

  /** The last three fields are history; setup is the environment's answers to the turn
      that handled the ICRP.  A halted session never takes another turn. */
  datatype Session = Session(
    name: string, serial: u32, cfg: SessionConfig, state: SessionState,
    isClosed: bool, established: bool, halted: bool,
    sends: seq<Submission>, notices: seq<Notice>, setup: Option<SessionIO>)
  {
    predicate Running() {
      !isClosed && !halted
    }
  }

  function NewSession(name: string, serial: u32, sid: u32): Session {
    Session(name, serial, SessionConfig(sid, 0), WaitTunnel, false, false, false, [], [], None)
  }

  function CloseNow(s: Session): Session {
    if s.established
    then s.(established := false, notices := s.notices + [Down], isClosed := true)
    else s.(isClosed := true)
  }

  /** A failed transmission closes the session. */
  function Submit(s: Session, req: Request, out: Outcome): Session {
    match out
    case Lost => s.(halted := true)
    case Refused => CloseNow(s)
    case Failed => CloseNow(s.(sends := s.sends + [Submission(req, false)]))
    case Sent => s.(sends := s.sends + [Submission(req, true)])
  }

  function DoSendIcrq(s: Session, ptid: u32, io: SessionIO): Session {
    var req := Icrq(s.serial, ptid, s.cfg);
    if req.Message().Err? then CloseNow(s) else Submit(s, req, io.send)
  }

  function DoSendCdn(s: Session, ptid: u32, rc: ResultCode, io: SessionIO): Session {
    var req := Cdn(ptid, rc, s.cfg);
    if req.Message().Err? then CloseNow(s)
    else
      var s' := Submit(s, req, io.send);
      if s'.halted then s' else CloseNow(s')
  }

  /** The arguments of an event. */
  datatype Args = NoArgs | Msg(m: ControlMessage) | Code(rc: ResultCode)

  function CdnResult(args: Args): ResultCode {
    if args.Code? then args.rc else ResultCode(ADMIN_DISCONNECT, 0, [])
  }

  function SessionRank(s: SessionState): nat {
    match s
    case WaitTunnel => 3
    case WaitReply => 2
    case SessionEstablished => 1
    case SessionDead => 0
  }

  /** Complete the handshake and announce the session.  A refused or failed ICCN closes the
      session, and so does a missing interface name, but in both cases the turn goes on to
      announce it.  Without a data plane the next call is on a nil value. */
  function Announce(s: Session, ptid: u32, io: SessionIO): Session {
    var req := Iccn(ptid, s.cfg);
    if req.Message().Err? then CloseNow(s)
    else
      var s1 := Submit(s, req, io.send);
      if s1.halted then s1
      else if !io.dataPlaneUp then CloseNow(s1).(halted := true)
      else
        var s2 := if io.ifnameOk then s1 else CloseNow(s1);
        s2.(established := true, notices := s2.notices + [Up])
  }

  /** The reply to our call. */
  function DoOnIcrp(s: Session, ptid: u32, args: Args, io: SessionIO): Session
    requires s.state == SessionEstablished
    decreases SessionRank(s.state), 2
  {
    if !args.Msg? then s.(halted := true)
    else
      match FindUint16Avp(args.m.avps, VENDOR_IETF, AVP_SESSION_ID)
      case Err(_) => SessionHandle(s, ptid, CloseSession, Code(ResultCode(GENERAL_ERROR, BAD_VALUE, io.text)), io)
      case Ok(psid) => Announce(s.(cfg := s.cfg.(peerSessionId := psid), setup := Some(io)), ptid, io)
  }

  function DoAction(s: Session, ptid: u32, a: SessionAction, args: Args, io: SessionIO): Session
    requires a == OnIcrp ==> s.state == SessionEstablished
    decreases SessionRank(s.state), 3
  {
    match a
    case SendIcrq => DoSendIcrq(s, ptid, io)
    case OnIcrp => DoOnIcrp(s, ptid, args, io)
    case SendCdn => DoSendCdn(s, ptid, CdnResult(args), io)
    case OnCdn => if args.Msg? then CloseNow(s) else s.(halted := true)
    case CloseAction => CloseNow(s)
  }

  /** The state moves before the action runs; an event without a transition closes. */
  function SessionHandle(s: Session, ptid: u32, e: SessionEvent, args: Args, io: SessionIO): Session
    decreases SessionRank(s.state), 1
  {
    match SessionNext(s.state, e)
    case None => CloseNow(s)
    case Some((a, t)) => DoAction(s.(state := t), ptid, a, args, io)
  }

  // ---------------------------------------------------------------------------
  // The turns of its loop

  datatype SessionTurn = MsgTurn(m: ControlMessage) | OpenTurn | KillTurn | CloseTurn

  function EventOf(m: ControlMessage): Option<SessionEvent> {
    if m.GetType() == Ok(MSG_ICRQ) then Some(GotIcrq)
    else if m.GetType() == Ok(MSG_ICRP) then Some(GotIcrp)
    else if m.GetType() == Ok(MSG_ICCN) then Some(GotIccn)
    else if m.GetType() == Ok(MSG_CDN) then Some(GotCdn)
    else None
  }

  /** Reading the type of a message may panic.  A message that fails validation raises a close
      event; the turn then goes on to raise the message's own event too. */
  ghost function HandleSessionMsg(s: Session, ptid: u32, m: ControlMessage, io: SessionIO): Session {
    if !m.V2? || m.sid != s.cfg.sessionId % 0x1_0000 then s
    else if m.GetType().Err? then s.(halted := true)
    else
      var bad := Code(ResultCode(GENERAL_ERROR, BAD_VALUE, io.text));
      var s1 := if Validates(m) then s else SessionHandle(s, ptid, CloseSession, bad, io);
      if s1.halted then s1
      else
        match EventOf(m)
        case Some(e) => SessionHandle(s1, ptid, e, Msg(m), io)
        case None => SessionHandle(s1, ptid, CloseSession, bad, io)
  }

  ghost function TakeTurn(s: Session, ptid: u32, turn: SessionTurn, io: SessionIO): Session {
    match turn
    case MsgTurn(m) => HandleSessionMsg(s, ptid, m, io)
    case OpenTurn => SessionHandle(s, ptid, TunnelOpen, NoArgs, io)
    case KillTurn => CloseNow(s)
    case CloseTurn => SessionHandle(s, ptid, CloseSession, Code(ResultCode(ADMIN_DISCONNECT, 0, [])), io)
  }
}
