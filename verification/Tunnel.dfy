/** The control-connection state machine of a tunnel (section 7.2.1 of RFC 2661). */
module Tunnels {
  import opened Wire
  import opened Avps
  import opened Payloads
  import opened Messages
  import opened Validation
  import opened Builders
  import opened Fsm
  import opened Sessions

  datatype TunnelState = Idle | WaitCtlReply | TunnelEstablished | TunnelDead
  datatype TunnelEvent = OpenTunnel | GotSccrq | GotSccrp | GotScccn | GotStopccn | AddSession | SessionMsg | CloseTunnel
  datatype TunnelAction = SendSccrq | OnSccrp | OnStopccn | LinkSession | SendStopccn | StartSession | ForwardSessionMsg

  type TunnelRow = EventDesc<TunnelState, TunnelEvent, TunnelAction>

  const TUNNEL_TABLE: seq<TunnelRow> := [
    EventDesc(Idle, [OpenTunnel], Some(SendSccrq), WaitCtlReply),
    EventDesc(WaitCtlReply, [GotSccrp], Some(OnSccrp), TunnelEstablished),
    EventDesc(WaitCtlReply, [GotStopccn], Some(OnStopccn), TunnelDead),
    EventDesc(WaitCtlReply, [AddSession], Some(LinkSession), WaitCtlReply),
    EventDesc(WaitCtlReply, [SessionMsg], None, WaitCtlReply),
    EventDesc(WaitCtlReply, [GotSccrq, GotScccn, CloseTunnel], Some(SendStopccn), TunnelDead),
    EventDesc(TunnelEstablished, [GotStopccn], Some(OnStopccn), TunnelDead),
    EventDesc(TunnelEstablished, [AddSession], Some(StartSession), TunnelEstablished),
    EventDesc(TunnelEstablished, [SessionMsg], Some(ForwardSessionMsg), TunnelEstablished),
    EventDesc(TunnelEstablished, [GotSccrq, GotSccrp, GotScccn, CloseTunnel], Some(SendStopccn), TunnelDead)
  ]

  /** What the table amounts to: the action taken, if any, and the state moved to. */
  function TunnelNext(s: TunnelState, e: TunnelEvent): Option<(Option<TunnelAction>, TunnelState)> {
    match s
    case Idle => if e == OpenTunnel then Some((Some(SendSccrq), WaitCtlReply)) else None
    case WaitCtlReply =>
      (match e
       case OpenTunnel => None
       case GotSccrp => Some((Some(OnSccrp), TunnelEstablished))
       case GotStopccn => Some((Some(OnStopccn), TunnelDead))
       case AddSession => Some((Some(LinkSession), WaitCtlReply))
       case SessionMsg => Some((None, WaitCtlReply))
       case _ => Some((Some(SendStopccn), TunnelDead)))
    case TunnelEstablished =>
      (match e
       case OpenTunnel => None
       case GotStopccn => Some((Some(OnStopccn), TunnelDead))
       case AddSession => Some((Some(StartSession), TunnelEstablished))
       case SessionMsg => Some((Some(ForwardSessionMsg), TunnelEstablished))
       case _ => Some((Some(SendStopccn), TunnelDead)))
    case TunnelDead => None
  }

  function TunnelRowOf(s: TunnelState, e: TunnelEvent): (i: nat)
    requires TunnelNext(s, e).Some?
    ensures i < |TUNNEL_TABLE|
  {
    match s
    case Idle => 0
    case WaitCtlReply =>
      (match e case GotSccrp => 1 case GotStopccn => 2 case AddSession => 3 case SessionMsg => 4 case _ => 5)
    case TunnelEstablished =>
      (match e case GotStopccn => 6 case AddSession => 7 case SessionMsg => 8 case _ => 9)
    case TunnelDead => 0
  }

  lemma {:induction false} OnlyThatTunnelRow(i: nat, s: TunnelState, e: TunnelEvent)
    requires i < |TUNNEL_TABLE| && Takes(TUNNEL_TABLE[i], s, e)
    ensures TunnelNext(s, e).Some? && i == TunnelRowOf(s, e)
  {
  }

  lemma {:induction false} TunnelTableDeterministic()
    ensures Deterministic(TUNNEL_TABLE)
  {
    hide Takes;
    forall i, j, s, e | 0 <= i < j < |TUNNEL_TABLE| && Takes(TUNNEL_TABLE[i], s, e) && Takes(TUNNEL_TABLE[j], s, e)
      ensures false
    {
      OnlyThatTunnelRow(i, s, e);
      OnlyThatTunnelRow(j, s, e);
    }
  }

  lemma {:induction false} TunnelRowIs(s: TunnelState, e: TunnelEvent)
    ensures match TunnelNext(s, e)
            case None => forall i :: 0 <= i < |TUNNEL_TABLE| ==> !Takes(TUNNEL_TABLE[i], s, e)
            case Some((a, t)) =>
              var row := TUNNEL_TABLE[TunnelRowOf(s, e)];
              Takes(row, s, e) && row.cb == a && row.dst == t
  {
  }

  /** The table is that transition function. */
  lemma {:induction false} TunnelTableIs(s: TunnelState, e: TunnelEvent)
    ensures match TunnelNext(s, e)
            case None => Lookup(TUNNEL_TABLE, s, e).None?
            case Some((a, t)) => Lookup(TUNNEL_TABLE, s, e).Some?
                                 && Lookup(TUNNEL_TABLE, s, e).value.cb == a && Lookup(TUNNEL_TABLE, s, e).value.dst == t
  {
    hide Lookup, Takes, TunnelNext, TunnelRowOf, Deterministic;
    TunnelTableDeterministic();
    TunnelRowIs(s, e);
    if TunnelNext(s, e).Some? {
      TheRow(TUNNEL_TABLE, TunnelRowOf(s, e), s, e);
    }
  }

  // ---------------------------------------------------------------------------
  // The tunnel

  /** The environment's answers during one turn: whether the handshake message and a
      StopCCN are acknowledged, whether the data plane comes up, and an error text. */
  datatype TunnelIO = TunnelIO(sent: bool, stopSent: bool, dataPlaneUp: bool, text: seq<byte>)

  const CLEAR_CONNECTION: u16 := 1
  const VENDOR_SPECIFIC: u16 := 6

  /** Closing takes two steps: the sessions are killed and waited for, the tunnel being busy
      meanwhile; then the transport is closed.  A leaving tunnel takes no further turn once
      it is closed; a halted one none at all.  The last two fields are history. */
  datatype Tunnel = Tunnel(
    cfg: TunnelConfig, state: TunnelState, isClosing: bool, established: bool,
    xportOpen: bool, busy: bool, leaving: bool, halted: bool,
    sends: seq<Submission>, notices: seq<Notice>)
  {
    predicate Ready() {
      !busy && !leaving && !halted
    }
  }

  function NewTunnel(cfg: TunnelConfig): Tunnel {
    Tunnel(cfg, Idle, false, false, true, false, false, false, [], [])
  }

  function BeginClose(t: Tunnel): Tunnel {
    if t.isClosing then t else t.(isClosing := true, busy := true)
  }

  function FinishClose(t: Tunnel): Tunnel {
    t.(busy := false, xportOpen := false, established := false,
       notices := if t.established then t.notices + [Down] else t.notices)
  }

  /** Sending on a closed transport panics. */
  function Give(t: Tunnel, req: Request, ok: bool): Tunnel {
    if t.xportOpen then t.(sends := t.sends + [Submission(req, ok)]) else t.(halted := true)
  }

  function DoSendSccrq(t: Tunnel, io: TunnelIO): Tunnel {
    var req := Sccrq(t.cfg);
    if req.Message().Err? then BeginClose(t)
    else
      var t1 := Give(t, req, io.sent);
      if t1.halted || io.sent then t1 else BeginClose(t1)
  }

  /** The outcome of the StopCCN is ignored. */
  function DoSendStopccn(t: Tunnel, rc: ResultCode, io: TunnelIO): Tunnel {
    var req := Stopccn(rc, t.cfg);
    if req.Message().Err? then BeginClose(t)
    else
      var t1 := Give(t, req, io.stopSent);
      if t1.halted then t1 else BeginClose(t1)
  }

  function StopResult(args: Args): ResultCode {
    if args.Code? then args.rc else ResultCode(CLEAR_CONNECTION, 0, [])
  }

  function TunnelRank(s: TunnelState): nat {
    match s
    case Idle => 3
    case WaitCtlReply => 2
    case TunnelEstablished => 1
    case TunnelDead => 0
  }

  /** Complete the handshake, bring up the data plane and announce the tunnel. */
  function Establish(t: Tunnel, io: TunnelIO): Tunnel
    requires t.state == TunnelEstablished
    decreases TunnelRank(t.state), 2
  {
    var req := Scccn(t.cfg);
    if req.Message().Err? then BeginClose(t)
    else
      var t1 := Give(t, req, io.sent);
      if t1.halted then t1
      else if !io.sent then BeginClose(t1)
      else if !io.dataPlaneUp then
        TunnelHandle(t1, CloseTunnel, Code(ResultCode(GENERAL_ERROR, VENDOR_SPECIFIC, io.text)), io)
      else t1.(established := true, notices := t1.notices + [Up])
  }

  function DoOnSccrp(t: Tunnel, args: Args, io: TunnelIO): Tunnel
    requires t.state == TunnelEstablished
    decreases TunnelRank(t.state), 3
  {
    if !args.Msg? then t.(halted := true)
    else
      match FindUint16Avp(args.m.avps, VENDOR_IETF, AVP_TUNNEL_ID)
      case Err(_) => TunnelHandle(t, CloseTunnel, NoArgs, io)
      case Ok(ptid) => Establish(t.(cfg := t.cfg.(peerTunnelId := ptid)), io)
  }

  /** The three actions on sessions leave the tunnel itself alone. */
  function DoTunnelAction(t: Tunnel, a: Option<TunnelAction>, args: Args, io: TunnelIO): Tunnel
    requires a == Some(OnSccrp) ==> t.state == TunnelEstablished
    decreases TunnelRank(t.state), 4
  {
    match a
    case Some(SendSccrq) => DoSendSccrq(t, io)
    case Some(OnSccrp) => DoOnSccrp(t, args, io)
    case Some(OnStopccn) => BeginClose(t)
    case Some(SendStopccn) => DoSendStopccn(t, StopResult(args), io)
    case _ => t
  }

  /** The state moves before the action runs; an event without a transition closes. */
  function TunnelHandle(t: Tunnel, e: TunnelEvent, args: Args, io: TunnelIO): Tunnel
    decreases TunnelRank(t.state), if e == CloseTunnel then 1 else 5
  {
    match TunnelNext(t.state, e)
    case None => BeginClose(t)
    case Some((a, dst)) => DoTunnelAction(t.(state := dst), a, args, io)
  }

  // ---------------------------------------------------------------------------
  // The turns of its loop

  datatype TunnelTurn = StartTurn | TunnelMsgTurn(m: ControlMessage) | AddTurn | TunnelCloseTurn | TransportDownTurn

  /** The event a message raises; the first None is for unknown messages, the second for
      messages that raise no event. */
  function TunnelEventOf(m: ControlMessage): Option<Option<TunnelEvent>> {
    if m.GetType() == Ok(MSG_SCCRQ) then Some(Some(GotSccrq))
    else if m.GetType() == Ok(MSG_SCCRP) then Some(Some(GotSccrp))
    else if m.GetType() == Ok(MSG_SCCCN) then Some(Some(GotScccn))
    else if m.GetType() == Ok(MSG_STOPCCN) then Some(Some(GotStopccn))
    else if m.GetType() == Ok(MSG_HELLO) then Some(None)
    else if EventOf(m).Some? then Some(Some(SessionMsg))
    else None
  }

  predicate ForUs(t: Tunnel, m: ControlMessage) {
    m.V2? && m.tid == t.cfg.tunnelId % 0x1_0000
  }

  ghost function HandleTunnelMsg(t: Tunnel, m: ControlMessage, io: TunnelIO): Tunnel {
    if !ForUs(t, m) then t
    else if m.GetType().Err? then t.(halted := true)
    else
      var bad := Code(ResultCode(GENERAL_ERROR, BAD_VALUE, io.text));
      var t1 := if Validates(m) then t else TunnelHandle(t, CloseTunnel, bad, io);
      if t1.halted then t1
      else
        match TunnelEventOf(m)
        case Some(Some(e)) => TunnelHandle(t1, e, Msg(m), io)
        case Some(None) => t1
        case None => TunnelHandle(t1, CloseTunnel, bad, io)
  }

  /** The session message is passed on to the session it names. */
  ghost predicate Forwards(t: Tunnel, m: ControlMessage) {
    ForUs(t, m) && Validates(m) && TunnelEventOf(m) == Some(Some(SessionMsg)) && t.state == TunnelEstablished
  }

  ghost function TakeTunnelTurn(t: Tunnel, turn: TunnelTurn, io: TunnelIO): Tunnel {
    match turn
    case StartTurn => TunnelHandle(t, OpenTunnel, NoArgs, io)
    case TunnelMsgTurn(m) => HandleTunnelMsg(t, m, io)
    case AddTurn => TunnelHandle(t, AddSession, NoArgs, io)
    case TunnelCloseTurn => TunnelHandle(t, CloseTunnel, Code(ResultCode(CLEAR_CONNECTION, 0, [])), io).(leaving := true)
    case TransportDownTurn => BeginClose(t).(leaving := true)
  }
}
