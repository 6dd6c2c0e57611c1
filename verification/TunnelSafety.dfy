/** What every turn of a tunnel keeps. */
module TunnelSafety {
  import opened Wire
  import opened Avps
  import opened Payloads
  import opened Messages
  import opened Validation
  import opened Builders
  import opened Sessions
  import opened Tunnels
  import SessionSafety

  /** The wire order: a prefix of SCCRQ, an optional SCCCN, an optional StopCCN; nothing
      follows a message whose transmission failed. */
  predicate InTunnelOrder(sends: seq<Submission>) {
    && |sends| <= 3
    && (|sends| >= 1 ==> sends[0].req.Sccrq?)
    && (|sends| >= 2 ==> sends[0].ok && (sends[1].req.Scccn? || sends[1].req.Stopccn?))
    && (|sends| == 3 ==> sends[1].req.Scccn? && sends[1].ok && sends[2].req.Stopccn?)
  }

  /** The handshake has completed: SCCCN was acknowledged under the peer's tunnel ID. */
  predicate Shaken(t: Tunnel) {
    && |t.sends| >= 2 && t.sends[1].req.Scccn? && t.sends[1].ok
    && t.sends[1].req.PeerTid() == t.cfg.peerTunnelId <= V2_ID_MAX
  }

  predicate TunnelPaired(t: Tunnel) {
    if t.established then t.notices == [Up] && Shaken(t)
    else t.notices == [] || (t.notices == [Up, Down] && Shaken(t) && !t.xportOpen)
  }

  predicate Phases(t: Tunnel) {
    && (t.busy ==> t.isClosing)
    && (t.xportOpen <==> !t.isClosing || t.busy)
    && (!t.xportOpen ==> !t.established)
    && (t.leaving && !t.halted ==> t.isClosing)
  }

  predicate TunnelStateOk(t: Tunnel) {
    match t.state
    case Idle => t == NewTunnel(t.cfg)
    case WaitCtlReply => |t.sends| <= 1 && t.notices == [] && (!t.isClosing ==> |t.sends| == 1 && t.sends[0].ok)
    case TunnelEstablished =>
      && |t.sends| <= 2 && (|t.sends| == 2 ==> t.sends[1].req.Scccn?)
      && (!t.halted ==> |t.sends| >= 1 && t.sends[0].ok)
      && (!t.isClosing && !t.halted ==> t.established)
    case TunnelDead => t.isClosing || t.halted
  }

  predicate TunnelOk(t: Tunnel) {
    InTunnelOrder(t.sends) && TunnelPaired(t) && Phases(t) && TunnelStateOk(t)
  }

  /** Handshakes, the peer's tunnel ID and a closed transport stay. */
  predicate Advances(t: Tunnel, t': Tunnel) {
    && t.sends <= t'.sends && t.notices <= t'.notices
    && (t.isClosing ==> t'.isClosing) && (!t.xportOpen ==> !t'.xportOpen)
    && (Shaken(t) ==> t'.cfg == t.cfg)
    && (t.established ==> t'.established || !t'.xportOpen)
    && TunnelRank(t'.state) <= TunnelRank(t.state)
  }

  lemma {:induction false} BeginCloseOk(t: Tunnel)
    requires TunnelOk(t) && t.state != Idle
    ensures TunnelOk(BeginClose(t)) && Advances(t, BeginClose(t))
  {
  }

  lemma {:induction false} FinishCloseOk(t: Tunnel)
    requires TunnelOk(t) && t.busy
    ensures TunnelOk(FinishClose(t)) && Advances(t, FinishClose(t))
    // once closing completes, every Up has its Down
    ensures FinishClose(t).notices == [] || FinishClose(t).notices == [Up, Down]
  {
  }

  lemma {:induction false} SendSccrqOk(t: Tunnel, io: TunnelIO)
    requires TunnelOk(t) && t.state == Idle
    ensures var t' := DoSendSccrq(t.(state := WaitCtlReply), io);
            TunnelOk(t') && Advances(t, t')
  {
  }

  lemma {:induction false} SendStopccnOk(t: Tunnel, rc: ResultCode, io: TunnelIO)
    requires TunnelOk(t) && t.Ready() && (t.state == WaitCtlReply || t.state == TunnelEstablished)
    ensures var t' := DoSendStopccn(t.(state := TunnelDead), rc, io);
            TunnelOk(t') && Advances(t, t')
  {
    hide Request.Message;
  }

  /** After an acknowledged SCCCN the tunnel is either announced or closed with a StopCCN. */
  lemma {:induction false} EstablishOk(t: Tunnel, ptid: u16, io: TunnelIO)
    requires TunnelOk(t) && t.Ready() && t.state == WaitCtlReply
    ensures var t' := Establish(t.(state := TunnelEstablished, cfg := t.cfg.(peerTunnelId := ptid)), io);
            TunnelOk(t') && Advances(t, t')
  {
    hide Request.Message, DoSendStopccn;
    var t0 := t.(state := TunnelEstablished, cfg := t.cfg.(peerTunnelId := ptid));
    var req := Scccn(t0.cfg);
    SessionSafety.Buildable(req);
    if t.xportOpen {
      assert t.sends == [t.sends[0]];
      if io.sent {
        var t1 := t0.(sends := t.sends + [Submission(req, true)]);
        var up := t1.(established := true, notices := [Up]);
        assert TunnelOk(up);
        if !io.dataPlaneUp {
          var rc := ResultCode(GENERAL_ERROR, VENDOR_SPECIFIC, io.text);
          StopAfterScccn(t, t1, rc, io);
          assert TunnelHandle(t1, CloseTunnel, Code(rc), io) == DoSendStopccn(t1.(state := TunnelDead), rc, io);
        }
      }
    }
  }

  lemma {:induction false} StopAfterScccn(t: Tunnel, t1: Tunnel, rc: ResultCode, io: TunnelIO)
    requires TunnelOk(t) && t.Ready() && t.state == WaitCtlReply && t.xportOpen
    requires t1 == t.(state := TunnelEstablished, cfg := t1.cfg, sends := t.sends + [Submission(Scccn(t1.cfg), true)])
    requires t1.cfg.peerTunnelId <= V2_ID_MAX
    ensures var t' := DoSendStopccn(t1.(state := TunnelDead), rc, io);
            TunnelOk(t') && Advances(t, t')
  {
    hide Request.Message;
    assert t.sends == [t.sends[0]];
  }

  lemma {:induction false} OnSccrpOk(t: Tunnel, args: Args, io: TunnelIO)
    requires TunnelOk(t) && t.Ready() && t.state == WaitCtlReply
    ensures var t' := DoOnSccrp(t.(state := TunnelEstablished), args, io);
            TunnelOk(t') && Advances(t, t')
  {
    hide FindUint16Avp, Establish, DoSendStopccn;
    if args.Msg? {
      match FindUint16Avp(args.m.avps, VENDOR_IETF, AVP_TUNNEL_ID)
      case Err(_) =>
        var rc := StopResult(NoArgs);
        SendStopccnOk(t, rc, io);
        assert TunnelHandle(t.(state := TunnelEstablished), CloseTunnel, NoArgs, io)
            == DoSendStopccn(t.(state := TunnelDead), rc, io);
      case Ok(ptid) => EstablishOk(t, ptid, io);
    }
  }

  lemma {:induction false} TunnelHandleOk(t: Tunnel, e: TunnelEvent, args: Args, io: TunnelIO)
    requires TunnelOk(t) && t.Ready() && (t.state == Idle <==> e == OpenTunnel)
    ensures var t' := TunnelHandle(t, e, args, io);
            TunnelOk(t') && Advances(t, t')
  {
    hide TunnelOk, DoSendSccrq, DoSendStopccn, DoOnSccrp, BeginClose;
    match TunnelNext(t.state, e)
    case None => BeginCloseOk(t);
    case Some((a, dst)) =>
      match a
      case Some(SendSccrq) => SendSccrqOk(t, io);
      case Some(OnSccrp) => OnSccrpOk(t, args, io);
      case Some(OnStopccn) => DieOk(t);
      case Some(SendStopccn) => SendStopccnOk(t, StopResult(args), io);
      case _ =>
  }

  lemma {:induction false} DieOk(t: Tunnel)
    requires TunnelOk(t) && t.Ready() && t.state != Idle
    ensures var t' := BeginClose(t.(state := TunnelDead));
            TunnelOk(t') && Advances(t, t')
  {
  }

  // ---------------------------------------------------------------------------
  // Turns

  /** A close event ends in the dead state, announces nothing and sends at most a StopCCN. */
  predicate TunnelDied(t: Tunnel, t': Tunnel) {
    && t'.state == TunnelDead && (t'.halted || t'.isClosing)
    && t'.established == t.established && t'.notices == t.notices && t'.cfg == t.cfg
    && (t'.sends == t.sends || (|t'.sends| == |t.sends| + 1 && t'.sends[|t.sends|].req.Stopccn?))
  }

  lemma {:induction false} TunnelCloseDies(t: Tunnel, args: Args, io: TunnelIO)
    requires t.state != Idle
    requires t.state == TunnelDead ==> t.isClosing || t.halted
    ensures TunnelDied(t, TunnelHandle(t, CloseTunnel, args, io))
  {
    SendStopDies(t, StopResult(args), io);
    hide DoSendStopccn, StopResult;
  }

  lemma {:induction false} SendStopDies(t: Tunnel, rc: ResultCode, io: TunnelIO)
    ensures TunnelDied(t, DoSendStopccn(t.(state := TunnelDead), rc, io))
  {
    hide Request.Message;
  }

  /** The dead state absorbs every event. */
  lemma {:induction false} TunnelDeadAbsorbs(t: Tunnel, e: TunnelEvent, args: Args, io: TunnelIO)
    requires t.state == TunnelDead && t.isClosing
    ensures TunnelHandle(t, e, args, io) == t
  {
  }

  /** After a failed validation the message's own event changes nothing. */
  lemma {:induction false} InvalidTunnelTurn(t: Tunnel, m: ControlMessage, io: TunnelIO)
    requires ForUs(t, m) && !Validates(m) && t.state != Idle && (t.state == TunnelDead ==> t.isClosing || t.halted)
    ensures var t1 := TunnelHandle(t, CloseTunnel, Code(ResultCode(GENERAL_ERROR, BAD_VALUE, io.text)), io);
            HandleTunnelMsg(t, m, io) == if m.GetType().Err? then t.(halted := true) else t1
  {
    hide Validates, TunnelHandle, ControlMessage.GetType, TunnelEventOf;
    var bad := Code(ResultCode(GENERAL_ERROR, BAD_VALUE, io.text));
    TunnelCloseDies(t, bad, io);
    var t1 := TunnelHandle(t, CloseTunnel, bad, io);
    if !t1.halted && m.GetType().Ok? {
      match TunnelEventOf(m)
      case Some(Some(e)) => TunnelDeadAbsorbs(t1, e, Msg(m), io);
      case Some(None) =>
      case None => TunnelDeadAbsorbs(t1, CloseTunnel, bad, io);
    }
  }

  /** A message that fails validation never establishes a tunnel: unless it is dropped for
      carrying another tunnel's ID, the tunnel dies, whatever the message claims to be, or is
      stopped by a message whose type cannot be read. */
  lemma {:induction false} InvalidMessageStops(t: Tunnel, m: ControlMessage, io: TunnelIO)
    requires !Validates(m) && t.state != Idle && (t.state == TunnelDead ==> t.isClosing || t.halted)
    ensures var t' := HandleTunnelMsg(t, m, io);
            if !ForUs(t, m) then t' == t
            else if m.GetType().Err? then t' == t.(halted := true)
            else TunnelDied(t, t')
  {
    hide Validates, TunnelHandle, ControlMessage.GetType, TunnelEventOf;
    if ForUs(t, m) {
      TunnelCloseDies(t, Code(ResultCode(GENERAL_ERROR, BAD_VALUE, io.text)), io);
      InvalidTunnelTurn(t, m, io);
    }
  }

  lemma {:induction false} TunnelHaltedOk(t: Tunnel)
    requires TunnelOk(t) && t.state != Idle
    ensures TunnelOk(t.(halted := true)) && Advances(t, t.(halted := true))
  {
  }

  lemma {:induction false} TunnelMsgOk(t: Tunnel, m: ControlMessage, io: TunnelIO)
    requires TunnelOk(t) && t.Ready() && t.state != Idle
    ensures var t' := HandleTunnelMsg(t, m, io);
            TunnelOk(t') && Advances(t, t')
  {
    hide Validates, TunnelHandle, ControlMessage.GetType, TunnelEventOf, InTunnelOrder, TunnelPaired, Phases;
    if ForUs(t, m) {
      var bad := Code(ResultCode(GENERAL_ERROR, BAD_VALUE, io.text));
      TunnelHandleOk(t, CloseTunnel, bad, io);
      TunnelHaltedOk(t);
      if !Validates(m) {
        InvalidTunnelTurn(t, m, io);
      } else if TunnelEventOf(m).Some? && TunnelEventOf(m).value.Some? {
        NeverOpens(m);
        TunnelHandleOk(t, TunnelEventOf(m).value.value, Msg(m), io);
      }
    }
  }

  lemma {:induction false} NeverOpens(m: ControlMessage)
    ensures TunnelEventOf(m) != Some(Some(OpenTunnel))
  {
  }

  /** Every turn of a ready tunnel keeps its invariant, and moves it only onward. */
  lemma {:induction false} TunnelTurnOk(t: Tunnel, turn: TunnelTurn, io: TunnelIO)
    requires TunnelOk(t) && t.Ready() && (t.state == Idle <==> turn == StartTurn)
    ensures var t' := TakeTunnelTurn(t, turn, io);
            TunnelOk(t') && Advances(t, t')
  {
    hide TunnelHandle, HandleTunnelMsg, BeginClose, InTunnelOrder, TunnelPaired;
    match turn
    case StartTurn => TunnelHandleOk(t, OpenTunnel, NoArgs, io);
    case TunnelMsgTurn(m) => TunnelMsgOk(t, m, io);
    case AddTurn => TunnelHandleOk(t, AddSession, NoArgs, io);
    case TunnelCloseTurn =>
      TunnelHandleOk(t, CloseTunnel, Code(ResultCode(CLEAR_CONNECTION, 0, [])), io);
      TunnelCloseDies(t, Code(ResultCode(CLEAR_CONNECTION, 0, [])), io);
      LeavingOk(t, TunnelHandle(t, CloseTunnel, Code(ResultCode(CLEAR_CONNECTION, 0, [])), io));
    case TransportDownTurn =>
      BeginCloseOk(t);
      BeginCloseCloses(t);
      LeavingOk(t, BeginClose(t));
  }

  /** No turn closes the transport: that is the end of closing. */
  lemma {:induction false} TurnKeepsOpen(t: Tunnel, turn: TunnelTurn, io: TunnelIO)
    ensures TakeTunnelTurn(t, turn, io).xportOpen == t.xportOpen
  {
    hide TunnelHandle, Validates, ControlMessage.GetType, TunnelEventOf;
    var bad := Code(ResultCode(GENERAL_ERROR, BAD_VALUE, io.text));
    match turn
    case StartTurn => HandleKeepsOpen(t, OpenTunnel, NoArgs, io);
    case TunnelMsgTurn(m) =>
      HandleKeepsOpen(t, CloseTunnel, bad, io);
      var t1 := if Validates(m) then t else TunnelHandle(t, CloseTunnel, bad, io);
      HandleKeepsOpen(t1, CloseTunnel, bad, io);
      if TunnelEventOf(m).Some? && TunnelEventOf(m).value.Some? {
        HandleKeepsOpen(t1, TunnelEventOf(m).value.value, Msg(m), io);
      }
    case AddTurn => HandleKeepsOpen(t, AddSession, NoArgs, io);
    case TunnelCloseTurn => HandleKeepsOpen(t, CloseTunnel, Code(ResultCode(CLEAR_CONNECTION, 0, [])), io);
    case TransportDownTurn =>
  }

  lemma {:induction false} HandleKeepsOpen(t: Tunnel, e: TunnelEvent, args: Args, io: TunnelIO)
    ensures TunnelHandle(t, e, args, io).xportOpen == t.xportOpen
  {
    if TunnelNext(t.state, e).Some? && TunnelNext(t.state, e).value.0 == Some(OnSccrp) {
      hide *;
      OnSccrpKeepsOpen(t, e, args, io);
    } else {
      OthersKeepOpen(t, e, args, io);
    }
  }

  lemma {:induction false} OthersKeepOpen(t: Tunnel, e: TunnelEvent, args: Args, io: TunnelIO)
    requires TunnelNext(t.state, e).Some? ==> TunnelNext(t.state, e).value.0 != Some(OnSccrp)
    ensures TunnelHandle(t, e, args, io).xportOpen == t.xportOpen
  {
    hide DoTunnelAction, TunnelNext;
    if TunnelNext(t.state, e).Some? {
      var (a, dst) := TunnelNext(t.state, e).value;
      ActionKeepsOpen(t.(state := dst), a, args, io);
    }
  }

  lemma {:induction false} ActionKeepsOpen(t: Tunnel, a: Option<TunnelAction>, args: Args, io: TunnelIO)
    requires a != Some(OnSccrp)
    ensures DoTunnelAction(t, a, args, io).xportOpen == t.xportOpen
  {
    hide Request.Message, DoOnSccrp, TunnelHandle;
  }

  lemma {:induction false} OnSccrpKeepsOpen(t: Tunnel, e: TunnelEvent, args: Args, io: TunnelIO)
    requires TunnelNext(t.state, e).Some? && TunnelNext(t.state, e).value.0 == Some(OnSccrp)
    ensures TunnelHandle(t, e, args, io).xportOpen == t.xportOpen
  {
    hide Request.Message, FindUint16Avp, Establish, BeginClose, Give;
    var t1 := t.(state := TunnelEstablished);
    assert TunnelHandle(t, e, args, io) == DoTunnelAction(t1, Some(OnSccrp), args, io) == DoOnSccrp(t1, args, io);
    if args.Msg? {
      var ptid := FindUint16Avp(args.m.avps, VENDOR_IETF, AVP_TUNNEL_ID);
      if ptid.Err? {
        OthersKeepOpen(t1, CloseTunnel, NoArgs, io);
      } else {
        EstablishKeepsOpen(t1.(cfg := t1.cfg.(peerTunnelId := ptid.value)), io);
      }
    }
  }

  lemma {:induction false} EstablishKeepsOpen(t: Tunnel, io: TunnelIO)
    requires t.state == TunnelEstablished
    ensures Establish(t, io).xportOpen == t.xportOpen
  {
    hide Request.Message, TunnelHandle;
    OthersKeepOpen(Give(t, Scccn(t.cfg), io.sent), CloseTunnel, Code(ResultCode(GENERAL_ERROR, VENDOR_SPECIFIC, io.text)), io);
  }

  lemma {:induction false} BeginCloseCloses(t: Tunnel)
    ensures BeginClose(t).isClosing && BeginClose(t).state == t.state
  {
  }

  lemma {:induction false} LeavingOk(t: Tunnel, t1: Tunnel)
    requires TunnelOk(t1) && Advances(t, t1) && (t1.isClosing || t1.halted) && t1.state != Idle
    ensures TunnelOk(t1.(leaving := true)) && Advances(t, t1.(leaving := true))
  {
  }

  // ---------------------------------------------------------------------------
  // How a tunnel comes up

  /** Only the turn that completes the handshake announces the tunnel. */
  predicate ComesUp(t: Tunnel, t': Tunnel) {
    !t.established && t'.established
  }

  predicate Quiet(t: Tunnel, t': Tunnel) {
    t'.established == t.established && t'.notices == t.notices
  }

  lemma {:induction false} HandleComesUp(t: Tunnel, e: TunnelEvent, args: Args, io: TunnelIO)
    requires TunnelOk(t) && t.Ready()
    ensures var t' := TunnelHandle(t, e, args, io);
            || Quiet(t, t')
            || (&& ComesUp(t, t') && e == GotSccrp && t.state == WaitCtlReply && t'.state == TunnelEstablished && !t'.isClosing
                && args.Msg? && FindUint16Avp(args.m.avps, VENDOR_IETF, AVP_TUNNEL_ID) == Ok(t'.cfg.peerTunnelId))
  {
    hide FindUint16Avp, Shaken, InTunnelOrder, DoOnSccrp, DoSendStopccn, DoSendSccrq, TunnelPaired;
    match TunnelNext(t.state, e)
    case None =>
    case Some((a, dst)) =>
      var t1 := t.(state := dst);
      SendStopDies(t1, StopResult(args), io);
      SendSccrqQuiet(t1, io);
      var t' := TunnelHandle(t, e, args, io);
      assert t' == DoTunnelAction(t1, a, args, io);
      if a == Some(OnSccrp) {
        WaitingIsQuiet(t);
        OnSccrpComesUp(t1, args, io);
        assert t' == DoOnSccrp(t1, args, io);
        assert t.xportOpen ==> !t.isClosing;
      }
  }

  lemma {:induction false} WaitingIsQuiet(t: Tunnel)
    requires TunnelOk(t) && t.state == WaitCtlReply
    ensures !t.established
  {
  }

  /** The reply brings the tunnel up only over an open transport. */
  lemma {:induction false} OnSccrpComesUp(t: Tunnel, args: Args, io: TunnelIO)
    requires t.state == TunnelEstablished && !t.established
    ensures var t' := DoOnSccrp(t, args, io);
            || Quiet(t, t')
            || (&& ComesUp(t, t') && t.xportOpen && t'.state == TunnelEstablished && t'.isClosing == t.isClosing
                && args.Msg? && FindUint16Avp(args.m.avps, VENDOR_IETF, AVP_TUNNEL_ID) == Ok(t'.cfg.peerTunnelId))
  {
    hide FindUint16Avp, Establish, TunnelHandle;
    if args.Msg? {
      match FindUint16Avp(args.m.avps, VENDOR_IETF, AVP_TUNNEL_ID)
      case Err(_) => TunnelCloseDies(t, NoArgs, io);
      case Ok(ptid) => EstablishComesUp(t.(cfg := t.cfg.(peerTunnelId := ptid)), io);
    }
  }

  lemma {:induction false} SendSccrqQuiet(t: Tunnel, io: TunnelIO)
    ensures Quiet(t, DoSendSccrq(t, io))
  {
    hide Request.Message;
  }

  lemma {:induction false} EstablishComesUp(t: Tunnel, io: TunnelIO)
    requires t.state == TunnelEstablished && !t.established
    ensures var t' := Establish(t, io);
            Quiet(t, t') || (ComesUp(t, t') && t.xportOpen && t'.state == TunnelEstablished && t'.isClosing == t.isClosing
                             && t'.cfg == t.cfg)
  {
    hide Request.Message;
    var t1 := Give(t, Scccn(t.cfg), io.sent);
    TunnelCloseDies(t1, Code(ResultCode(GENERAL_ERROR, VENDOR_SPECIFIC, io.text)), io);
    hide TunnelHandle;
  }

  /** A valid SCCRP that came while its tunnel waited for one, with the peer's tunnel ID. */
  ghost predicate AcceptedSccrp(turn: TunnelTurn, ptid: u32) {
    && turn.TunnelMsgTurn? && Validates(turn.m) && turn.m.GetType() == Ok(MSG_SCCRP)
    && FindUint16Avp(turn.m.avps, VENDOR_IETF, AVP_TUNNEL_ID) == Ok(ptid)
  }

  lemma {:induction false} TurnComesUp(t: Tunnel, turn: TunnelTurn, io: TunnelIO)
    requires TunnelOk(t) && t.Ready() && (t.state == Idle <==> turn == StartTurn)
    ensures var t' := TakeTunnelTurn(t, turn, io);
            || Quiet(t, t')
            || (&& ComesUp(t, t') && t.state == WaitCtlReply && t'.state == TunnelEstablished && !t'.isClosing
                && AcceptedSccrp(turn, t'.cfg.peerTunnelId))
  {
    hide TunnelHandle, ControlMessage.GetType, Validates, TunnelOk, FindUint16Avp;
    match turn
    case StartTurn => HandleComesUp(t, OpenTunnel, NoArgs, io);
    case TunnelMsgTurn(m) =>
      if !Validates(m) {
        StateOkParts(t);
        InvalidMessageStops(t, m, io);
      } else {
        HandleComesUp(t, CloseTunnel, Code(ResultCode(GENERAL_ERROR, BAD_VALUE, io.text)), io);
        if TunnelEventOf(m).Some? && TunnelEventOf(m).value.Some? {
          HandleComesUp(t, TunnelEventOf(m).value.value, Msg(m), io);
        }
      }
    case AddTurn => HandleComesUp(t, AddSession, NoArgs, io);
    case TunnelCloseTurn => HandleComesUp(t, CloseTunnel, Code(ResultCode(CLEAR_CONNECTION, 0, [])), io);
    case TransportDownTurn =>
  }

  lemma {:induction false} StateOkParts(t: Tunnel)
    requires TunnelOk(t)
    ensures t.state == TunnelDead ==> t.isClosing || t.halted
  {
  }
}
