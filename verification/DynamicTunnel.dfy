/** The tunnel as the program has it: an object whose callbacks update its fields, re-entered
    through its event handler.  Every method computes the function on tunnel values that
    bears its name; what its turns do to the sessions is the composite machine's part. */
module DynamicTunnels {
  import opened Wire
  import opened Avps
  import opened Payloads
  import opened Messages
  import opened Validation
  import opened Builders
  import opened Fsm
  import opened Sessions
  import opened Tunnels
  import opened TunnelSafety

  class DynamicTunnel {
    const fsm: Machine<TunnelState, TunnelEvent, TunnelAction>
    var cfg: TunnelConfig
    var isClosing: bool
    var established: bool
    // the transport accepts messages; the tunnel waits for its sessions to end
    var xportOpen: bool
    var busy: bool
    var leaving: bool
    var halted: bool
    ghost var sends: seq<Submission>
    ghost var notices: seq<Notice>

    constructor (config: TunnelConfig)
      ensures Valid() && View() == NewTunnel(config) && fresh(fsm)
    {
      cfg := config;
      fsm := new Machine(Idle, TUNNEL_TABLE);
      isClosing, established, xportOpen, busy, leaving, halted := false, false, true, false, false, false;
      sends, notices := [], [];
    }

    ghost predicate Valid() {
      fsm.table == TUNNEL_TABLE
    }

    ghost function View(): Tunnel
      reads this, fsm
    {
      Tunnel(cfg, fsm.current, isClosing, established, xportOpen, busy, leaving, halted, sends, notices)
    }

    /** Closing happens once. */
    method FsmActClose()
      modifies `isClosing, `busy
      ensures View() == BeginClose(old(View()))
    {
      if isClosing {
        return;
      }
      isClosing := true;
      busy := true;
    }

    /** The rest of closing, when the sessions have ended. */
    method CompleteClose()
      modifies `busy, `xportOpen, `established, `notices
      ensures View() == FinishClose(old(View()))
      ensures old(TunnelOk(View())) && old(busy) ==> TunnelOk(View()) && notices != [Up]
    {
      hide TunnelOk;
      if TunnelOk(View()) && busy {
        FinishCloseOk(View());
      }
      busy := false;
      xportOpen := false;
      if established {
        established := false;
        notices := notices + [Down];
      }
    }

    method Transmit(ghost req: Request, ok: bool)
      modifies `halted, `sends
      ensures View() == Give(old(View()), req, ok)
    {
      if xportOpen {
        sends := sends + [Submission(req, ok)];
      } else {
        halted := true;
      }
    }

    method FsmActSendSccrq(io: TunnelIO)
      modifies this
      ensures View() == DoSendSccrq(old(View()), io)
    {
      hide Build, Give, BeginClose;
      var req := Sccrq(cfg);
      var msg := req.Message();
      if msg.Err? {
        FsmActClose();
        return;
      }
      Transmit(req, io.sent);
      if !halted && !io.sent {
        FsmActClose();
      }
    }

    method FsmActSendStopccn(args: Args, io: TunnelIO)
      modifies this
      ensures View() == DoSendStopccn(old(View()), StopResult(args), io)
    {
      hide Build, Give, BeginClose;
      var req := Stopccn(StopResult(args), cfg);
      var msg := req.Message();
      if msg.Ok? {
        Transmit(req, io.stopSent);
        if halted {
          return;
        }
      }
      FsmActClose();
    }

    method CompleteHandshake(io: TunnelIO)
      requires Valid() && fsm.current == TunnelEstablished
      modifies this, fsm
      ensures Valid() && View() == Establish(old(View()), io)
      decreases TunnelRank(fsm.current), 2
    {
      hide Build, Give, BeginClose, DoSendStopccn;
      var req := Scccn(cfg);
      var msg := req.Message();
      if msg.Err? {
        FsmActClose();
        return;
      }
      Transmit(req, io.sent);
      if halted {
        return;
      }
      if !io.sent {
        FsmActClose();
        return;
      }
      if !io.dataPlaneUp {
        HandleEvent(CloseTunnel, Code(ResultCode(GENERAL_ERROR, VENDOR_SPECIFIC, io.text)), io);
        return;
      }
      established := true;
      notices := notices + [Up];
    }

    method FsmActOnSccrp(args: Args, io: TunnelIO)
      requires Valid() && fsm.current == TunnelEstablished
      modifies this, fsm
      ensures Valid() && View() == DoOnSccrp(old(View()), args, io)
      decreases TunnelRank(fsm.current), 3
    {
      hide FindUint16Avp, DoSendStopccn, BeginClose, Give;
      if !args.Msg? {
        halted := true;
        return;
      }
      var ptid := FindUint16Avp(args.m.avps, VENDOR_IETF, AVP_TUNNEL_ID);
      if ptid.Err? {
        HandleEvent(CloseTunnel, NoArgs, io);
        return;
      }
      cfg := cfg.(peerTunnelId := ptid.value);
      CompleteHandshake(io);
    }

    /** Move along the table and run the callback; without a transition, close. */
    method HandleEvent(e: TunnelEvent, args: Args, io: TunnelIO)
      requires Valid()
      modifies this, fsm
      ensures Valid() && View() == TunnelHandle(old(View()), e, args, io)
      decreases TunnelRank(fsm.current), if e == CloseTunnel then 1 else 5
    {
      hide DoTunnelAction, BeginClose;
      var found, a := Move(e);
      if found {
        RunCallback(a, args, io);
      } else {
        FsmActClose();
      }
    }

    method RunCallback(a: Option<TunnelAction>, args: Args, io: TunnelIO)
      requires Valid() && (a == Some(OnSccrp) ==> fsm.current == TunnelEstablished)
      modifies this, fsm
      ensures Valid() && View() == DoTunnelAction(old(View()), a, args, io)
      decreases TunnelRank(fsm.current), 4
    {
      hide DoSendSccrq, DoSendStopccn, DoOnSccrp, BeginClose;
      match a
      case Some(SendSccrq) => FsmActSendSccrq(io);
      case Some(OnSccrp) => FsmActOnSccrp(args, io);
      case Some(OnStopccn) => FsmActClose();
      case Some(SendStopccn) => FsmActSendStopccn(args, io);
      case _ =>
    }

    /** The state moves before the callback runs. */
    method Move(e: TunnelEvent) returns (found: bool, a: Option<TunnelAction>)
      requires Valid()
      modifies fsm
      ensures Valid()
      ensures match TunnelNext(old(fsm.current), e)
              case None => !found && View() == old(View())
              case Some((act, t)) => found && a == act && View() == old(View()).(state := t)
    {
      hide Lookup, TunnelNext;
      TunnelTableIs(fsm.current, e);
      var row := fsm.HandleEvent(e);
      found := row.Some?;
      a := if found then row.value.cb else None;
    }

    method HandleV2Msg(m: ControlMessage, io: TunnelIO)
      requires Valid() && !halted
      modifies this, fsm
      ensures Valid() && View() == HandleTunnelMsg(old(View()), m, io)
    {
      hide TunnelHandle, Validates, ControlMessage.GetType;
      if !m.V2? || m.tid != cfg.tunnelId % 0x1_0000 {
        return;
      }
      var bad := Code(ResultCode(GENERAL_ERROR, BAD_VALUE, io.text));
      if m.GetType().Err? {
        halted := true;
        return;
      }
      var v := Validate(m);
      if v.Err? {
        HandleEvent(CloseTunnel, bad, io);
        if halted {
          return;
        }
      }
      var entry := MapMessage(m);
      match entry
      case Some(Some(e)) => HandleEvent(e, Msg(m), io);
      case Some(None) =>
      case None => HandleEvent(CloseTunnel, bad, io);
    }

    /** The first entry of the event map for the message's type. */
    static method MapMessage(m: ControlMessage) returns (entry: Option<Option<TunnelEvent>>)
      ensures entry == TunnelEventOf(m)
    {
      hide ControlMessage.GetType;
      var eventMap := [(MSG_SCCRQ, Some(GotSccrq)), (MSG_SCCRP, Some(GotSccrp)), (MSG_SCCCN, Some(GotScccn)),
                       (MSG_STOPCCN, Some(GotStopccn)), (MSG_HELLO, None), (MSG_ICRQ, Some(SessionMsg)),
                       (MSG_ICRP, Some(SessionMsg)), (MSG_ICCN, Some(SessionMsg)), (MSG_CDN, Some(SessionMsg))];
      var i := 0;
      while i < |eventMap|
        invariant 0 <= i <= |eventMap|
        invariant forall j :: 0 <= j < i ==> m.GetType() != Ok(eventMap[j].0)
      {
        if m.GetType() == Ok(eventMap[i].0) {
          return Some(eventMap[i].1);
        }
        i := i + 1;
      }
      assert eventMap[0].0 == MSG_SCCRQ && eventMap[1].0 == MSG_SCCRP && eventMap[2].0 == MSG_SCCCN
             && eventMap[3].0 == MSG_STOPCCN && eventMap[4].0 == MSG_HELLO && eventMap[5].0 == MSG_ICRQ
             && eventMap[6].0 == MSG_ICRP && eventMap[7].0 == MSG_ICCN && eventMap[8].0 == MSG_CDN;
      return None;
    }

    /** One turn of the tunnel's loop keeps the tunnel's wire order, the pairing of its notices
        and what its state obliges it to, and moves it only onward. */
    method RunTurn(turn: TunnelTurn, io: TunnelIO)
      requires Valid() && View().Ready() && TunnelOk(View()) && (fsm.current == Idle <==> turn == StartTurn)
      modifies this, fsm
      ensures Valid() && View() == TakeTunnelTurn(old(View()), turn, io)
      ensures TunnelOk(View()) && Advances(old(View()), View())
    {
      hide TunnelHandle, HandleTunnelMsg, BeginClose, TunnelOk, Advances;
      TunnelTurnOk(View(), turn, io);
      match turn
      case StartTurn => HandleEvent(OpenTunnel, NoArgs, io);
      case TunnelMsgTurn(m) => HandleV2Msg(m, io);
      case AddTurn => HandleEvent(AddSession, NoArgs, io);
      case TunnelCloseTurn =>
        HandleEvent(CloseTunnel, Code(ResultCode(CLEAR_CONNECTION, 0, [])), io);
        leaving := true;
      case TransportDownTurn =>
        FsmActClose();
        leaving := true;
    }
  }
}
