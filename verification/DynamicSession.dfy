/** The session as the program has it: an object whose callbacks update its fields, re-entered
    through its event handler.  Every method computes the function on session values that
    bears its name. */
module DynamicSessions {
  import opened Wire
  import opened Avps
  import opened Payloads
  import opened Messages
  import opened Validation
  import opened Builders
  import opened Fsm
  import opened Sessions
  import opened SessionSafety

  class DynamicSession {
    const name: string
    const callSerial: u32
    const fsm: Machine<SessionState, SessionEvent, SessionAction>
    var cfg: SessionConfig
    var isClosed: bool
    var established: bool
    // whether the session's goroutine has stopped for good inside a call
    var halted: bool
    ghost var sends: seq<Submission>
    ghost var notices: seq<Notice>
    ghost var setup: Option<SessionIO>

    constructor (name: string, serial: u32, sid: u32)
      ensures Valid() && View() == NewSession(name, serial, sid) && fresh(fsm)
    {
      this.name, callSerial, cfg := name, serial, SessionConfig(sid, 0);
      fsm := new Machine(WaitTunnel, SESSION_TABLE);
      isClosed, established, halted := false, false, false;
      sends, notices, setup := [], [], None;
    }

    ghost predicate Valid() {
      fsm.table == SESSION_TABLE
    }

    ghost function View(): Session
      reads this, fsm
    {
      Session(name, callSerial, cfg, fsm.current, isClosed, established, halted, sends, notices, setup)
    }

    method FsmActClose()
      modifies `established, `notices, `isClosed
      ensures View() == CloseNow(old(View()))
    {
      if established {
        established := false;
        notices := notices + [Down];
      }
      isClosed := true;
    }

    /** Hand a message to the tunnel and wait for its fate. */
    method SendMessage(ghost req: Request, out: Outcome)
      modifies `established, `notices, `isClosed, `halted, `sends
      ensures View() == Submit(old(View()), req, out)
    {
      match out
      case Lost => halted := true;
      case Refused => FsmActClose();
      case Failed =>
        sends := sends + [Submission(req, false)];
        FsmActClose();
      case Sent => sends := sends + [Submission(req, true)];
    }

    method FsmActSendIcrq(ptid: u32, io: SessionIO)
      modifies this
      ensures View() == DoSendIcrq(old(View()), ptid, io)
    {
      hide Build, CloseNow, Submit;
      var req := Icrq(callSerial, ptid, cfg);
      var msg := req.Message();
      if msg.Err? {
        FsmActClose();
      } else {
        SendMessage(req, io.send);
      }
    }

    method FsmActSendCdn(ptid: u32, args: Args, io: SessionIO)
      modifies this
      ensures View() == DoSendCdn(old(View()), ptid, CdnResult(args), io)
    {
      hide Build, CloseNow, Submit;
      var req := Cdn(ptid, CdnResult(args), cfg);
      var msg := req.Message();
      if msg.Ok? {
        SendMessage(req, io.send);
        if halted {
          return;
        }
      }
      FsmActClose();
    }

    /** Complete the handshake, bring up the data plane and announce the session. */
    method CompleteSetup(ptid: u32, io: SessionIO)
      modifies this
      ensures View() == Announce(old(View()), ptid, io)
    {
      hide Build, CloseNow, Submit;
      var req := Iccn(ptid, cfg);
      var msg := req.Message();
      if msg.Err? {
        FsmActClose();
        return;
      }
      SendMessage(req, io.send);
      if halted {
        return;
      }
      if !io.dataPlaneUp {
        FsmActClose();
        halted := true;
        return;
      }
      if !io.ifnameOk {
        FsmActClose();
      }
      established := true;
      notices := notices + [Up];
    }

    method FsmActOnIcrp(ptid: u32, args: Args, io: SessionIO)
      requires Valid() && fsm.current == SessionEstablished
      modifies this, fsm
      ensures Valid() && View() == DoOnIcrp(old(View()), ptid, args, io)
      decreases SessionRank(fsm.current), 2
    {
      hide Announce, DoSendCdn, FindUint16Avp;
      if !args.Msg? {
        halted := true;
        return;
      }
      var psid := FindUint16Avp(args.m.avps, VENDOR_IETF, AVP_SESSION_ID);
      if psid.Err? {
        HandleEvent(ptid, CloseSession, Code(ResultCode(GENERAL_ERROR, BAD_VALUE, io.text)), io);
        return;
      }
      cfg := cfg.(peerSessionId := psid.value);
      setup := Some(io);
      CompleteSetup(ptid, io);
    }

    /** Move along the table and run the callback; without a transition, close. */
    method HandleEvent(ptid: u32, e: SessionEvent, args: Args, io: SessionIO)
      requires Valid()
      modifies this, fsm
      ensures Valid() && View() == SessionHandle(old(View()), ptid, e, args, io)
      decreases SessionRank(fsm.current), 1
    {
      hide DoAction, CloseNow;
      var a := Move(e);
      if a.None? {
        FsmActClose();
      } else {
        RunCallback(ptid, a.value, args, io);
      }
    }

    /** The state moves before the callback runs. */
    method Move(e: SessionEvent) returns (a: Option<SessionAction>)
      requires Valid()
      modifies fsm
      ensures Valid()
      ensures match SessionNext(old(fsm.current), e)
              case None => a.None? && View() == old(View())
              case Some((act, t)) => a == Some(act) && View() == old(View()).(state := t)
    {
      hide Lookup, SessionNext;
      SessionTableIs(fsm.current, e);
      var row := fsm.HandleEvent(e);
      a := if row.Some? then row.value.cb else None;
    }

    method RunCallback(ptid: u32, a: SessionAction, args: Args, io: SessionIO)
      requires Valid() && (a == OnIcrp ==> fsm.current == SessionEstablished)
      modifies this, fsm
      ensures Valid() && View() == DoAction(old(View()), ptid, a, args, io)
      decreases SessionRank(fsm.current), 3
    {
      hide DoSendIcrq, DoSendCdn, DoOnIcrp, CloseNow;
      match a
      case SendIcrq => FsmActSendIcrq(ptid, io);
      case OnIcrp => FsmActOnIcrp(ptid, args, io);
      case SendCdn => FsmActSendCdn(ptid, args, io);
      case OnCdn => FsmActOnCdn(args);
      case CloseAction => FsmActClose();
    }

    method FsmActOnCdn(args: Args)
      modifies this
      ensures View() == if args.Msg? then CloseNow(old(View())) else old(View()).(halted := true)
    {
      if args.Msg? {
        FsmActClose();
      } else {
        halted := true;
      }
    }

    /** Validate, which may panic on the type; then map the message to its event by the first
        entry of its type. */
    method HandleV2Msg(ptid: u32, m: ControlMessage, io: SessionIO)
      requires Valid() && !halted
      modifies this, fsm
      ensures Valid() && View() == HandleSessionMsg(old(View()), ptid, m, io)
    {
      hide SessionHandle, Validates, ControlMessage.GetType;
      if !m.V2? || m.sid != cfg.sessionId % 0x1_0000 {
        return;
      }
      var bad := Code(ResultCode(GENERAL_ERROR, BAD_VALUE, io.text));
      if m.GetType().Err? {
        halted := true;
        return;
      }
      var v := Validate(m);
      if v.Err? {
        HandleEvent(ptid, CloseSession, bad, io);
        if halted {
          return;
        }
      }
      var eventMap := [(MSG_ICRQ, GotIcrq), (MSG_ICRP, GotIcrp), (MSG_ICCN, GotIccn), (MSG_CDN, GotCdn)];
      var i := 0;
      while i < |eventMap|
        invariant 0 <= i <= |eventMap|
        invariant forall j :: 0 <= j < i ==> m.GetType() != Ok(eventMap[j].0)
      {
        if m.GetType() == Ok(eventMap[i].0) {
          HandleEvent(ptid, eventMap[i].1, Msg(m), io);
          return;
        }
        i := i + 1;
      }
      assert eventMap[0].0 == MSG_ICRQ && eventMap[1].0 == MSG_ICRP && eventMap[2].0 == MSG_ICCN && eventMap[3].0 == MSG_CDN;
      HandleEvent(ptid, CloseSession, bad, io);
    }

    /** One turn of the session's loop keeps the session's wire order, the pairing of its
        notices and what its state obliges it to, and submits at most one message, under the
        tunnel's peer ID. */
    method RunTurn(ptid: u32, turn: SessionTurn, io: SessionIO)
      requires Valid() && View().Running() && SessionOk(View()) && (fsm.current == WaitReply ==> ptid <= V2_ID_MAX)
      modifies this, fsm
      ensures Valid() && View() == TakeTurn(old(View()), ptid, turn, io)
      ensures SessionOk(View()) && SendsFrom(old(View()), View(), ptid, io) && Keeps(old(View()), View(), turn == OpenTurn)
    {
      hide SessionHandle, HandleSessionMsg, CloseNow, SessionOk, SendsFrom, Keeps;
      TurnOk(View(), ptid, turn, io);
      TurnKeeps(View(), ptid, turn, io);
      match turn
      case MsgTurn(m) => HandleV2Msg(ptid, m, io);
      case OpenTurn => HandleEvent(ptid, TunnelOpen, NoArgs, io);
      case KillTurn => FsmActClose();
      case CloseTurn => HandleEvent(ptid, CloseSession, Code(ResultCode(ADMIN_DISCONNECT, 0, [])), io);
    }
  }
}
