/** Where the session IDs come from that a session puts into its messages. */
module PeerIds {
  import opened Wire
  import opened Avps
  import opened Payloads
  import opened Messages
  import opened Validation
  import opened Builders
  import opened Sessions
  import opened SessionSafety
  import opened Tunnels
  import opened SessionIndex
  import opened Connections
  import opened Forwarding

  /** What is new among the messages sent is an ICRQ or addressed by the session's own record of
      its peer. */
  predicate SendsOwn(s: Session, s': Session) {
    && s.sends <= s'.sends
    && forall n :: |s.sends| <= n < |s'.sends| ==>
         var req := s'.sends[n].req;
         req.Icrq? || ((req.Iccn? || req.Cdn?) && req.scfg == s'.cfg)
  }

  /** One of them is an ICCN. */
  predicate NewIccn(s: Session, s': Session) {
    exists n :: |s.sends| <= n < |s'.sends| && s'.sends[n].req.Iccn?
  }

  lemma {:induction false} CdnSendsOwn(s: Session, ptid: u32, rc: ResultCode, io: SessionIO)
    ensures SendsOwn(s, DoSendCdn(s, ptid, rc, io)) && DoSendCdn(s, ptid, rc, io).cfg == s.cfg
    ensures !NewIccn(s, DoSendCdn(s, ptid, rc, io))
  {
    hide Request.Message;
  }

  lemma {:induction false} IcrqSendsOwn(s: Session, ptid: u32, io: SessionIO)
    ensures SendsOwn(s, DoSendIcrq(s, ptid, io)) && !NewIccn(s, DoSendIcrq(s, ptid, io))
  {
    hide Request.Message;
  }

  lemma {:induction false} IcrpSendsOwn(s: Session, ptid: u32, args: Args, io: SessionIO)
    requires s.state == SessionEstablished
    ensures var s' := DoOnIcrp(s, ptid, args, io);
            && SendsOwn(s, s')
            && (NewIccn(s, s') ==> args.Msg? && FindUint16Avp(args.m.avps, VENDOR_IETF, AVP_SESSION_ID) == Ok(s'.cfg.peerSessionId))
  {
    hide FindUint16Avp, DoSendCdn, Announce;
    if args.Msg? {
      match FindUint16Avp(args.m.avps, VENDOR_IETF, AVP_SESSION_ID)
      case Err(_) =>
        var rc := ResultCode(GENERAL_ERROR, BAD_VALUE, io.text);
        CdnSendsOwn(s.(state := SessionDead), ptid, rc, io);
        assert SessionHandle(s, ptid, CloseSession, Code(rc), io) == DoSendCdn(s.(state := SessionDead), ptid, rc, io);
      case Ok(psid) =>
        AnnounceSendsOwn(s.(cfg := s.cfg.(peerSessionId := psid), setup := Some(io)), ptid, io);
    }
  }

  lemma {:induction false} AnnounceSendsOwn(s: Session, ptid: u32, io: SessionIO)
    ensures SendsOwn(s, Announce(s, ptid, io)) && Announce(s, ptid, io).cfg == s.cfg
  {
    hide Request.Message, Submit;
    SubmitAdds(s, Iccn(ptid, s.cfg), io.send);
  }

  lemma {:induction false} SubmitAdds(s: Session, req: Request, out: Outcome)
    ensures var s' := Submit(s, req, out);
            s'.cfg == s.cfg && (s'.sends == s.sends || exists ok :: s'.sends == s.sends + [Submission(req, ok)])
  {
  }

  lemma {:induction false} HandleSendsOwn(s: Session, ptid: u32, e: SessionEvent, args: Args, io: SessionIO)
    ensures var s' := SessionHandle(s, ptid, e, args, io);
            && SendsOwn(s, s')
            && (NewIccn(s, s') ==> s.state == WaitReply && e == GotIcrp && args.Msg?
                                   && FindUint16Avp(args.m.avps, VENDOR_IETF, AVP_SESSION_ID) == Ok(s'.cfg.peerSessionId))
  {
    hide DoSendCdn, DoOnIcrp, DoSendIcrq, FindUint16Avp;
    match SessionNext(s.state, e)
    case None =>
    case Some((a, t)) =>
      match a
      case SendIcrq => IcrqSendsOwn(s.(state := t), ptid, io);
      case SendCdn => CdnSendsOwn(s.(state := t), ptid, CdnResult(args), io);
      case OnIcrp => IcrpSendsOwn(s.(state := t), ptid, args, io);
      case OnCdn =>
      case CloseAction =>
  }

  lemma {:induction false} TurnSendsOwn(s: Session, ptid: u32, turn: SessionTurn, io: SessionIO)
    ensures var s' := TakeTurn(s, ptid, turn, io);
            && SendsOwn(s, s')
            && (NewIccn(s, s') ==> s.state == WaitReply && turn.MsgTurn?
                                   && AcceptedIcrp(turn.m, s.cfg.sessionId, s'.cfg.peerSessionId))
  {
    hide SessionHandle, Validates, ControlMessage.GetType, FindUint16Avp;
    match turn
    case MsgTurn(m) =>
      var bad := Code(ResultCode(GENERAL_ERROR, BAD_VALUE, io.text));
      HandleSendsOwn(s, ptid, CloseSession, bad, io);
      if m.V2? && m.sid == s.cfg.sessionId % 0x1_0000 {
        if !Validates(m) {
          InvalidTurn(s, ptid, m, io);
        } else if EventOf(m).Some? {
          HandleSendsOwn(s, ptid, EventOf(m).value, Msg(m), io);
        }
      }
    case OpenTurn => HandleSendsOwn(s, ptid, TunnelOpen, NoArgs, io);
    case KillTurn =>
    case CloseTurn => HandleSendsOwn(s, ptid, CloseSession, Code(ResultCode(ADMIN_DISCONNECT, 0, [])), io);
  }

  // ---------------------------------------------------------------------------

  /** A move in which session i takes a valid ICRP of its own that assigns psid. */
  ghost predicate Learns(mv: Move, i: nat, sid: u32, psid: u32) {
    mv.SessionMove? && mv.i == i && mv.sturn.MsgTurn? && AcceptedIcrp(mv.sturn.m, sid, psid)
  }

  /** The session's ID for its peer is 0 until an ICRP assigns one. */
  ghost predicate Informed(moves: seq<Move>, i: nat, s: Session) {
    s.setup.Some? || s.cfg.peerSessionId != 0 || (exists n :: 0 <= n < |s.sends| && s.sends[n].req.Iccn?) ==>
      exists j :: 0 <= j < |moves| && Learns(moves[j], i, s.cfg.sessionId, s.cfg.peerSessionId)
  }

  predicate Addressed(s: Session) {
    forall n :: 0 <= n < |s.sends| ==> s.sends[n].req.Icrq? || ((s.sends[n].req.Iccn? || s.sends[n].req.Cdn?) && s.sends[n].req.scfg == s.cfg)
  }

  lemma {:induction false} WaitingSentIcrq(s: Session)
    requires SessionOk(s) && s.Running() && s.state == WaitReply
    ensures forall n :: 0 <= n < |s.sends| ==> s.sends[n].req.Icrq?
  {
  }

  lemma {:induction false} TurnInformed(w: World, i: nat, turn: SessionTurn, a: Answers, moves: seq<Move>)
    requires i < |w.members| && SessionOk(w.members[i].s) && w.members[i].s.Running()
    requires Addressed(w.members[i].s) && Informed(moves, i, w.members[i].s)
    ensures var s' := MemberAfter(w.t, w.members[i], turn, a).s;
            Addressed(s') && Informed(moves + [SessionMove(i, turn, a)], i, s')
  {
    hide TakeTurn, SessionOk, AcceptedIcrp;
    var s, io := w.members[i].s, SessionIO(Fate(w.t, a.acked, a.early), a.dataPlaneUp, a.ifnameOk, a.text);
    var s', ptid := TakeTurn(s, w.t.cfg.peerTunnelId, turn, io), w.t.cfg.peerTunnelId;
    TurnSendsOwn(s, ptid, turn, io);
    TurnSetsUp(s, ptid, turn, io);
    TurnKeeps(s, ptid, turn, io);
    var mv := SessionMove(i, turn, a);
    var moves' := moves + [mv];
    assert forall n :: 0 <= n < |s.sends| ==> s'.sends[n] == s.sends[n];
    if SameSetup(s, s') && !NewIccn(s, s') {
      if s'.setup.Some? || s'.cfg.peerSessionId != 0 || exists n :: 0 <= n < |s'.sends| && s'.sends[n].req.Iccn? {
        var j :| 0 <= j < |moves| && Learns(moves[j], i, s.cfg.sessionId, s.cfg.peerSessionId);
        assert moves'[j] == moves[j];
      }
    } else {
      WaitingSentIcrq(s);
      assert moves'[|moves|] == mv && Learns(mv, i, s'.cfg.sessionId, s'.cfg.peerSessionId);
    }
  }

  lemma {:induction false} StepInformed(w: World, mv: Move, w': World, i: nat, moves: seq<Move>)
    requires Inv(w) && Step(w, mv, w') && i < |w.members| && Addressed(w.members[i].s) && Informed(moves, i, w.members[i].s)
    ensures |w.members| <= |w'.members| && Addressed(w'.members[i].s) && Informed(moves + [mv], i, w'.members[i].s)
  {
    hide Inv, TakeTunnelTurn, AfterTunnel, Delivered, MemberAfter, Index.Link, Index.Unlink, FinishClose, Forwards, Enabled, Addressed,
      Informed;
    InformedStays(moves, mv, i, w.members[i].s);
    match mv
    case TunnelMove(turn, io) => AfterTunnelKeeps(w, TakeTunnelTurn(w.t, turn, io), i);
    case AddMove(_, _, _, io) => AfterTunnelKeeps(w, TakeTunnelTurn(w.t, AddTurn, io), i);
    case SessionMove(j, turn, a) =>
      if j == i {
        MemberFacts(w, i, turn);
        TurnInformed(w, i, turn, a, moves);
      }
    case _ =>
  }

  lemma {:induction false} InformedStays(moves: seq<Move>, mv: Move, i: nat, s: Session)
    requires Informed(moves, i, s)
    ensures Informed(moves + [mv], i, s)
  {
    hide Learns;
    forall j | 0 <= j < |moves|
      ensures (moves + [mv])[j] == moves[j]
    {
    }
  }

  lemma {:induction false} MemberFacts(w: World, i: nat, turn: SessionTurn)
    requires Inv(w) && i < |w.members| && Enabled(w.members[i], turn)
    ensures SessionOk(w.members[i].s) && w.members[i].s.Running()
  {
    assert MemberOk(w.t, w.members[i]);
  }

  lemma {:induction false} RunInformed(cfg: TunnelConfig, run: Run, k: nat, i: nat)
    requires IsRun(cfg, run) && k < |run.states| && i < |run.states[k].members|
    ensures Addressed(run.states[k].members[i].s) && Informed(run.moves[..k], i, run.states[k].members[i].s)
    decreases k
  {
    hide Step, Inv, Addressed, Informed;
    if k > 0 {
      var w, mv, w' := run.states[k - 1], run.moves[k - 1], run.states[k];
      RunInv(cfg, run, k - 1);
      assert run.moves[..k] == run.moves[..k - 1] + [mv];
      if i < |w.members| {
        RunInformed(cfg, run, k - 1, i);
        StepInformed(w, mv, w', i, run.moves[..k - 1]);
      } else {
        JoinsUnsent(w, mv, w', i, run.moves[..k]);
      }
    }
  }

  lemma {:induction false} JoinsUnsent(w: World, mv: Move, w': World, i: nat, moves: seq<Move>)
    requires Step(w, mv, w') && |w.members| <= i < |w'.members|
    ensures Addressed(w'.members[i].s) && Informed(moves, i, w'.members[i].s)
  {
    hide TakeTunnelTurn, AfterTunnel, Delivered, MemberAfter, Index.Link, Index.Unlink, FinishClose, Forwards, Enabled;
    match mv
    case TunnelMove(turn, io) => AfterTunnelKeepsTunnel(w, TakeTunnelTurn(w.t, turn, io));
    case AddMove(_, _, _, io) => AfterTunnelKeepsTunnel(w, TakeTunnelTurn(w.t, AddTurn, io));
    case _ =>
  }

  /** In every run, an ICCN that a session sent, and a CDN of a session that has taken its reply
      or whose header does not say session 0, carry in their headers the session ID of a valid
      ICRP that this session took earlier in the run. */
  lemma {:induction false} IccnCarriesPeersId(cfg: TunnelConfig, run: Run, k: nat, i: nat, n: nat) returns (j: nat)
    requires IsRun(cfg, run) && k < |run.states| && i < |run.states[k].members| && n < |run.states[k].members[i].s.sends|
    requires var req := run.states[k].members[i].s.sends[n].req;
             && req.Message().Ok? && req.Message().value.V2?
             && (req.Iccn? || (req.Cdn? && (run.states[k].members[i].s.setup.Some? || req.Message().value.sid != 0)))
    ensures var s := run.states[k].members[i].s;
            j < k && Learns(run.moves[j], i, s.cfg.sessionId, s.sends[n].req.Message().value.sid)
  {
    hide Step, Learns, Request.Message;
    RunInformed(cfg, run, k, i);
    var s := run.states[k].members[i].s;
    BuiltMessageIs(s.sends[n].req);
    j :| 0 <= j < |run.moves[..k]| && Learns(run.moves[..k][j], i, s.cfg.sessionId, s.cfg.peerSessionId);
  }
}
