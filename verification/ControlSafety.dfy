/** What holds in every run of a tunnel with its sessions. */
module ControlSafety {
  import opened Wire
  import opened Payloads
  import opened Messages
  import opened Validation
  import opened Builders
  import opened Sessions
  import opened SessionSafety
  import opened Tunnels
  import opened TunnelSafety
  import opened SessionIndex
  import opened Connections

  // ---------------------------------------------------------------------------
  // Wire order

  /** Tunnel and sessions each send in protocol order. */
  lemma {:induction false} WireOrder(cfg: TunnelConfig, run: Run, k: nat)
    requires IsRun(cfg, run) && k < |run.states|
    ensures InTunnelOrder(run.states[k].t.sends)
    ensures forall i :: 0 <= i < |run.states[k].members| ==> InWireOrder(run.states[k].members[i].s.sends)
  {
    hide IsRun, InTunnelOrder, InWireOrder, IndexOk;
    RunInv(cfg, run, k);
    forall i | 0 <= i < |run.states[k].members|
      ensures InWireOrder(run.states[k].members[i].s.sends)
    {
      assert MemberOk(run.states[k].t, run.states[k].members[i]);
    }
  }

  /** The move that accepts an SCCRP from the transport and learns the peer's tunnel ID. */
  ghost predicate Accepts(mv: Move, ptid: u32) {
    mv.TunnelMove? && AcceptedSccrp(mv.turn, ptid) && Delivered(mv.turn.m)
  }

  /** The tunnel of a run only moves onward. */
  lemma {:induction false} StepAdvances(w: World, mv: Move, w': World)
    requires Inv(w) && Step(w, mv, w')
    ensures w'.t == w.t || Advances(w.t, w'.t)
    ensures WasUp(w'.t) && !WasUp(w.t) ==> Accepts(mv, w'.t.cfg.peerTunnelId)
  {
    hide TunnelOk, TakeTunnelTurn, Advances, Forwards, Validates, FindUint16Avp, ControlMessage.GetType, Delivered,
      IndexOk, MemberOk, LinkedOk, OpenAll, KillAll, Drained, Enabled, MemberAfter, Shaken;
    match mv
    case TunnelMove(turn, io) =>
      TunnelTurnOk(w.t, turn, io);
      TurnComesUp(w.t, turn, io);
      UpOnlyByComing(w.t, TakeTunnelTurn(w.t, turn, io));
    case AddMove(name, serial, sid, io) =>
      TunnelTurnOk(w.t, AddTurn, io);
      TurnComesUp(w.t, AddTurn, io);
      UpOnlyByComing(w.t, TakeTunnelTurn(w.t, AddTurn, io));
      AddNeverAccepts(w'.t.cfg.peerTunnelId);
    case FinishMove =>
      FinishCloseOk(w.t);
      FinishNeverUp(w.t);
    case SessionMove(i, turn, a) =>
    case UserCloseMove(i) =>
  }

  lemma {:induction false} AddNeverAccepts(ptid: u32)
    ensures !AcceptedSccrp(AddTurn, ptid)
  {
  }

  lemma {:induction false} UpOnlyByComing(t: Tunnel, t': Tunnel)
    requires TunnelOk(t) && TunnelOk(t') && Advances(t, t')
    ensures WasUp(t') && !WasUp(t) && Quiet(t, t') ==> false
  {
  }

  lemma {:induction false} FinishNeverUp(t: Tunnel)
    requires TunnelOk(t)
    ensures WasUp(FinishClose(t)) ==> WasUp(t)
  {
  }

  /** Where a tunnel that has come up learned its peer's ID. */
  lemma {:induction false} LearnedFromSccrp(cfg: TunnelConfig, run: Run, k: nat) returns (j: nat)
    requires IsRun(cfg, run) && k < |run.states| && WasUp(run.states[k].t)
    ensures j < k && Accepts(run.moves[j], run.states[k].t.cfg.peerTunnelId)
    decreases k
  {
    hide Inv, Step, WasUp, Advances, Accepts;
    if k == 0 {
      NotUpAtFirst(cfg);
      assert false;
    }
    var w, w' := run.states[k - 1], run.states[k];
    RunInv(cfg, run, k - 1);
    StepAdvances(w, run.moves[k - 1], w');
    if WasUp(w.t) {
      j := LearnedFromSccrp(cfg, run, k - 1);
      if w'.t != w.t {
        WasUpStays(w.t, w'.t);
      }
    } else {
      j := k - 1;
    }
  }

  lemma {:induction false} NotUpAtFirst(cfg: TunnelConfig)
    ensures !WasUp(Begin(cfg).t)
  {
  }

  /** No session message is given to the transport before the SCCCN was acknowledged; every
      one of them is a valid message under the tunnel ID that the peer gave in a valid SCCRP
      received earlier in the run. */
  lemma {:induction false} SessionsFollowHandshake(cfg: TunnelConfig, run: Run, k: nat, i: nat) returns (j: nat)
    requires IsRun(cfg, run) && k < |run.states| && i < |run.states[k].members| && run.states[k].members[i].s.sends != []
    ensures var t, sends := run.states[k].t, run.states[k].members[i].s.sends;
            && |t.sends| >= 2 && t.sends[1].req.Scccn? && t.sends[1].ok
            && j < k && Accepts(run.moves[j], t.sends[1].req.PeerTid())
            && forall n :: 0 <= n < |sends| ==> Carries(sends[n].req, t.sends[1].req.PeerTid())
  {
    hide IsRun, SessionOk, IndexOk, TunnelOk, Accepts, Carries, Request.Message, Request.PeerTid;
    RunInv(cfg, run, k);
    var t, m := run.states[k].t, run.states[k].members[i];
    assert MemberOk(t, m);
    j := LearnedFromSccrp(cfg, run, k);
    forall n | 0 <= n < |m.s.sends|
      ensures Carries(m.s.sends[n].req, t.sends[1].req.PeerTid())
    {
      BuiltCarries(m.s.sends[n].req);
    }
  }

  /** The message built for a request has this peer tunnel ID in its header and is valid. */
  ghost predicate Carries(req: Request, ptid: u32) {
    && req.Message().Ok? && req.Message().value.V2? && req.Message().value.tid == ptid
    && Validates(req.Message().value) && req.Message().value.GetType() == Ok(req.MsgType())
  }

  lemma {:induction false} BuiltCarries(req: Request)
    requires req.Message().Ok?
    ensures Carries(req, req.PeerTid())
  {
    hide ParseMessages, ControlMessage.ToBytes, ControlMessage.GetType, Validates, Request.Message, Request.TextFits, Request.MsgType;
    BuilderCorrect(req);
  }

  // ---------------------------------------------------------------------------
  // Announcements

  /** The user is told of a tunnel Up at most once and Down at most once, Down only after Up,
      and as often as Up once the tunnel has closed; of a session likewise, except that a
      closed session may be left Up; and of a session only after its tunnel came up. */
  lemma {:induction false} NoticesPair(cfg: TunnelConfig, run: Run, k: nat)
    requires IsRun(cfg, run) && k < |run.states|
    ensures var t := run.states[k].t;
            && t.notices in {[], [Up], [Up, Down]}
            && (t.isClosing && !t.busy ==> t.notices != [Up])
    ensures forall i :: 0 <= i < |run.states[k].members| ==>
              var s := run.states[k].members[i].s;
              && s.notices in {[], [Up], [Up, Down]}
              && (s.notices != [] ==> run.states[k].t.notices != [])
  {
    hide IsRun, IndexOk, StateOk, SetupOk, InWireOrder, InTunnelOrder, TunnelStateOk, Shaken;
    RunInv(cfg, run, k);
    forall i | 0 <= i < |run.states[k].members|
      ensures var s := run.states[k].members[i].s;
              s.notices in {[], [Up], [Up, Down]} && (s.notices != [] ==> run.states[k].t.notices != [])
    {
      assert MemberOk(run.states[k].t, run.states[k].members[i]);
    }
  }

  /** A session that has run to its end is told Down as often as Up exactly when it was never
      set up or its setup went through without an error: the ICCN acknowledged, the data
      plane up and its interface name known. */
  lemma {:induction false} SessionLeftUpIff(cfg: TunnelConfig, run: Run, k: nat, i: nat)
    requires IsRun(cfg, run) && k < |run.states| && i < |run.states[k].members|
    requires run.states[k].members[i].s.isClosed && !run.states[k].members[i].s.halted
    ensures var s := run.states[k].members[i].s;
            s.notices != [Up] <==> (s.setup.Some? ==> CleanSetup(s.setup.value))
  {
    hide IsRun, IndexOk, StateOk, InWireOrder, TunnelOk;
    RunInv(cfg, run, k);
    assert MemberOk(run.states[k].t, run.states[k].members[i]);
  }

  /** A message that fails validation never establishes anything: it adds no SCCCN, no ICCN
      and no Up, and what it is addressed to is dead afterwards. */
  lemma {:induction false} InvalidNeverEstablishes(cfg: TunnelConfig, run: Run, k: nat)
    requires IsRun(cfg, run) && k < |run.moves|
    ensures var w, mv, w' := run.states[k], run.moves[k], run.states[k + 1];
            && (mv.TunnelMove? && mv.turn.TunnelMsgTurn? && !Validates(mv.turn.m) ==>
                  if ForUs(w.t, mv.turn.m) then TunnelDied(w.t, w'.t) else w'.t == w.t)
            && (mv.SessionMove? && mv.sturn.MsgTurn? && mv.sturn.m.V2? && !Validates(mv.sturn.m) ==>
                  && mv.i < |w.members| && mv.i < |w'.members|
                  && var s, s' := w.members[mv.i].s, w'.members[mv.i].s;
                     if mv.sturn.m.sid != s.cfg.sessionId % 0x1_0000 then s' == s
                     else if mv.sturn.m.GetType().Err? then s' == s.(halted := true)
                     else Died(s, s'))
  {
    hide Validates, HandleTunnelMsg, HandleSessionMsg, ForUs, TunnelDied, TunnelOk, Died, Inv, ControlMessage.GetType;
    RunInv(cfg, run, k);
    var w, mv := run.states[k], run.moves[k];
    assert Step(w, mv, run.states[k + 1]);
    if mv.TunnelMove? && mv.turn.TunnelMsgTurn? && !Validates(mv.turn.m) {
      InvTunnelOk(w);
      StateOkParts(w.t);
      InvalidMessageStops(w.t, mv.turn.m, mv.tio);
      InvalidNotForwarded(w.t, mv.turn.m);
      AfterTunnelKeepsTunnel(w, HandleTunnelMsg(w.t, mv.turn.m, mv.tio));
    } else if mv.SessionMove? && mv.sturn.MsgTurn? && mv.sturn.m.V2? && !Validates(mv.sturn.m) {
      var a := mv.answers;
      var io := SessionIO(Fate(w.t, a.acked, a.early), a.dataPlaneUp, a.ifnameOk, a.text);
      InvalidMessageKills(w.members[mv.i].s, w.t.cfg.peerTunnelId, mv.sturn.m, io);
    }
  }

  lemma {:induction false} InvTunnelOk(w: World)
    requires Inv(w)
    ensures TunnelOk(w.t)
  {
  }

  lemma {:induction false} InvalidNotForwarded(t: Tunnel, m: ControlMessage)
    requires !Validates(m)
    ensures !Forwards(t, m)
  {
  }
}
