/** How session messages get from the tunnel to the sessions. */
module Forwarding {
  import opened Wire
  import opened Messages
  import opened Validation
  import opened Builders
  import opened Sessions
  import opened SessionSafety
  import SessionAnswers
  import opened Tunnels
  import opened TunnelSafety
  import opened SessionIndex
  import opened Connections

  /** The message is a valid ICRQ, ICRP, ICCN or CDN for this tunnel, and the tunnel is up. */
  ghost predicate ForSessions(w: World, m: ControlMessage) {
    && w.t.state == TunnelEstablished && m.V2? && m.tid == w.t.cfg.tunnelId % 0x1_0000 && Validates(m)
    && m.GetType().Ok? && m.GetType().value in {10, 11, 12, 14}
  }

  /** The tunnel knows this session by the session ID in the message. */
  predicate Addresses(w: World, m: ControlMessage, i: nat) {
    m.V2? && i < |w.members| && m.sid in w.ix.byId && w.ix.byId[m.sid] == w.RefOf(i)
  }

  /** The message a move passes to session i, if any. */
  ghost function PassedTo(w: World, mv: Move, i: nat): seq<ControlMessage> {
    if mv.TunnelMove? && mv.turn.TunnelMsgTurn? && ForSessions(w, mv.turn.m) && Addresses(w, mv.turn.m, i) then [mv.turn.m] else []
  }

  /** The message session i takes from its inbox with a move, if any. */
  function TakenBy(mv: Move, i: nat): seq<ControlMessage> {
    if mv.SessionMove? && mv.i == i && mv.sturn.MsgTurn? then [mv.sturn.m] else []
  }

  lemma {:induction false} ForwardsIff(w: World, m: ControlMessage)
    ensures Forwards(w.t, m) <==> ForSessions(w, m)
  {
    hide Validates, ControlMessage.GetType;
  }

  lemma {:induction false} PassOnIs(w: World, m: ControlMessage)
    requires IndexOk(w) && m.V2?
    ensures var w' := PassOn(w, m.sid, m);
            && w'.t == w.t && w'.ix == w.ix && |w'.members| == |w.members|
            && forall i :: 0 <= i < |w.members| ==>
                 w'.members[i] == if Addresses(w, m, i) then w.members[i].(inbox := w.members[i].inbox + [m]) else w.members[i]
  {
  }

  lemma {:induction false} InvIndex(w: World)
    requires Inv(w)
    ensures IndexOk(w) && TunnelOk(w.t)
  {
  }

  lemma {:induction false} SessionMessageLeavesTunnel(w: World, m: ControlMessage, io: TunnelIO)
    requires TunnelOk(w.t) && w.t.Ready() && ForSessions(w, m)
    ensures AfterTunnel(w, TakeTunnelTurn(w.t, TunnelMsgTurn(m), io)) == w
  {
    hide Validates, ControlMessage.GetType;
    var (a, dst) := TunnelNext(w.t.state, SessionMsg).value;
    assert TunnelHandle(w.t, SessionMsg, Msg(m), io) == DoTunnelAction(w.t.(state := dst), a, Msg(m), io);
    assert TunnelEventOf(m) == Some(Some(SessionMsg));
  }

  /** A session message goes to the session the tunnel knows by its session ID, and to no
      other; nothing else changes, and nothing at all if the ID is unknown. */
  lemma {:induction false} SessionMessageIsForwarded(w: World, m: ControlMessage, io: TunnelIO, w': World)
    requires Inv(w) && Step(w, TunnelMove(TunnelMsgTurn(m), io), w') && ForSessions(w, m)
    ensures w'.t == w.t && w'.ix == w.ix && |w'.members| == |w.members|
    ensures forall i :: 0 <= i < |w.members| ==>
              w'.members[i] == if Addresses(w, m, i) then w.members[i].(inbox := w.members[i].inbox + [m]) else w.members[i]
    ensures m.sid !in w.ix.byId ==> w' == w
  {
    hide Inv, Forwards, ForSessions, TakeTunnelTurn, AfterTunnel, Delivered, PassOn, Addresses, TunnelOk, IndexOk;
    InvIndex(w);
    ForwardsIff(w, m);
    SessionMessageLeavesTunnel(w, m, io);
    ItIsV2(w, m);
    PassOnIs(w, m);
    if m.sid !in w.ix.byId {
      UnknownIsDropped(w, m);
    }
  }

  lemma {:induction false} ItIsV2(w: World, m: ControlMessage)
    requires ForSessions(w, m)
    ensures m.V2?
  {
  }

  lemma {:induction false} UnknownIsDropped(w: World, m: ControlMessage)
    requires m.V2? && m.sid !in w.ix.byId
    ensures PassOn(w, m.sid, m) == w
  {
  }

  /** A HELLO changes nothing, in the tunnel or in any session. */
  lemma {:induction false} HelloChangesNothing(w: World, m: ControlMessage, io: TunnelIO, w': World)
    requires Inv(w) && Step(w, TunnelMove(TunnelMsgTurn(m), io), w')
    requires w.t.state == WaitCtlReply || w.t.state == TunnelEstablished
    requires m.V2? && m.tid == w.t.cfg.tunnelId % 0x1_0000 && Validates(m) && m.GetType() == Ok(6)
    ensures w' == w
  {
    hide Inv, Validates, ControlMessage.GetType;
    assert TunnelEventOf(m) == Some(None);
    assert TakeTunnelTurn(w.t, TunnelMsgTurn(m), io) == w.t;
  }

  // ---------------------------------------------------------------------------
  // Whole runs

  /** One step: what is passed to a session is put behind its inbox, what it takes comes from
      the front. */
  lemma {:induction false} StepInbox(w: World, mv: Move, w': World, i: nat)
    requires Inv(w) && Step(w, mv, w') && i < |w.members|
    ensures |w.members| <= |w'.members| && TakenBy(mv, i) + w'.members[i].inbox == w.members[i].inbox + PassedTo(w, mv, i)
  {
    hide Inv, TakeTunnelTurn, AfterTunnel, Delivered, PassOn, Addresses, TakeTurn, Index.Link, Index.Unlink, FinishClose, ForSessions,
      Forwards;
    var inbox := w.members[i].inbox;
    assert inbox + [] == inbox;
    match mv
    case TunnelMove(turn, io) => TunnelStepInbox(w, turn, io, w', i);
    case AddMove(_, _, _, io) => AfterTunnelInbox(w, TakeTunnelTurn(w.t, AddTurn, io), i);
    case FinishMove =>
    case SessionMove(j, turn, a) =>
      if j == i && turn.MsgTurn? {
        assert inbox == [inbox[0]] + inbox[1..];
      }
    case UserCloseMove(_) =>
  }

  lemma {:induction false} TunnelStepInbox(w: World, turn: TunnelTurn, io: TunnelIO, w': World, i: nat)
    requires Inv(w) && Step(w, TunnelMove(turn, io), w') && i < |w.members|
    ensures |w.members| == |w'.members| && w'.members[i].inbox == w.members[i].inbox + PassedTo(w, TunnelMove(turn, io), i)
  {
    hide Inv, TakeTunnelTurn, AfterTunnel, Delivered, PassOn, Addresses, ForSessions, Forwards;
    var inbox := w.members[i].inbox;
    assert inbox + [] == inbox;
    if turn.TunnelMsgTurn? && ForSessions(w, turn.m) {
      SessionMessageIsForwarded(w, turn.m, io, w');
    } else {
      AfterTunnelInbox(w, TakeTunnelTurn(w.t, turn, io), i);
      if turn.TunnelMsgTurn? {
        ForwardsIff(w, turn.m);
      }
    }
  }

  lemma {:induction false} AfterTunnelInbox(w: World, t': Tunnel, i: nat)
    requires i < |w.members|
    ensures |AfterTunnel(w, t').members| == |w.members| && AfterTunnel(w, t').members[i].inbox == w.members[i].inbox
  {
    hide Drained, ComesUp, World.Linked;
  }

  /** What the moves of a run pass to session i, from the state with which it joined. */
  ghost function AllPassed(run: Run, i: nat, j: nat, k: nat): seq<ControlMessage>
    requires j <= k <= |run.moves| < |run.states|
    decreases k
  {
    if j == k then [] else AllPassed(run, i, j, k - 1) + PassedTo(run.states[k - 1], run.moves[k - 1], i)
  }

  function AllTaken(moves: seq<Move>, i: nat): seq<ControlMessage> {
    if moves == [] then [] else AllTaken(moves[..|moves| - 1], i) + TakenBy(moves[|moves| - 1], i)
  }

  /** In every run, over any stretch of it, the messages session i takes are those passed to it,
      in that order, each once, after what its inbox held; the rest is still there.  So a message for a
      session is neither lost, doubled, overtaken nor given to another. */
  lemma {:induction false} NothingLostOnTheWay(cfg: TunnelConfig, run: Run, i: nat, j: nat, k: nat)
    requires IsRun(cfg, run) && j <= k < |run.states| && i < |run.states[j].members|
    ensures i < |run.states[k].members|
    ensures run.states[j].members[i].inbox + AllPassed(run, i, j, k)
         == AllTaken(run.moves[j..k], i) + run.states[k].members[i].inbox
    decreases k
  {
    hide Inv, Step, PassedTo, TakenBy;
    var moves := run.moves[j..k];
    var start := run.states[j].members[i].inbox;
    if j == k {
      assert moves == [] && start + [] == [] + start;
    } else {
      NothingLostOnTheWay(cfg, run, i, j, k - 1);
      RunInv(cfg, run, k - 1);
      StepInbox(run.states[k - 1], run.moves[k - 1], run.states[k], i);
      LastOfSlice(run.moves, j, k);
      var before, after := run.states[k - 1].members[i].inbox, run.states[k].members[i].inbox;
      var passed, taken := PassedTo(run.states[k - 1], run.moves[k - 1], i), TakenBy(run.moves[k - 1], i);
      var all, got := AllPassed(run, i, j, k - 1), AllTaken(run.moves[j..k - 1], i);
      Shift(start, all, passed, got, taken, before, after);
    }
  }

  lemma {:induction false} LastOfSlice(moves: seq<Move>, j: nat, k: nat)
    requires j < k <= |moves|
    ensures var s := moves[j..k];
            s[..|s| - 1] == moves[j..k - 1] && s[|s| - 1] == moves[k - 1]
  {
    var s := moves[j..k];
    assert s[..|s| - 1] == moves[j..k - 1];
  }

  lemma {:induction false} Shift(start: seq<ControlMessage>, all: seq<ControlMessage>, passed: seq<ControlMessage>,
                                 got: seq<ControlMessage>, taken: seq<ControlMessage>, before: seq<ControlMessage>, after: seq<ControlMessage>)
    requires start + all == got + before && taken + after == before + passed
    ensures start + (all + passed) == (got + taken) + after
  {
    assert start + (all + passed) == (start + all) + passed;
    assert (got + before) + passed == got + (before + passed);
    assert (got + taken) + after == got + (taken + after);
  }

  /** In every run, whatever is in a session's inbox is a valid session message with its ID. */
  lemma {:induction false} InboxIsOwn(cfg: TunnelConfig, run: Run, k: nat, i: nat, x: nat)
    requires IsRun(cfg, run) && k < |run.states| && i < |run.states[k].members| && x < |run.states[k].members[i].inbox|
    ensures var m := run.states[k].members[i].inbox[x];
            && m.V2? && m.sid == run.states[k].members[i].s.cfg.sessionId && Validates(m)
            && m.GetType().Ok? && m.GetType().value in {10, 11, 12, 14}
    decreases k
  {
    hide Step, Inv, Validates, ControlMessage.GetType;
    if k > 0 {
      var w, mv, w' := run.states[k - 1], run.moves[k - 1], run.states[k];
      RunInv(cfg, run, k - 1);
      if i < |w.members| {
        StepInbox(w, mv, w', i);
        StepKeepsId(w, mv, w', i);
        var m, n := w'.members[i].inbox[x], |TakenBy(mv, i)|;
        assert m == (TakenBy(mv, i) + w'.members[i].inbox)[n + x];
        if n + x < |w.members[i].inbox| {
          InboxIsOwn(cfg, run, k - 1, i, n + x);
        } else {
          InvIndex(w);
          assert PassedTo(w, mv, i) == [m];
        }
      } else {
        JoinsEmpty(w, mv, w', i);
      }
    }
  }

  lemma {:induction false} StepKeepsId(w: World, mv: Move, w': World, i: nat)
    requires Inv(w) && Step(w, mv, w') && i < |w.members| && i < |w'.members|
    ensures w'.members[i].s.cfg.sessionId == w.members[i].s.cfg.sessionId
  {
    hide Inv, TakeTunnelTurn, AfterTunnel, Delivered, TakeTurn, Index.Link, Index.Unlink, FinishClose, Forwards, Enabled;
    match mv
    case TunnelMove(turn, io) => AfterTunnelKeeps(w, TakeTunnelTurn(w.t, turn, io), i);
    case AddMove(_, _, _, io) => AfterTunnelKeeps(w, TakeTunnelTurn(w.t, AddTurn, io), i);
    case SessionMove(j, turn, a) =>
      if j == i {
        TurnKeeps(w.members[i].s, w.t.cfg.peerTunnelId, turn,
                  SessionIO(Fate(w.t, a.acked, a.early), a.dataPlaneUp, a.ifnameOk, a.text));
      }
    case _ =>
  }

  lemma {:induction false} AfterTunnelKeeps(w: World, t': Tunnel, i: nat)
    requires i < |w.members|
    ensures |AfterTunnel(w, t').members| == |w.members| && AfterTunnel(w, t').members[i].s == w.members[i].s
  {
    hide Drained, ComesUp, World.Linked;
  }

  lemma {:induction false} JoinsEmpty(w: World, mv: Move, w': World, i: nat)
    requires Step(w, mv, w') && |w.members| <= i < |w'.members|
    ensures w'.members[i].inbox == []
  {
    hide TakeTunnelTurn, AfterTunnel, Delivered, MemberAfter, Index.Link, Index.Unlink, FinishClose, Forwards, Enabled;
    match mv
    case TunnelMove(turn, io) => AfterTunnelKeepsTunnel(w, TakeTunnelTurn(w.t, turn, io));
    case AddMove(_, _, _, io) => AfterTunnelKeepsTunnel(w, TakeTunnelTurn(w.t, AddTurn, io));
    case _ =>
  }

  // ---------------------------------------------------------------------------
  // Sessions that join

  /** A session added while the tunnel waits is entered in both maps and not told to open; added
      while it is up, it is entered and told at once; added to a closed tunnel, neither. */
  lemma {:induction false} AddedSession(w: World, name: string, serial: u32, sid: u32, io: TunnelIO, w': World)
    requires Inv(w) && Step(w, AddMove(name, serial, sid, io), w')
    ensures |w'.members| == |w.members| + 1 && w'.members[|w.members|].s == NewSession(name, serial, sid)
    ensures w.t.state == WaitCtlReply || w.t.state == TunnelEstablished ==>
              && w'.t == w.t && w'.members[..|w.members|] == w.members
              && w'.ix.byName == w.ix.byName[name := Ref(|w.members|, name, sid)]
              && w'.ix.byId == w.ix.byId[sid := Ref(|w.members|, name, sid)]
              && w'.members[|w.members|].opens == (if w.t.state == TunnelEstablished then 1 else 0)
    ensures w.t.state == TunnelDead ==> w'.ix == w.ix && w'.members[|w.members|].opens == 0
  {
    hide Inv, TakeTunnelTurn, AfterTunnel;
    AfterTunnelKeepsTunnel(w, TakeTunnelTurn(w.t, AddTurn, io));
    if w.t.state == WaitCtlReply || w.t.state == TunnelEstablished {
      AddLeavesTunnel(w, io);
    } else {
      InvIndex(w);
      DeadAdds(w, io);
    }
  }

  /** Session i is the one the name map holds under its name. */
  predicate Named(w: World, i: nat)
    requires i < |w.members|
  {
    var s := w.members[i].s;
    s.name in w.ix.byName && w.ix.byName[s.name] == Ref(i, s.name, s.cfg.sessionId)
  }

  /** The step that brings the tunnel up tells the sessions in the name map to open, and the one
      that begins its closing kills them; no other step tells a session anything. */
  lemma {:induction false} SessionsAreTold(w: World, mv: Move, w': World, i: nat)
    requires Inv(w) && Step(w, mv, w') && i < |w.members|
    ensures |w.members| <= |w'.members|
    ensures w'.members[i].opens == w.members[i].opens + if !w.t.established && w'.t.established && Named(w, i) then 1 else 0
    ensures w'.members[i].kills == w.members[i].kills + if !w.t.isClosing && w'.t.isClosing && Named(w, i) then 1 else 0
  {
    hide Inv, TakeTunnelTurn, AfterTunnel, Delivered, PassOn, MemberAfter, Index.Link, Index.Unlink, Named;
    match mv
    case TunnelMove(turn, io) =>
      AfterTunnelTells(w, TakeTunnelTurn(w.t, turn, io), i);
      if turn.TunnelMsgTurn? && Forwards(w.t, turn.m) {
        PassOnTells(AfterTunnel(w, TakeTunnelTurn(w.t, turn, io)), turn.m.sid, turn.m, i);
      }
    case AddMove(_, _, _, io) => AfterTunnelTells(w, TakeTunnelTurn(w.t, AddTurn, io), i);
    case SessionMove(j, turn, a) => MemberAfterTells(w.t, w.members[j], turn, a);
    case _ =>
  }

  lemma {:induction false} AfterTunnelTells(w: World, t': Tunnel, i: nat)
    requires i < |w.members|
    ensures var w' := AfterTunnel(w, t');
            && w'.t == t' && |w'.members| == |w.members|
            && w'.members[i].opens == w.members[i].opens + (if !w.t.established && t'.established && Named(w, i) then 1 else 0)
            && w'.members[i].kills == w.members[i].kills + (if !w.t.isClosing && t'.isClosing && Named(w, i) then 1 else 0)
  {
    hide Drained;
    assert w.Linked(i) == Named(w, i) == w.(members := OpenAll(w)).Linked(i);
  }

  lemma {:induction false} PassOnTells(w: World, sid: u32, m: ControlMessage, i: nat)
    requires i < |w.members|
    ensures var w' := PassOn(w, sid, m);
            && w'.t == w.t && |w'.members| == |w.members|
            && w'.members[i].opens == w.members[i].opens && w'.members[i].kills == w.members[i].kills
  {
  }

  lemma {:induction false} MemberAfterTells(t: Tunnel, m: Member, turn: SessionTurn, a: Answers)
    ensures MemberAfter(t, m, turn, a).opens == m.opens && MemberAfter(t, m, turn, a).kills == m.kills
  {
    hide TakeTurn;
  }

  /** A session's call, by what its tunnel is doing.  It is sent, with the result the transport
      gives, while the transport is open; refused once the tunnel waits for its sessions to end,
      unless it came first; and on a closed transport, or if the tunnel's loop has stopped, it never
      returns. */
  lemma {:induction false} CallIsSent(w: World, i: nat, a: Answers, w': World)
    requires Inv(w) && Step(w, SessionMove(i, OpenTurn, a), w')
    requires w.members[i].s.state == WaitTunnel && SessionAnswers.Able(w.members[i].s, w.t.cfg.peerTunnelId)
    ensures var s, s' := w.members[i].s, w'.members[i].s;
            var refused := w.t.busy && !a.early;
            && w'.members[i].taken == w.members[i].taken + 1 && s'.state == WaitReply
            && s'.sends == (if !refused && w.t.xportOpen && !w.t.halted
                            then s.sends + [Submission(Icrq(s.serial, w.t.cfg.peerTunnelId, s.cfg), a.acked)] else s.sends)
            && (s'.halted <==> !refused && (!w.t.xportOpen || w.t.halted))
            && (s'.isClosed <==> refused || (!s'.halted && !a.acked))
  {
    hide IndexOk, LinkedOk, TunnelOk, TakeTurn, Index.Unlink;
    var s := w.members[i].s;
    assert MemberOk(w.t, w.members[i]);
    SessionAnswers.AnswersRequests(s, w.t.cfg.peerTunnelId, SessionIO(Fate(w.t, a.acked, a.early), a.dataPlaneUp, a.ifnameOk, a.text));
  }

  lemma {:induction false} DeadAdds(w: World, io: TunnelIO)
    requires TunnelOk(w.t) && w.t.Ready() && w.t.state == TunnelDead
    ensures AfterTunnel(w, TakeTunnelTurn(w.t, AddTurn, io)) == w
  {
    assert TakeTunnelTurn(w.t, AddTurn, io) == w.t;
  }
}
