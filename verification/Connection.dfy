/** A tunnel and its sessions as one machine: the tunnel's loop, each session's loop and the
    user take turns in any order. */
module Connections {
  import opened Wire
  import opened Avps
  import opened Messages
  import opened Validation
  import opened Builders
  import opened Sessions
  import opened SessionSafety
  import opened Tunnels
  import opened TunnelSafety
  import opened SessionIndex

  /** A session with what is on its way to it: how often the tunnel has told it to open and
      it has taken notice, messages passed on, how often it was killed, and whether the user
      has closed it. */
  datatype Member = Member(s: Session, opens: nat, taken: nat, inbox: seq<ControlMessage>, kills: nat, closeAsked: bool)

  datatype World = World(t: Tunnel, ix: Index, members: seq<Member>) {
    function RefOf(i: nat): Ref
      requires i < |members|
    {
      Ref(i, members[i].s.name, members[i].s.cfg.sessionId)
    }

    predicate Linked(i: nat)
      requires i < |members|
    {
      ix.NameLinked(RefOf(i))
    }
  }

  function Begin(cfg: TunnelConfig): World {
    World(NewTunnel(cfg), EMPTY, [])
  }

  // ---------------------------------------------------------------------------
  // Steps

  /** The answers of the environment to a session's turn; early if the tunnel's loop took the
      turn's message before the tunnel began to close, which waits for such messages. */
  datatype Answers = Answers(acked: bool, dataPlaneUp: bool, ifnameOk: bool, text: seq<byte>, early: bool)

  datatype Move =
    | TunnelMove(turn: TunnelTurn, tio: TunnelIO)
    | AddMove(name: string, serial: u32, sid: u32, tio: TunnelIO)
    | FinishMove
    | SessionMove(i: nat, sturn: SessionTurn, answers: Answers)
    | UserCloseMove(i: nat)

  /** What becomes of a message a session hands to the tunnel. */
  function Fate(t: Tunnel, acked: bool, early: bool): Outcome {
    if t.busy && !early then Refused else if !t.xportOpen || t.halted then Lost else if acked then Sent else Failed
  }

  function OpenAll(w: World): (ms: seq<Member>)
    ensures |ms| == |w.members|
    ensures forall i :: 0 <= i < |ms| ==> ms[i] == if w.Linked(i) then w.members[i].(opens := w.members[i].opens + 1) else w.members[i]
  {
    seq(|w.members|, i requires 0 <= i < |w.members| =>
      if w.Linked(i) then w.members[i].(opens := w.members[i].opens + 1) else w.members[i])
  }

  function KillAll(w: World): (ms: seq<Member>)
    ensures |ms| == |w.members|
    ensures forall i :: 0 <= i < |ms| ==> ms[i] == if w.Linked(i) then w.members[i].(kills := w.members[i].kills + 1) else w.members[i]
  {
    seq(|w.members|, i requires 0 <= i < |w.members| =>
      if w.Linked(i) then w.members[i].(kills := w.members[i].kills + 1) else w.members[i])
  }

  /** The sessions' share of a tunnel's turn: they are told when it comes up, and killed and
      unlinked when it begins to close. */
  function AfterTunnel(w: World, t': Tunnel): World {
    var w1 := if ComesUp(w.t, t') then w.(members := OpenAll(w)) else w;
    if !w.t.isClosing && t'.isClosing then World(t', Drained(w.ix), KillAll(w1)) else w1.(t := t')
  }

  /** A message from the transport: parsed, and of a readable type. */
  predicate Delivered(m: ControlMessage) {
    AllWellFormed(m.avps) && m.GetType().Ok?
  }

  function PassOn(w: World, sid: u32, m: ControlMessage): World {
    if sid in w.ix.byId && w.ix.byId[sid].handle < |w.members| then
      var h := w.ix.byId[sid].handle;
      w.(members := w.members[h := w.members[h].(inbox := w.members[h].inbox + [m])])
    else w
  }

  predicate Enabled(m: Member, turn: SessionTurn) {
    m.s.Running() &&
    match turn
    case MsgTurn(msg) => m.inbox != [] && m.inbox[0] == msg
    case OpenTurn => m.taken < m.opens
    case KillTurn => m.kills > 0
    case CloseTurn => m.closeAsked
  }

  ghost function MemberAfter(t: Tunnel, m: Member, turn: SessionTurn, a: Answers): Member {
    var io := SessionIO(Fate(t, a.acked, a.early), a.dataPlaneUp, a.ifnameOk, a.text);
    m.(s := TakeTurn(m.s, t.cfg.peerTunnelId, turn, io),
       taken := if turn == OpenTurn then m.taken + 1 else m.taken,
       inbox := if turn.MsgTurn? && m.inbox != [] then m.inbox[1..] else m.inbox)
  }

  /** A session that closes takes itself out of the tunnel's maps. */
  ghost function AfterSession(w: World, i: nat, turn: SessionTurn, a: Answers): World
    requires i < |w.members|
  {
    var m' := MemberAfter(w.t, w.members[i], turn, a);
    World(w.t, if m'.s.isClosed then w.ix.Unlink(w.RefOf(i)) else w.ix, w.members[i := m'])
  }

  /** A new session is linked by the tunnel's loop and, once the tunnel is up, started. */
  ghost function AfterAdd(w: World, name: string, serial: u32, sid: u32, io: TunnelIO): World {
    var act := TunnelNext(w.t.state, AddSession);
    var start := act.Some? && act.value.0 == Some(StartSession);
    var link := act.Some? && act.value.0 == Some(LinkSession);
    var m := Member(NewSession(name, serial, sid), if start then 1 else 0, 0, [], 0, false);
    var w1 := AfterTunnel(w, TakeTunnelTurn(w.t, AddTurn, io));
    World(w1.t, if start || link then w1.ix.Link(Ref(|w.members|, name, sid)) else w1.ix, w1.members + [m])
  }

  ghost predicate Step(w: World, mv: Move, w': World) {
    match mv
    case TunnelMove(turn, io) =>
      && w.t.Ready() && (w.t.state == Idle <==> turn == StartTurn) && turn != AddTurn
      && (turn.TunnelMsgTurn? ==> Delivered(turn.m))
      && var w1 := AfterTunnel(w, TakeTunnelTurn(w.t, turn, io));
         w' == if turn.TunnelMsgTurn? && Forwards(w.t, turn.m) then PassOn(w1, turn.m.sid, turn.m) else w1
    case AddMove(name, serial, sid, io) =>
      && w.t.Ready() && w.t.state != Idle && name !in w.ix.byName && sid !in w.ix.byId
      && w' == AfterAdd(w, name, serial, sid, io)
    case FinishMove =>
      && w.t.busy && (forall i :: 0 <= i < |w.members| && w.members[i].kills > 0 ==> w.members[i].s.isClosed && !w.members[i].s.halted)
      && w' == w.(t := FinishClose(w.t))
    case SessionMove(i, turn, a) =>
      i < |w.members| && Enabled(w.members[i], turn) && w' == AfterSession(w, i, turn, a)
    case UserCloseMove(i) =>
      && i < |w.members| && !w.members[i].closeAsked
      && w' == World(w.t, w.ix.Unlink(w.RefOf(i)), w.members[i := w.members[i].(closeAsked := true)])
  }

  datatype Run = Run(states: seq<World>, moves: seq<Move>)

  ghost predicate IsRun(cfg: TunnelConfig, run: Run) {
    && |run.states| == |run.moves| + 1
    && run.states[0] == Begin(cfg)
    && forall k :: 0 <= k < |run.moves| ==> Step(run.states[k], run.moves[k], run.states[k + 1])
  }

  // ---------------------------------------------------------------------------
  // The invariant

  /** The tunnel has come up: its handshake completed and the user was told. */
  predicate WasUp(t: Tunnel) {
    Shaken(t) && t.notices != [] && t.notices[0] == Up
  }

  predicate MemberOk(t: Tunnel, m: Member) {
    && SessionOk(m.s) && m.taken <= m.opens <= 1 && m.kills <= 1
    && (m.s.sends != [] || m.s.state in {WaitReply, SessionEstablished} ==> m.taken == 1)
    && (m.opens == 1 ==> WasUp(t) || !t.xportOpen)
    && (m.s.sends != [] ==> WasUp(t))
    && (forall k :: 0 <= k < |m.s.sends| ==> m.s.sends[k].req.PeerTid() == t.cfg.peerTunnelId && m.s.sends[k].req.Message().Ok?)
    && (m.kills == 1 ==> t.isClosing)
    && (t.state in {Idle, WaitCtlReply} ==> m.opens == 0)
  }

  predicate LinkedOk(w: World, i: nat)
    requires i < |w.members|
  {
    w.Linked(i) ==> w.members[i].kills == 0 && (w.t.established ==> w.members[i].opens == 1)
  }

  /** Every entry of the maps is filed under its own key and is the session it says. */
  ghost predicate IndexOk(w: World) {
    && w.ix.Filed()
    && (forall n :: n in w.ix.byName ==> var h := w.ix.byName[n].handle; h < |w.members| && w.ix.byName[n] == w.RefOf(h))
    && (forall k :: k in w.ix.byId ==> var h := w.ix.byId[k].handle; h < |w.members| && w.ix.byId[k] == w.RefOf(h))
  }

  ghost predicate Inv(w: World) {
    && TunnelOk(w.t) && IndexOk(w)
    && (forall i :: 0 <= i < |w.members| ==> MemberOk(w.t, w.members[i]))
    && (forall i :: 0 <= i < |w.members| ==> LinkedOk(w, i))
  }

  // ---------------------------------------------------------------------------
  // Every step keeps the invariant

  lemma {:induction false} WasUpStays(t: Tunnel, t': Tunnel)
    requires WasUp(t) && Advances(t, t')
    ensures WasUp(t') && t'.cfg == t.cfg
  {
  }

  /** A member is untouched by the tunnel's progress. */
  lemma {:induction false} MemberStays(t: Tunnel, t': Tunnel, m: Member)
    requires MemberOk(t, m) && Advances(t, t')
    ensures MemberOk(t', m)
  {
  }

  lemma {:induction false} MemberOpens(t: Tunnel, t': Tunnel, m: Member)
    requires MemberOk(t, m) && Advances(t, t') && TunnelOk(t') && t'.established
    requires t.state == WaitCtlReply && t'.state == TunnelEstablished
    ensures MemberOk(t', m.(opens := m.opens + 1))
  {
  }

  lemma {:induction false} AfterTunnelInv(w: World, t': Tunnel)
    requires Inv(w) && TunnelOk(t') && Advances(w.t, t')
    requires Quiet(w.t, t') || (ComesUp(w.t, t') && w.t.state == WaitCtlReply && t'.state == TunnelEstablished && !t'.isClosing)
    ensures Inv(AfterTunnel(w, t'))
  {
    hide Inv, TunnelOk, Advances, OpenAll, KillAll, Drained;
    if ComesUp(w.t, t') {
      OpenInv(w, t');
    } else if !w.t.isClosing && t'.isClosing {
      KillInv(w, t');
    } else {
      OnwardInv(w, t');
    }
  }

  lemma {:induction false} OnwardInv(w: World, t': Tunnel)
    requires Inv(w) && TunnelOk(t') && Advances(w.t, t') && Quiet(w.t, t')
    ensures Inv(w.(t := t'))
  {
    hide TunnelOk, MemberOk, Advances;
    var w' := w.(t := t');
    forall i | 0 <= i < |w'.members|
      ensures MemberOk(t', w'.members[i]) && LinkedOk(w', i)
    {
      assert LinkedOk(w, i);
      MemberStays(w.t, t', w.members[i]);
    }
  }

  lemma {:induction false} OpenInv(w: World, t': Tunnel)
    requires Inv(w) && TunnelOk(t') && Advances(w.t, t')
    requires ComesUp(w.t, t') && w.t.state == WaitCtlReply && t'.state == TunnelEstablished
    ensures Inv(w.(members := OpenAll(w), t := t'))
  {
    hide TunnelOk, Advances, SessionOk, WasUp;
    var w' := w.(members := OpenAll(w), t := t');
    forall i | 0 <= i < |w'.members|
      ensures MemberOk(t', w'.members[i]) && w'.members[i].s == w.members[i].s && LinkedOk(w', i)
    {
      assert MemberOk(w.t, w.members[i]) && LinkedOk(w, i);
      MemberStays(w.t, t', w.members[i]);
      MemberOpens(w.t, t', w.members[i]);
    }
    IndexStays(w, w');
  }

  lemma {:induction false} KillInv(w: World, t': Tunnel)
    requires Inv(w) && TunnelOk(t') && Advances(w.t, t') && t'.isClosing
    ensures Inv(World(t', Drained(w.ix), KillAll(w)))
  {
    hide TunnelOk, Advances, SessionOk, WasUp;
    var w' := World(t', Drained(w.ix), KillAll(w));
    forall i | 0 <= i < |w'.members|
      ensures MemberOk(t', w'.members[i]) && w'.members[i].s == w.members[i].s && LinkedOk(w', i)
    {
      assert MemberOk(w.t, w.members[i]) && LinkedOk(w, i);
      MemberStays(w.t, t', w.members[i]);
    }
    IndexStays(w, w');
  }

  /** Maps that only lost entries are still filed correctly. */
  lemma {:induction false} IndexStays(w: World, w': World)
    requires IndexOk(w) && |w'.members| == |w.members|
    requires forall i :: 0 <= i < |w.members| ==> w'.RefOf(i) == w.RefOf(i)
    requires forall n :: n in w'.ix.byName ==> n in w.ix.byName && w'.ix.byName[n] == w.ix.byName[n]
    requires forall k :: k in w'.ix.byId ==> k in w.ix.byId && w'.ix.byId[k] == w.ix.byId[k]
    ensures IndexOk(w')
  {
  }

  lemma {:induction false} PassOnInv(w: World, sid: u32, m: ControlMessage)
    requires Inv(w)
    ensures Inv(PassOn(w, sid, m))
  {
    hide SessionOk, TunnelOk, WasUp, IndexOk;
    var w' := PassOn(w, sid, m);
    forall i | 0 <= i < |w'.members|
      ensures MemberOk(w'.t, w'.members[i]) && w'.RefOf(i) == w.RefOf(i) && LinkedOk(w', i)
    {
      assert MemberOk(w.t, w.members[i]) && LinkedOk(w, i);
    }
    IndexStays(w, w');
  }

  lemma {:induction false} FinishInv(w: World)
    requires Inv(w) && w.t.busy
    ensures Inv(w.(t := FinishClose(w.t)))
  {
    var w' := w.(t := FinishClose(w.t));
    FinishCloseOk(w.t);
    forall i | 0 <= i < |w'.members|
      ensures MemberOk(w'.t, w'.members[i]) && LinkedOk(w', i)
    {
      assert MemberOk(w.t, w.members[i]) && LinkedOk(w, i);
      MemberStays(w.t, w'.t, w.members[i]);
    }
    hide MemberOk, TunnelOk, LinkedOk;
  }

  lemma {:induction false} UserCloseInv(w: World, i: nat)
    requires Inv(w) && i < |w.members|
    ensures Inv(World(w.t, w.ix.Unlink(w.RefOf(i)), w.members[i := w.members[i].(closeAsked := true)]))
  {
    hide SessionOk, TunnelOk, WasUp, IndexOk;
    var w' := World(w.t, w.ix.Unlink(w.RefOf(i)), w.members[i := w.members[i].(closeAsked := true)]);
    forall j | 0 <= j < |w'.members|
      ensures MemberOk(w'.t, w'.members[j]) && w'.RefOf(j) == w.RefOf(j) && LinkedOk(w', j)
    {
      assert MemberOk(w.t, w.members[j]) && LinkedOk(w, j);
    }
    IndexStays(w, w');
  }

  lemma {:induction false} MemberTurns(t: Tunnel, m: Member, turn: SessionTurn, a: Answers)
    requires TunnelOk(t) && MemberOk(t, m) && Enabled(m, turn)
    ensures var m' := MemberAfter(t, m, turn, a);
            SameKeys(m.s, m'.s) && MemberOk(t, m') && m'.kills == m.kills && m'.opens == m.opens
  {
    hide TunnelOk, SessionOk, TakeTurn, Request.Message, Request.PeerTid, WasUp;
    var io := SessionIO(Fate(t, a.acked, a.early), a.dataPlaneUp, a.ifnameOk, a.text);
    if m.s.state == WaitReply {
      WaitingKnowsPeer(t, m);
    }
    TurnOk(m.s, t.cfg.peerTunnelId, turn, io);
    TurnKeeps(m.s, t.cfg.peerTunnelId, turn, io);
  }

  lemma {:induction false} WaitingKnowsPeer(t: Tunnel, m: Member)
    requires MemberOk(t, m) && m.s.Running() && m.s.state == WaitReply
    ensures t.cfg.peerTunnelId <= V2_ID_MAX
  {
  }

  lemma {:induction false} SessionMoveInv(w: World, i: nat, turn: SessionTurn, a: Answers)
    requires Inv(w) && i < |w.members| && Enabled(w.members[i], turn)
    ensures Inv(AfterSession(w, i, turn, a))
  {
    hide SessionOk, TunnelOk, WasUp, IndexOk, MemberAfter, Enabled;
    var w' := AfterSession(w, i, turn, a);
    MemberTurns(w.t, w.members[i], turn, a);
    forall j | 0 <= j < |w'.members|
      ensures MemberOk(w'.t, w'.members[j]) && w'.RefOf(j) == w.RefOf(j) && LinkedOk(w', j)
    {
      assert MemberOk(w.t, w.members[j]) && LinkedOk(w, j);
    }
    IndexStays(w, w');
  }

  /** When the tunnel accepts a session it stays as it is. */
  lemma {:induction false} AddLeavesTunnel(w: World, io: TunnelIO)
    requires w.t.state == WaitCtlReply || w.t.state == TunnelEstablished
    ensures TakeTunnelTurn(w.t, AddTurn, io) == w.t && AfterTunnel(w, w.t) == w
  {
    var (a, dst) := TunnelNext(w.t.state, AddSession).value;
    assert TunnelHandle(w.t, AddSession, NoArgs, io) == DoTunnelAction(w.t.(state := dst), a, NoArgs, io);
  }

  lemma {:induction false} NewMemberOk(t: Tunnel, name: string, serial: u32, sid: u32)
    ensures MemberOk(t, Member(NewSession(name, serial, sid), 0, 0, [], 0, false))
    ensures TunnelOk(t) && t.Ready() && t.state == TunnelEstablished ==>
              MemberOk(t, Member(NewSession(name, serial, sid), 1, 0, [], 0, false))
    ensures TunnelOk(t) && t.state == WaitCtlReply ==> !t.established
  {
  }

  lemma {:induction false} AddInv(w: World, name: string, serial: u32, sid: u32, io: TunnelIO)
    requires Inv(w) && w.t.Ready() && w.t.state != Idle && name !in w.ix.byName && sid !in w.ix.byId
    ensures Inv(AfterAdd(w, name, serial, sid, io))
  {
    hide TunnelOk, TakeTunnelTurn, AfterTunnel, Advances, MemberOk, Validates, IndexOk, LinkedOk;
    var t' := TakeTunnelTurn(w.t, AddTurn, io);
    TunnelTurnOk(w.t, AddTurn, io);
    TurnComesUp(w.t, AddTurn, io);
    AfterTunnelInv(w, t');
    NewMemberOk(t', name, serial, sid);
    var linked := w.t.state == WaitCtlReply || w.t.state == TunnelEstablished;
    if linked {
      AddLeavesTunnel(w, io);
    }
    var m := Member(NewSession(name, serial, sid), if w.t.state == TunnelEstablished then 1 else 0, 0, [], 0, false);
    AfterTunnelKeepsTunnel(w, t');
    AppendInv(AfterTunnel(w, t'), m, linked);
  }

  lemma {:induction false} AfterTunnelKeepsTunnel(w: World, t': Tunnel)
    ensures AfterTunnel(w, t').t == t' && |AfterTunnel(w, t').members| == |w.members|
  {
  }

  lemma {:induction false} AppendInv(w: World, m: Member, link: bool)
    requires Inv(w) && MemberOk(w.t, m) && m.kills == 0
    requires link ==> m.s.name !in w.ix.byName && m.s.cfg.sessionId !in w.ix.byId && (w.t.established ==> m.opens == 1)
    ensures var r := Ref(|w.members|, m.s.name, m.s.cfg.sessionId);
            Inv(World(w.t, if link then w.ix.Link(r) else w.ix, w.members + [m]))
  {
    hide TunnelOk, MemberOk, IndexOk;
    var r := Ref(|w.members|, m.s.name, m.s.cfg.sessionId);
    var w' := World(w.t, if link then w.ix.Link(r) else w.ix, w.members + [m]);
    AppendIndex(w, w', r, link);
    forall j | 0 <= j < |w'.members|
      ensures MemberOk(w'.t, w'.members[j]) && LinkedOk(w', j)
    {
      if j < |w.members| {
        assert LinkedOk(w, j) && w'.RefOf(j) == w.RefOf(j);
      }
    }
  }

  lemma {:induction false} AppendIndex(w: World, w': World, r: Ref, link: bool)
    requires IndexOk(w) && |w'.members| == |w.members| + 1 && w'.members[..|w.members|] == w.members
    requires w'.RefOf(|w.members|) == r && w'.ix == (if link then w.ix.Link(r) else w.ix)
    ensures IndexOk(w') && (r.handle == |w.members| ==> !w.ix.NameLinked(r))
  {
    assert forall j :: 0 <= j < |w.members| ==> w'.members[j] == w.members[j];
    assert forall j :: 0 <= j < |w.members| ==> w'.RefOf(j) == w.RefOf(j);
  }

  lemma {:induction false} TunnelMoveInv(w: World, turn: TunnelTurn, io: TunnelIO, w': World)
    requires Inv(w) && Step(w, TunnelMove(turn, io), w')
    ensures Inv(w')
  {
    hide TunnelOk, TakeTunnelTurn, AfterTunnel, Advances, Forwards, PassOn, Validates, IndexOk, MemberOk, LinkedOk, Delivered;
    var t' := TakeTunnelTurn(w.t, turn, io);
    TunnelTurnOk(w.t, turn, io);
    TurnComesUp(w.t, turn, io);
    AfterTunnelInv(w, t');
    if turn.TunnelMsgTurn? && Forwards(w.t, turn.m) {
      ForwardsV2(w.t, turn.m);
      PassOnInv(AfterTunnel(w, t'), turn.m.sid, turn.m);
    }
  }

  lemma {:induction false} ForwardsV2(t: Tunnel, m: ControlMessage)
    requires Forwards(t, m)
    ensures m.V2?
  {
  }

  lemma {:induction false} StepInv(w: World, mv: Move, w': World)
    requires Inv(w) && Step(w, mv, w')
    ensures Inv(w')
  {
    hide Inv, TakeTunnelTurn, AfterTunnel, AfterAdd, AfterSession, Forwards, PassOn, Enabled, Delivered, FinishClose;
    match mv
    case TunnelMove(turn, io) => TunnelMoveInv(w, turn, io, w');
    case AddMove(name, serial, sid, io) => AddInv(w, name, serial, sid, io);
    case FinishMove => FinishInv(w);
    case SessionMove(i, turn, a) => SessionMoveInv(w, i, turn, a);
    case UserCloseMove(i) => UserCloseInv(w, i);
  }

  lemma {:induction false} BeginInv(cfg: TunnelConfig)
    ensures Inv(Begin(cfg))
  {
  }

  /** Every state of every run satisfies the invariant. */
  lemma {:induction false} RunInv(cfg: TunnelConfig, run: Run, k: nat)
    requires IsRun(cfg, run) && k < |run.states|
    ensures Inv(run.states[k])
  {
    hide Inv, Step, Begin;
    if k == 0 {
      BeginInv(cfg);
    } else {
      RunInv(cfg, run, k - 1);
      StepInv(run.states[k - 1], run.moves[k - 1], run.states[k]);
    }
  }
}
