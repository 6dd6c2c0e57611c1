/** The tunnel's two session maps over whole runs. */
module IndexAgreement {
  import opened Wire
  import opened Builders
  import opened Sessions
  import opened SessionSafety
  import opened Tunnels
  import opened TunnelSafety
  import opened SessionIndex
  import opened Connections

  // ---------------------------------------------------------------------------
  // Starting and killing

  /** Every session is told to open at most once and killed at most once; while the tunnel is
      up, every linked session has been told exactly once, whether it was there before the
      tunnel came up or joined later. */
  lemma {:induction false} OpenedOnceKilledOnce(cfg: TunnelConfig, run: Run, k: nat, i: nat)
    requires IsRun(cfg, run) && k < |run.states| && i < |run.states[k].members|
    ensures var w := run.states[k];
            && w.members[i].opens <= 1 && w.members[i].kills <= 1
            && (w.t.established && w.Linked(i) ==> w.members[i].opens == 1 && w.members[i].kills == 0)
  {
    hide IsRun, IndexOk, TunnelOk, SessionOk, WasUp, World.Linked;
    RunInv(cfg, run, k);
    assert MemberOk(run.states[k].t, run.states[k].members[i]) && LinkedOk(run.states[k], i);
  }

  /** The step with which a tunnel begins to close kills every linked session, once, and no
      other, and forgets them by name; by ID too if the maps agreed. */
  lemma {:induction false} ClosingKillsLinked(cfg: TunnelConfig, run: Run, k: nat)
    requires IsRun(cfg, run) && k < |run.moves| && !run.states[k].t.isClosing && run.states[k + 1].t.isClosing
    ensures var w, w' := run.states[k], run.states[k + 1];
            && |w'.members| == |w.members| && w'.ix.byName == map[]
            && (w.ix.Agrees() ==> w'.ix == EMPTY)
            && forall i :: 0 <= i < |w.members| ==>
                 w'.members[i].kills == (if w.Linked(i) then 1 else w.members[i].kills)
  {
    var w, w', mv := run.states[k], run.states[k + 1], run.moves[k];
    hide Inv, TakeTunnelTurn, Forwards, Delivered, World.Linked, Drained, ComesUp, Index.Agrees;
    assert Step(w, mv, w');
    RunInv(cfg, run, k);
    OnlyTurnsClose(w, mv, w');
    var t' := TakeTunnelTurn(w.t, mv.turn, mv.tio);
    ClosingFacts(w, t');
    PassOnKeeps(AfterTunnel(w, t'), w');
  }

  /** Passing a message on touches only an inbox. */
  lemma {:induction false} PassOnKeeps(w1: World, w': World)
    requires w' == w1 || exists sid, m :: w' == PassOn(w1, sid, m)
    ensures w'.t == w1.t && w'.ix == w1.ix && |w'.members| == |w1.members|
    ensures forall i :: 0 <= i < |w1.members| ==> w'.members[i].kills == w1.members[i].kills && w'.members[i].s == w1.members[i].s
  {
  }

  lemma {:induction false} ClosingFacts(w: World, t': Tunnel)
    requires Inv(w) && !w.t.isClosing && t'.isClosing
    ensures var w' := AfterTunnel(w, t');
            && |w'.members| == |w.members| && w'.ix.byName == map[] && (w.ix.Agrees() ==> w'.ix == EMPTY)
            && forall i :: 0 <= i < |w.members| ==> w'.members[i].kills == (if w.Linked(i) then 1 else w.members[i].kills)
  {
    hide SessionOk, TunnelOk, MemberOk, IndexOk;
    if w.ix.Agrees() {
      DrainEmpties(w.ix);
    }
    forall i | 0 <= i < |w.members|
      ensures AfterTunnel(w, t').members[i].kills == (if w.Linked(i) then 1 else w.members[i].kills)
    {
      assert LinkedOk(w, i);
    }
  }

  lemma {:induction false} OnlyTurnsClose(w: World, mv: Move, w': World)
    requires Inv(w) && Step(w, mv, w') && !w.t.isClosing && w'.t.isClosing
    ensures mv.TunnelMove?
  {
    hide TakeTunnelTurn, IndexOk, MemberOk, LinkedOk, InTunnelOrder, TunnelPaired, MemberAfter, Enabled;
    if mv.AddMove? {
      AddLeavesTunnel(w, mv.tio);
    }
  }

  /** Once a tunnel has closed, every session it killed has ended. */
  ghost predicate EndedFirst(w: World) {
    w.t.isClosing && !w.t.busy ==> forall i :: 0 <= i < |w.members| && w.members[i].kills > 0 ==> Gone(w.members[i])
  }

  predicate Gone(m: Member) {
    m.s.isClosed && !m.s.halted
  }

  /** In every run a tunnel finishes closing only after the sessions it killed have ended. */
  lemma {:induction false} SessionsEndFirst(cfg: TunnelConfig, run: Run, k: nat)
    requires IsRun(cfg, run) && k < |run.states|
    ensures EndedFirst(run.states[k])
  {
    hide Inv, Step, EndedFirst;
    if k == 0 {
      NoneYet(cfg);
    } else {
      SessionsEndFirst(cfg, run, k - 1);
      RunInv(cfg, run, k - 1);
      StepEndedFirst(run.states[k - 1], run.moves[k - 1], run.states[k]);
    }
  }

  lemma {:induction false} NoneYet(cfg: TunnelConfig)
    ensures EndedFirst(Begin(cfg))
  {
  }

  lemma {:induction false} StepEndedFirst(w: World, mv: Move, w': World)
    requires Inv(w) && Step(w, mv, w') && EndedFirst(w)
    ensures EndedFirst(w')
  {
    hide Inv, TakeTunnelTurn, AfterTunnel, Delivered, MemberAfter, Index.Link, Index.Unlink, Forwards, Gone;
    match mv
    case TunnelMove(turn, io) =>
      TunnelClosesBusy(w, turn, io);
      AfterTunnelEnded(w, TakeTunnelTurn(w.t, turn, io));
      PassOnKeeps(AfterTunnel(w, TakeTunnelTurn(w.t, turn, io)), w');
      forall i | 0 <= i < |w'.members|
        ensures Gone(w'.members[i]) == Gone(AfterTunnel(w, TakeTunnelTurn(w.t, turn, io)).members[i])
      {
        SameGone(w'.members[i], AfterTunnel(w, TakeTunnelTurn(w.t, turn, io)).members[i]);
      }
    case AddMove(_, _, _, io) =>
      TunnelClosesBusy(w, AddTurn, io);
      AfterTunnelEnded(w, TakeTunnelTurn(w.t, AddTurn, io));
    case FinishMove =>
      assert forall i :: 0 <= i < |w.members| && w.members[i].kills > 0 ==> Gone(w.members[i]) by {
        FinishWaits(w, w');
      }
    case SessionMove(i, turn, a) =>
      RunningNotGone(w.members[i], turn);
      MemberAfterKills(w.t, w.members[i], turn, a);
    case UserCloseMove(i) =>
      SameGone(w'.members[i], w.members[i]);
  }

  lemma {:induction false} FinishWaits(w: World, w': World)
    requires Step(w, FinishMove, w')
    ensures forall i :: 0 <= i < |w.members| && w.members[i].kills > 0 ==> Gone(w.members[i])
  {
  }

  lemma {:induction false} SameGone(m: Member, m': Member)
    requires m.s == m'.s
    ensures Gone(m) == Gone(m')
  {
  }

  lemma {:induction false} RunningNotGone(m: Member, turn: SessionTurn)
    requires Enabled(m, turn)
    ensures !Gone(m)
  {
  }

  lemma {:induction false} MemberAfterKills(t: Tunnel, m: Member, turn: SessionTurn, a: Answers)
    ensures MemberAfter(t, m, turn, a).kills == m.kills
  {
    hide TakeTurn;
  }

  /** A turn does not end the closing: it begins it, or leaves the tunnel not busy and closed. */
  lemma {:induction false} TunnelClosesBusy(w: World, turn: TunnelTurn, io: TunnelIO)
    requires Inv(w) && w.t.Ready() && (w.t.state == Idle <==> turn == StartTurn)
    ensures var t' := TakeTunnelTurn(w.t, turn, io);
            t'.isClosing && !t'.busy ==> w.t.isClosing
  {
    hide IndexOk, MemberOk, LinkedOk, InTunnelOrder, TunnelPaired, TunnelStateOk, Advances, TakeTunnelTurn;
    TunnelTurnOk(w.t, turn, io);
    TurnKeepsOpen(w.t, turn, io);
  }

  lemma {:induction false} AfterTunnelEnded(w: World, t': Tunnel)
    requires EndedFirst(w) && !w.t.busy && (t'.isClosing && !t'.busy ==> w.t.isClosing)
    ensures EndedFirst(AfterTunnel(w, t'))
  {
    hide Drained, ComesUp, World.Linked;
    var w' := AfterTunnel(w, t');
    assert |w'.members| == |w.members| && forall i :: 0 <= i < |w.members| ==> w'.members[i].s == w.members[i].s;
  }

  // ---------------------------------------------------------------------------
  // Agreement

  predicate Alive(w: World, i: nat) {
    i < |w.members| && !w.members[i].s.isClosed
  }

  predicate SharesKey(w: World, i: nat, name: string, sid: u32)
    requires i < |w.members|
  {
    w.members[i].s.name == name || w.members[i].s.cfg.sessionId == sid
  }

  /** What the user has to respect: a new session takes no key of one that has not ended,
      and a session is closed only while nobody else holds a key of its. */
  ghost predicate Respectful(w: World, mv: Move) {
    match mv
    case AddMove(name, _, sid, _) => forall i :: Alive(w, i) ==> !SharesKey(w, i, name, sid)
    case UserCloseMove(i) =>
      i < |w.members| ==> forall j :: Alive(w, j) && j != i ==> !SharesKey(w, j, w.RefOf(i).name, w.RefOf(i).sid)
    case _ => true
  }

  ghost predicate Unique(w: World) {
    forall i, j :: Alive(w, i) && Alive(w, j) && i != j ==> !SharesKey(w, i, w.RefOf(j).name, w.RefOf(j).sid)
  }

  /** Only sessions that have not ended are linked. */
  ghost predicate LinkedAlive(w: World) {
    && (forall n :: n in w.ix.byName ==> Alive(w, w.ix.byName[n].handle))
    && (forall k :: k in w.ix.byId ==> Alive(w, w.ix.byId[k].handle))
  }

  ghost predicate InAgreement(w: World) {
    w.ix.Agrees() && Unique(w) && LinkedAlive(w)
  }

  /** Unlinking a session whose keys nobody else holds keeps the maps in agreement. */
  lemma {:induction false} UnlinkAgreement(w: World, i: nat)
    requires IndexOk(w) && InAgreement(w) && i < |w.members|
    requires forall j :: Alive(w, j) && j != i ==> !SharesKey(w, j, w.RefOf(i).name, w.RefOf(i).sid)
    ensures w.ix.Unlink(w.RefOf(i)).Agrees()
    ensures var ix' := w.ix.Unlink(w.RefOf(i));
            && (forall n :: n in ix'.byName ==> ix'.byName[n].handle != i)
            && (forall k :: k in ix'.byId ==> ix'.byId[k].handle != i)
  {
    var r := w.RefOf(i);
    assert r.name in w.ix.byName ==> w.ix.NameLinked(r);
    assert r.sid in w.ix.byId ==> w.ix.IdLinked(r);
    assert w.ix.NameLinked(r) <==> w.ix.IdLinked(r);
    UnlinkAgreesIff(w.ix, r);
  }

  /** Sessions keep their keys apart as they end. */
  lemma {:induction false} UniqueStays(w: World, w': World)
    requires Unique(w) && |w'.members| == |w.members|
    requires forall i :: 0 <= i < |w.members| ==> w'.RefOf(i) == w.RefOf(i) && (Alive(w', i) ==> Alive(w, i))
    ensures Unique(w')
  {
  }

  /** A step that leaves the maps and the keys alone, and ends no linked session. */
  lemma {:induction false} StillInAgreement(w: World, w': World)
    requires InAgreement(w) && |w'.members| == |w.members| && w'.ix == w.ix
    requires forall i :: 0 <= i < |w.members| ==> w'.RefOf(i) == w.RefOf(i) && (Alive(w', i) <==> Alive(w, i))
    ensures InAgreement(w')
  {
  }

  lemma {:induction false} TunnelMoveAgreement(w: World, turn: TunnelTurn, io: TunnelIO, w': World)
    requires Inv(w) && InAgreement(w) && Step(w, TunnelMove(turn, io), w')
    ensures InAgreement(w')
  {
    hide Inv, InAgreement, TakeTunnelTurn, Forwards, Delivered, World.Linked;
    var t' := TakeTunnelTurn(w.t, turn, io);
    var w1 := AfterTunnel(w, t');
    AfterTunnelAgreement(w, t');
    PassOnKeeps(w1, w');
    StillInAgreement(w1, w');
  }

  lemma {:induction false} AfterTunnelAgreement(w: World, t': Tunnel)
    requires InAgreement(w)
    ensures InAgreement(AfterTunnel(w, t'))
    ensures |AfterTunnel(w, t').members| == |w.members|
    ensures forall i :: 0 <= i < |w.members| ==> AfterTunnel(w, t').members[i].s == w.members[i].s
  {
    hide World.Linked, ComesUp, Drained, Unique;
    var w' := AfterTunnel(w, t');
    DrainEmpties(w.ix);
    assert forall i :: 0 <= i < |w.members| ==> w'.members[i].s == w.members[i].s;
    UniqueStays(w, w');
    if w.t.isClosing || !t'.isClosing {
      StillInAgreement(w, w');
    }
  }

  lemma {:induction false} AddAgreement(w: World, name: string, serial: u32, sid: u32, io: TunnelIO)
    requires InAgreement(w) && name !in w.ix.byName && sid !in w.ix.byId
    requires forall i :: Alive(w, i) ==> !SharesKey(w, i, name, sid)
    ensures InAgreement(AfterAdd(w, name, serial, sid, io))
  {
    hide TakeTunnelTurn, InAgreement;
    var t' := TakeTunnelTurn(w.t, AddTurn, io);
    AfterTunnelAgreement(w, t');
    var w1, w' := AfterTunnel(w, t'), AfterAdd(w, name, serial, sid, io);
    forall i: nat | Alive(w1, i)
      ensures !SharesKey(w1, i, name, sid)
    {
      assert w1.members[i].s == w.members[i].s && Alive(w, i);
    }
    AppendAgreement(w1, w', name, sid);
  }

  lemma {:induction false} AppendAgreement(w: World, w': World, name: string, sid: u32)
    requires InAgreement(w) && name !in w.ix.byName && sid !in w.ix.byId
    requires forall i :: Alive(w, i) ==> !SharesKey(w, i, name, sid)
    requires |w'.members| == |w.members| + 1 && w'.members[..|w.members|] == w.members
    requires w'.RefOf(|w.members|) == Ref(|w.members|, name, sid) && Alive(w', |w.members|)
    requires w'.ix == w.ix || w'.ix == w.ix.Link(Ref(|w.members|, name, sid))
    ensures InAgreement(w')
  {
    LinkAgrees(w.ix, Ref(|w.members|, name, sid));
    assert forall i :: 0 <= i < |w.members| ==> w'.members[i] == w.members[i];
    hide Index.Agrees;
    forall i: nat, j: nat | Alive(w', i) && Alive(w', j) && i != j
      ensures !SharesKey(w', i, w'.RefOf(j).name, w'.RefOf(j).sid)
    {
      assert i < |w.members| ==> Alive(w, i) && !SharesKey(w, i, name, sid);
      assert j < |w.members| ==> Alive(w, j) && !SharesKey(w, j, name, sid);
    }
    forall i: nat | Alive(w, i)
      ensures Alive(w', i)
    {
      assert w'.members[i] == w.members[i];
    }
  }

  lemma {:induction false} SessionMoveAgreement(w: World, i: nat, turn: SessionTurn, a: Answers)
    requires Inv(w) && InAgreement(w) && i < |w.members| && Enabled(w.members[i], turn)
    ensures InAgreement(AfterSession(w, i, turn, a))
  {
    assert MemberOk(w.t, w.members[i]);
    MemberTurns(w.t, w.members[i], turn, a);
    UnlinkAgreement(w, i);
    var w' := AfterSession(w, i, turn, a);
    hide MemberAfter, Inv, Enabled;
    assert forall j :: 0 <= j < |w.members| ==> w'.RefOf(j) == w.RefOf(j);
    if !w'.members[i].s.isClosed {
      StillInAgreement(w, w');
    } else {
      FewerInAgreement(w, w', i);
    }
  }

  /** A step that unlinks one session and leaves the others alone. */
  lemma {:induction false} FewerInAgreement(w: World, w': World, i: nat)
    requires InAgreement(w) && |w'.members| == |w.members| && i < |w.members| && w'.ix == w.ix.Unlink(w.RefOf(i)) && w'.ix.Agrees()
    requires forall n :: n in w'.ix.byName ==> w'.ix.byName[n].handle != i
    requires forall k :: k in w'.ix.byId ==> w'.ix.byId[k].handle != i
    requires forall j :: 0 <= j < |w.members| ==>
               w'.RefOf(j) == w.RefOf(j) && (Alive(w', j) ==> Alive(w, j)) && (j != i ==> (Alive(w', j) <==> Alive(w, j)))
    ensures InAgreement(w')
  {
  }

  lemma {:induction false} StepAgreement(w: World, mv: Move, w': World)
    requires Inv(w) && InAgreement(w) && Step(w, mv, w') && Respectful(w, mv)
    ensures InAgreement(w')
  {
    hide InAgreement, TakeTunnelTurn, AfterTunnel, AfterAdd, AfterSession, Forwards, PassOn, Enabled, Delivered,
      TunnelOk, MemberOk, IndexOk, LinkedOk;
    match mv
    case TunnelMove(turn, io) => TunnelMoveAgreement(w, turn, io, w');
    case AddMove(name, serial, sid, io) => AddAgreement(w, name, serial, sid, io);
    case FinishMove => StillInAgreement(w, w');
    case SessionMove(i, turn, a) => SessionMoveAgreement(w, i, turn, a);
    case UserCloseMove(i) =>
      UnlinkAgreement(w, i);
      FewerInAgreement(w, w', i);
  }

  /** In every run that respects keys in use, the two maps always hold the same sessions,
      and only sessions that have not ended. */
  lemma {:induction false} MapsAgree(cfg: TunnelConfig, run: Run, k: nat)
    requires IsRun(cfg, run) && k < |run.states|
    requires forall j :: 0 <= j < k ==> Respectful(run.states[j], run.moves[j])
    ensures run.states[k].ix.Agrees() && LinkedAlive(run.states[k])
    decreases k
  {
    AgreementHolds(cfg, run, k);
    hide Inv, Step;
  }

  lemma {:induction false} AgreementHolds(cfg: TunnelConfig, run: Run, k: nat)
    requires IsRun(cfg, run) && k < |run.states|
    requires forall j :: 0 <= j < k ==> Respectful(run.states[j], run.moves[j])
    ensures InAgreement(run.states[k])
  {
    hide Inv, Step, InAgreement, Respectful;
    if k == 0 {
      EmptyInAgreement(cfg);
    } else {
      AgreementHolds(cfg, run, k - 1);
      RunInv(cfg, run, k - 1);
      StepAgreement(run.states[k - 1], run.moves[k - 1], run.states[k]);
    }
  }

  lemma {:induction false} EmptyInAgreement(cfg: TunnelConfig)
    ensures InAgreement(Begin(cfg))
  {
  }

  // ---------------------------------------------------------------------------
  // The exact condition

  /** Whoever leaves the maps finds its two keys leading to one session, or both to none. */
  ghost predicate LeavesCleanly(w: World, mv: Move, w': World) {
    match mv
    case UserCloseMove(i) => i < |w.members| ==> SameHolder(w.ix, w.RefOf(i))
    case SessionMove(i, _, _) =>
      i < |w.members| == |w'.members| && w'.members[i].s.isClosed ==> SameHolder(w.ix, w.RefOf(i))
    case _ => true
  }

  lemma {:induction false} StepAgreesIff(w: World, mv: Move, w': World)
    requires w.ix.Agrees() && Step(w, mv, w')
    ensures w'.ix.Agrees() <==> LeavesCleanly(w, mv, w')
  {
    hide Index.Agrees, SameHolder, TakeTunnelTurn, MemberAfter, Enabled, Delivered, Forwards, Drained, Index.Link, Index.Unlink,
      World.Linked, ComesUp, FinishClose;
    DrainEmpties(w.ix);
    EmptyAgrees();
    match mv
    case TunnelMove(turn, io) =>
      PassOnKeeps(AfterTunnel(w, TakeTunnelTurn(w.t, turn, io)), w');
    case AddMove(name, serial, sid, io) =>
      var w1 := AfterTunnel(w, TakeTunnelTurn(w.t, AddTurn, io));
      LinkAgrees(w1.ix, Ref(|w.members|, name, sid));
    case FinishMove =>
    case SessionMove(i, turn, a) =>
      UnlinkAgreesIff(w.ix, w.RefOf(i));
    case UserCloseMove(i) =>
      UnlinkAgreesIff(w.ix, w.RefOf(i));
  }

  lemma {:induction false} EmptyAgrees()
    ensures EMPTY.Agrees()
  {
  }

  /** A run keeps the two maps in agreement up to a state exactly when no session left them
      on the way while one of its keys led to another. */
  lemma {:induction false} MapsAgreeIff(cfg: TunnelConfig, run: Run, k: nat)
    requires IsRun(cfg, run) && k < |run.states|
    ensures (forall j :: 0 <= j <= k ==> run.states[j].ix.Agrees())
            <==> (forall j :: 0 <= j < k ==> LeavesCleanly(run.states[j], run.moves[j], run.states[j + 1]))
  {
    hide Step, LeavesCleanly, Index.Agrees;
    if k == 0 {
      EmptyAgrees();
    } else {
      MapsAgreeIff(cfg, run, k - 1);
      if run.states[k - 1].ix.Agrees() {
        StepAgreesIff(run.states[k - 1], run.moves[k - 1], run.states[k]);
      }
    }
  }
}
