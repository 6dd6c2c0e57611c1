/** The control plane on top of the reliable transport.

    Side A of the network runs a tunnel with its sessions; side B is any peer.  What the
    control plane records as acknowledged is what its transport completed without error, and
    the messages it handles are the ones its transport accepted.  A turn that sends blocks
    until the transport has completed the message, while everybody else goes on. */
module EndToEnd {
  import opened Wire
  import opened Messages
  import opened Validation
  import opened Builders
  import opened Sessions
  import opened SessionSafety
  import opened Tunnels
  import opened TunnelSafety
  import opened Endpoints
  import EndpointInvariants
  import SenderArms
  import Network
  import D = Delivery
  import C = Connections
  import ControlSafety
  import SessionIndex

  /** Who sends: each blocks while its message is under way. */
  datatype Actor = TunnelActor | SessionActor(i: nat)

  /** An actor's n-th message, and its place among the messages given to the transport. */
  datatype Ticket = Ticket(actor: Actor, n: nat, req: Request, id: nat)

  /** The tickets are history; read counts the messages the tunnel has taken. */
  datatype Joint = Joint(w: C.World, net: D.Net, tickets: seq<Ticket>, read: nat)

  function Sends(w: C.World, actor: Actor): seq<Submission> {
    match actor
    case TunnelActor => w.t.sends
    case SessionActor(i) => if i < |w.members| then w.members[i].s.sends else []
  }

  function Mover(mv: C.Move): Option<Actor> {
    match mv
    case TunnelMove(_, _) => Some(TunnelActor)
    case AddMove(_, _, _, _) => Some(TunnelActor)
    case SessionMove(i, _, _) => Some(SessionActor(i))
    case _ => None
  }

  // ---------------------------------------------------------------------------
  // Steps

  datatype Move =
    | NetMove(side: D.Side, ev: Network.Event)
    | SendMove(actor: Actor, n: nat, req: Request, budget: nat)
    | ControlMove(mv: C.Move)
    | DrainMove

  predicate Completed(e: Endpoint, id: nat, ok: bool) {
    Done(id, ok) in e.completed
  }

  /** The actor's messages so far are the first n, each completed. */
  predicate InTurn(j: Joint, actor: Actor, n: nat) {
    forall k :: 0 <= k < |j.tickets| && j.tickets[k].actor == actor ==>
      && j.tickets[k].n < n
      && (Completed(j.net.a.e, j.tickets[k].id, true) || Completed(j.net.a.e, j.tickets[k].id, false))
  }

  /** The transport has completed the message of this record with this result. */
  predicate Backed(j: Joint, actor: Actor, n: nat, sub: Submission) {
    exists k :: 0 <= k < |j.tickets| && Backs(j, k, actor, n, sub)
  }

  predicate Backs(j: Joint, k: nat, actor: Actor, n: nat, sub: Submission)
    requires k < |j.tickets|
  {
    var t := j.tickets[k];
    t.actor == actor && t.n == n && t.req == sub.req && Completed(j.net.a.e, t.id, sub.ok)
  }

  /** A turn ends when all its messages are completed, and records their results. */
  ghost predicate Records(j: Joint, mv: C.Move, w': C.World) {
    && (forall actor, n :: |Sends(j.w, actor)| <= n < |Sends(w', actor)| ==> Backed(j, actor, n, Sends(w', actor)[n]))
    && (forall k :: 0 <= k < |j.tickets| && Mover(mv) == Some(j.tickets[k].actor) ==>
          j.tickets[k].n < |Sends(w', j.tickets[k].actor)|)
  }

  predicate TakesMessage(mv: C.Move) {
    mv.TunnelMove? && mv.turn.TunnelMsgTurn?
  }

  /** What the control plane does depends on its transport: a message it takes is the next
      one accepted, the transport is down when the tunnel is told so, and the closing tunnel
      waits for the sessions' messages under way. */
  predicate Allowed(j: Joint, mv: C.Move) {
    && (TakesMessage(mv) ==> j.read < |j.net.a.e.delivered| && mv.turn.m == j.net.a.e.delivered[j.read])
    && (mv.TunnelMove? && mv.turn.TransportDownTurn? ==> !j.net.a.e.alive)
    && (mv.FinishMove? ==> forall k :: 0 <= k < |j.tickets| ==> j.tickets[k].n < |Sends(j.w, j.tickets[k].actor)|)
  }

  /** A turn the actor may take now has this as its n-th message. */
  ghost predicate Foreseen(j: Joint, actor: Actor, n: nat, req: Request) {
    exists mv, w' :: C.Step(j.w, mv, w') && Mover(mv) == Some(actor) && Allowed(j, mv)
                     && |Sends(j.w, actor)| <= n < |Sends(w', actor)| && Sends(w', actor)[n].req == req
  }

  ghost predicate Step(cfg: D.Configs, j: Joint, mv: Move, j': Joint) {
    match mv
    case NetMove(s, ev) =>
      && D.Step(cfg, j.net, s, ev, j'.net) && j' == j.(net := j'.net)
      && (s == D.A ==> !ev.Submit?)
    case SendMove(actor, n, req, budget) =>
      && Foreseen(j, actor, n, req) && InTurn(j, actor, n) && (actor.SessionActor? ==> !j.w.t.busy)
      && req.Message().Ok? && D.Step(cfg, j.net, D.A, Network.Submit(req.Message().value, budget), j'.net)
      && j' == j.(net := j'.net, tickets := j.tickets + [Ticket(actor, n, req, |j.net.a.e.submitted|)])
    case ControlMove(cmv) =>
      && C.Step(j.w, cmv, j'.w) && Allowed(j, cmv) && Records(j, cmv, j'.w)
      && j' == j.(w := j'.w, read := if TakesMessage(cmv) then j.read + 1 else j.read)
    case DrainMove =>
      j.w.t.isClosing && j.read < |j.net.a.e.delivered| && j' == j.(read := j.read + 1)
  }

  datatype Run = Run(states: seq<Joint>, moves: seq<Move>)

  ghost predicate IsRun(cfg: D.Configs, tcfg: TunnelConfig, run: Run) {
    && |run.states| == |run.moves| + 1
    && run.states[0] == Joint(C.Begin(tcfg), D.Start(cfg), [], 0)
    && forall k :: 0 <= k < |run.moves| ==> Step(cfg, run.states[k], run.moves[k], run.states[k + 1])
  }

  // ---------------------------------------------------------------------------
  // The invariant

  ghost predicate TicketOk(e: Endpoint, t: Ticket) {
    t.id < |e.submitted| && t.req.Message() == Ok(e.submitted[t.id])
  }

  /** Every ticket is for the message it says; tickets come in the order of submission, an
      actor's in the order of its messages. */
  ghost predicate TicketsOk(j: Joint) {
    && (forall k :: 0 <= k < |j.tickets| ==> TicketOk(j.net.a.e, j.tickets[k]))
    && (forall k, l :: 0 <= k < l < |j.tickets| ==>
          j.tickets[k].id < j.tickets[l].id && (j.tickets[k].actor == j.tickets[l].actor ==> j.tickets[k].n < j.tickets[l].n))
  }

  /** A ticket for this record, whose message is acknowledged if the record says so. */
  predicate Stands(j: Joint, k: nat, actor: Actor, n: nat, sub: Submission)
    requires k < |j.tickets|
  {
    var t := j.tickets[k];
    t.actor == actor && t.n == n && t.req == sub.req && (sub.ok ==> t.id < j.net.a.e.acked)
  }

  predicate HasTicket(j: Joint, actor: Actor, n: nat, sub: Submission) {
    exists k :: 0 <= k < |j.tickets| && Stands(j, k, actor, n, sub)
  }

  ghost predicate AllRecorded(j: Joint) {
    forall actor, n :: 0 <= n < |Sends(j.w, actor)| ==> HasTicket(j, actor, n, Sends(j.w, actor)[n])
  }

  /** The SCCCN, acknowledged. */
  predicate Handshake(j: Joint, k: nat)
    requires k < |j.tickets|
  {
    var t := j.tickets[k];
    t.actor == TunnelActor && t.n == 1 && t.req.Scccn? && t.id < j.net.a.e.acked
  }

  predicate AfterHandshake(j: Joint, k: nat) {
    exists h :: 0 <= h < k && h < |j.tickets| && Handshake(j, h)
  }

  ghost predicate SessionsAfter(j: Joint) {
    forall k: nat :: k < |j.tickets| && j.tickets[k].actor.SessionActor? ==> AfterHandshake(j, k)
  }

  /** What the tunnel has taken from its transport. */
  function Taken(j: Joint): seq<ControlMessage> {
    if j.read <= |j.net.a.e.delivered| then j.net.a.e.delivered[..j.read] else []
  }

  ghost predicate GotReply(taken: seq<ControlMessage>, ptid: u32) {
    exists x :: 0 <= x < |taken| && AcceptedSccrp(TunnelMsgTurn(taken[x]), ptid)
  }

  ghost predicate GotAnswer(taken: seq<ControlMessage>, sid: u32, psid: u32) {
    exists x :: 0 <= x < |taken| && AcceptedIcrp(taken[x], sid, psid)
  }

  /** What came up did so on a message from the transport. */
  ghost predicate MemberHeard(taken: seq<ControlMessage>, m: C.Member) {
    && (forall x :: 0 <= x < |m.inbox| ==> m.inbox[x] in taken)
    && (m.s.setup.Some? ==> GotAnswer(taken, m.s.cfg.sessionId, m.s.cfg.peerSessionId))
  }

  ghost predicate Heard(w: C.World, taken: seq<ControlMessage>) {
    && (C.WasUp(w.t) ==> GotReply(taken, w.t.cfg.peerTunnelId))
    && (forall i :: 0 <= i < |w.members| ==> MemberHeard(taken, w.members[i]))
  }

  ghost predicate Inv(cfg: D.Configs, j: Joint) {
    && D.NetInv(cfg, j.net) && C.Inv(j.w) && j.read <= |j.net.a.e.delivered|
    && TicketsOk(j) && AllRecorded(j) && SessionsAfter(j) && Heard(j.w, Taken(j))
  }

  // ---------------------------------------------------------------------------
  // The network moves

  /** What side A has submitted, had acknowledged and accepted only grows. */
  predicate Grows(e: Endpoint, e': Endpoint) {
    e.submitted <= e'.submitted && e.acked <= e'.acked && e.delivered <= e'.delivered
  }

  lemma {:induction false} NetStepGrows(cfg: D.Configs, net: D.Net, s: D.Side, ev: Network.Event, net': D.Net)
    requires D.NetInv(cfg, net) && D.Step(cfg, net, s, ev, net')
    ensures D.NetInv(cfg, net') && Grows(net.a.e, net'.a.e)
  {
    hide D.NetInv, Network.NodeStep;
    D.StepInv(cfg, net, s, ev, net');
  }

  /** Everything known stays true while the network moves. */
  lemma {:induction false} NetKeeps(j: Joint, j': Joint)
    requires TicketsOk(j) && AllRecorded(j) && SessionsAfter(j) && Heard(j.w, Taken(j)) && j.read <= |j.net.a.e.delivered|
    requires j' == j.(net := j'.net) && Grows(j.net.a.e, j'.net.a.e)
    ensures TicketsOk(j') && AllRecorded(j') && SessionsAfter(j') && Heard(j'.w, Taken(j')) && j'.read <= |j'.net.a.e.delivered|
  {
    hide Sends, Heard, Request.Message;
    forall actor, n | 0 <= n < |Sends(j'.w, actor)|
      ensures HasTicket(j', actor, n, Sends(j'.w, actor)[n])
    {
      assert HasTicket(j, actor, n, Sends(j.w, actor)[n]);
      var k :| 0 <= k < |j.tickets| && Stands(j, k, actor, n, Sends(j.w, actor)[n]);
      assert Stands(j', k, actor, n, Sends(j.w, actor)[n]);
    }
    forall k: nat | k < |j'.tickets| && j'.tickets[k].actor.SessionActor?
      ensures AfterHandshake(j', k)
    {
      assert AfterHandshake(j, k);
      var h :| 0 <= h < k && h < |j.tickets| && Handshake(j, h);
      assert Handshake(j', h);
    }
    assert Taken(j') == Taken(j);
  }

  lemma {:induction false} NetMoveInv(cfg: D.Configs, j: Joint, s: D.Side, ev: Network.Event, j': Joint)
    requires Inv(cfg, j) && D.Step(cfg, j.net, s, ev, j'.net) && j' == j.(net := j'.net)
    ensures Inv(cfg, j')
  {
    hide D.NetInv, D.Step, C.Inv, TicketsOk, AllRecorded, SessionsAfter, Heard, Grows;
    NetStepGrows(cfg, j.net, s, ev, j'.net);
    NetKeeps(j, j');
  }

  // ---------------------------------------------------------------------------
  // An actor sends

  lemma {:induction false} Submits(cfg: D.Configs, net: D.Net, m: ControlMessage, budget: nat, net': D.Net)
    requires D.NetInv(cfg, net) && D.Step(cfg, net, D.A, Network.Submit(m, budget), net')
    ensures net.a.e.submitted + [m] <= net'.a.e.submitted
  {
    hide EndpointInvariants.Inv, OnSubmit, Validates, EndpointInvariants.Extends, EndpointInvariants.SameRx,
      Network.InOrder, Network.AcksSound, Network.NrsOk, Network.RxOk, ControlMessage.WellFormed;
    D.ValidatedIsSendable(m);
    SenderArms.SubmitInv(cfg.a, net.a.e, m, budget);
  }

  /** A session is about to send only once its tunnel's SCCCN was acknowledged. */
  lemma {:induction false} SessionSendsUp(j: Joint, i: nat, n: nat, req: Request)
    requires C.Inv(j.w) && Foreseen(j, SessionActor(i), n, req)
    ensures C.WasUp(j.w.t)
  {
    hide Allowed, C.Step, C.Inv, C.WasUp, Sends;
    var mv, w' :| C.Step(j.w, mv, w') && Mover(mv) == Some(SessionActor(i)) && n < |Sends(w', SessionActor(i))|;
    SentMeansUp(j.w, mv, w', i);
  }

  lemma {:induction false} SentMeansUp(w: C.World, mv: C.Move, w': C.World, i: nat)
    requires C.Inv(w) && C.Step(w, mv, w') && Mover(mv) == Some(SessionActor(i)) && Sends(w', SessionActor(i)) != []
    ensures C.WasUp(w.t)
  {
    C.StepInv(w, mv, w');
    hide C.MemberAfter, C.WasUp, C.Enabled, SessionOk, TunnelOk, C.IndexOk, C.LinkedOk;
    assert C.MemberOk(w'.t, w'.members[i]);
  }

  lemma {:induction false} HandshakeTicket(j: Joint) returns (h: nat)
    requires AllRecorded(j) && C.WasUp(j.w.t)
    ensures h < |j.tickets| && Handshake(j, h)
  {
    var sends := Sends(j.w, TunnelActor);
    assert HasTicket(j, TunnelActor, 1, sends[1]);
    h :| 0 <= h < |j.tickets| && Stands(j, h, TunnelActor, 1, sends[1]);
  }

  /** One more ticket, and nothing else. */
  lemma {:induction false} TicketAdded(j: Joint, t: Ticket, j': Joint)
    requires TicketsOk(j) && AllRecorded(j) && SessionsAfter(j) && j' == j.(tickets := j.tickets + [t])
    requires TicketOk(j.net.a.e, t)
    requires forall k :: 0 <= k < |j.tickets| && j.tickets[k].actor == t.actor ==> j.tickets[k].n < t.n
    requires forall k :: 0 <= k < |j.tickets| ==> j.tickets[k].id < t.id
    requires t.actor.SessionActor? ==> AfterHandshake(j, |j.tickets|)
    ensures TicketsOk(j') && AllRecorded(j') && SessionsAfter(j')
  {
    hide Sends, TicketOk;
    forall actor, n | 0 <= n < |Sends(j'.w, actor)|
      ensures HasTicket(j', actor, n, Sends(j'.w, actor)[n])
    {
      assert HasTicket(j, actor, n, Sends(j.w, actor)[n]);
      var k :| 0 <= k < |j.tickets| && Stands(j, k, actor, n, Sends(j.w, actor)[n]);
      assert Stands(j', k, actor, n, Sends(j.w, actor)[n]);
    }
    forall k: nat | k < |j'.tickets| && j'.tickets[k].actor.SessionActor?
      ensures AfterHandshake(j', k)
    {
      assert AfterHandshake(j, k);
      var h :| 0 <= h < k && h < |j.tickets| && Handshake(j, h);
      assert Handshake(j', h);
    }
  }

  lemma {:induction false} SendMoveInv(cfg: D.Configs, j: Joint, actor: Actor, n: nat, req: Request, budget: nat, j': Joint)
    requires Inv(cfg, j) && Step(cfg, j, SendMove(actor, n, req, budget), j')
    ensures Inv(cfg, j')
  {
    hide D.NetInv, D.Step, C.Inv, TicketsOk, AllRecorded, SessionsAfter, Heard, Foreseen, Completed, Request.Message;
    var j1 := j.(net := j'.net);
    var t := Ticket(actor, n, req, |j.net.a.e.submitted|);
    NetMoveInv(cfg, j, D.A, Network.Submit(req.Message().value, budget), j1);
    Submits(cfg, j.net, req.Message().value, budget, j'.net);
    if actor.SessionActor? {
      SessionSendsUp(j, actor.i, n, req);
      var h := HandshakeTicket(j1);
      assert AfterHandshake(j1, |j1.tickets|);
    }
    IdsBelow(j, t.id);
    assert forall k :: 0 <= k < |j.tickets| && j.tickets[k].actor == actor ==> j.tickets[k].n < n;
    TicketAdded(j1, t, j');
    assert Taken(j') == Taken(j1);
  }

  lemma {:induction false} IdsBelow(j: Joint, id: nat)
    requires TicketsOk(j) && id == |j.net.a.e.submitted|
    ensures forall k :: 0 <= k < |j.tickets| ==> j.tickets[k].id < id
  {
  }

  // ---------------------------------------------------------------------------
  // The control plane moves

  /** What an actor has recorded stays recorded. */
  lemma {:induction false} SendsGrow(w: C.World, mv: C.Move, w': C.World, actor: Actor)
    requires C.Inv(w) && C.Step(w, mv, w')
    ensures Sends(w, actor) <= Sends(w', actor)
  {
    hide C.Inv, C.Step;
    match actor
    case TunnelActor =>
      ControlSafety.StepAdvances(w, mv, w');
    case SessionActor(i) =>
      if i < |w.members| {
        MemberGrows(w, mv, w', i);
      }
  }

  /** What a move may do to a session: nothing, a turn of its own, or a message passed on. */
  ghost predicate MemberMoves(w: C.World, mv: C.Move, m: C.Member, m': C.Member, i: nat) {
    || (m'.s == m.s && m'.inbox == m.inbox)
    || (m'.s == m.s && TakesMessage(mv) && m'.inbox == m.inbox + [mv.turn.m])
    || (mv.SessionMove? && mv.i == i && C.Enabled(m, mv.sturn) && m' == C.MemberAfter(w.t, m, mv.sturn, mv.answers))
  }

  lemma {:induction false} StepMembers(w: C.World, mv: C.Move, w': C.World, i: nat)
    requires C.Step(w, mv, w') && i < |w.members|
    ensures |w.members| <= |w'.members| && MemberMoves(w, mv, w.members[i], w'.members[i], i)
  {
    hide C.AfterTunnel, C.MemberAfter, C.Enabled, C.Delivered, Forwards, TakeTunnelTurn, FinishClose, SessionIndex.Index.Link,
      SessionIndex.Index.Unlink;
    match mv
    case TunnelMove(turn, io) => TunnelMembers(w, TakeTunnelTurn(w.t, turn, io), i);
    case AddMove(_, _, _, io) => TunnelMembers(w, TakeTunnelTurn(w.t, AddTurn, io), i);
    case _ =>
  }

  lemma {:induction false} TunnelMembers(w: C.World, t': Tunnel, i: nat)
    requires i < |w.members|
    ensures var w' := C.AfterTunnel(w, t');
            |w'.members| == |w.members| && w'.members[i].s == w.members[i].s && w'.members[i].inbox == w.members[i].inbox
  {
  }

  lemma {:induction false} MemberGrows(w: C.World, mv: C.Move, w': C.World, i: nat)
    requires C.Inv(w) && C.Step(w, mv, w') && i < |w.members|
    ensures |w.members| <= |w'.members| && w.members[i].s.sends <= w'.members[i].s.sends
  {
    StepMembers(w, mv, w', i);
    hide C.Step, C.Enabled, TakeTurn, TunnelOk, C.IndexOk, C.LinkedOk, SessionOk, C.WasUp, Request.Message;
    assert C.MemberOk(w.t, w.members[i]);
    var m := w.members[i];
    if mv.SessionMove? && mv.i == i && C.Enabled(m, mv.sturn) {
      TurnSends(w, m, mv.sturn, mv.answers);
    }
  }

  lemma {:induction false} TurnSends(w: C.World, m: C.Member, turn: SessionTurn, a: C.Answers)
    requires C.MemberOk(w.t, m) && C.Enabled(m, turn)
    ensures m.s.sends <= C.MemberAfter(w.t, m, turn, a).s.sends
  {
    hide TakeTurn, SessionOk, C.WasUp, Request.Message;
    if m.s.state == WaitReply {
      C.WaitingKnowsPeer(w.t, m);
    }
    TurnOk(m.s, w.t.cfg.peerTunnelId, turn, SessionIO(C.Fate(w.t, a.acked, a.early), a.dataPlaneUp, a.ifnameOk, a.text));
  }

  /** Only acknowledged messages complete without error. */
  lemma {:induction false} OkIsAcked(cfg: D.Configs, net: D.Net, id: nat)
    requires D.NetInv(cfg, net) && Completed(net.a.e, id, true)
    ensures id < net.a.e.acked
  {
    hide EndpointInvariants.Inv, Network.InOrder, Network.AcksSound, Network.NrsOk, Network.RxOk;
    var c :| 0 <= c < |net.a.e.completed| && net.a.e.completed[c] == Done(id, true);
    D.CompletedOk(cfg.a, net.a.e, c);
  }

  lemma {:induction false} RecordsStand(cfg: D.Configs, j: Joint, mv: C.Move, j': Joint)
    requires D.NetInv(cfg, j.net) && C.Inv(j.w) && AllRecorded(j)
    requires C.Step(j.w, mv, j'.w) && Records(j, mv, j'.w) && j'.net == j.net && j'.tickets == j.tickets
    ensures AllRecorded(j')
  {
    hide D.NetInv, C.Inv, C.Step, Sends, Completed;
    forall actor, n | 0 <= n < |Sends(j'.w, actor)|
      ensures HasTicket(j', actor, n, Sends(j'.w, actor)[n])
    {
      SendsGrow(j.w, mv, j'.w, actor);
      var sub := Sends(j'.w, actor)[n];
      if n < |Sends(j.w, actor)| {
        assert HasTicket(j, actor, n, sub);
        var k :| 0 <= k < |j.tickets| && Stands(j, k, actor, n, sub);
        assert Stands(j', k, actor, n, sub);
      } else {
        assert Backed(j, actor, n, sub);
        var k :| 0 <= k < |j.tickets| && Backs(j, k, actor, n, sub);
        if sub.ok {
          OkIsAcked(cfg, j.net, j.tickets[k].id);
        }
        assert Stands(j', k, actor, n, sub);
      }
    }
  }

  lemma {:induction false} TunnelHeard(w: C.World, mv: C.Move, w': C.World, taken: seq<ControlMessage>, taken': seq<ControlMessage>)
    requires C.Inv(w) && C.Step(w, mv, w') && (C.WasUp(w.t) ==> GotReply(taken, w.t.cfg.peerTunnelId))
    requires taken <= taken' && (TakesMessage(mv) ==> taken' == taken + [mv.turn.m])
    ensures C.WasUp(w'.t) ==> GotReply(taken', w'.t.cfg.peerTunnelId)
  {
    hide C.Inv, C.Step, C.WasUp, AcceptedSccrp, Advances, C.Delivered;
    ControlSafety.StepAdvances(w, mv, w');
    if C.WasUp(w'.t) {
      if C.WasUp(w.t) {
        if w'.t != w.t {
          C.WasUpStays(w.t, w'.t);
        }
        var x :| 0 <= x < |taken| && AcceptedSccrp(TunnelMsgTurn(taken[x]), w.t.cfg.peerTunnelId);
        assert taken'[x] == taken[x];
      } else {
        AcceptedTakes(mv.turn, w'.t.cfg.peerTunnelId);
        assert taken'[|taken|] == mv.turn.m;
      }
    }
  }

  lemma {:induction false} AcceptedTakes(turn: TunnelTurn, ptid: u32)
    requires AcceptedSccrp(turn, ptid)
    ensures turn.TunnelMsgTurn?
  {
  }

  lemma {:induction false} HeardMore(taken: seq<ControlMessage>, taken': seq<ControlMessage>, m: C.Member)
    requires MemberHeard(taken, m) && taken <= taken'
    ensures MemberHeard(taken', m)
  {
    hide AcceptedIcrp;
    if m.s.setup.Some? {
      var x :| 0 <= x < |taken| && AcceptedIcrp(taken[x], m.s.cfg.sessionId, m.s.cfg.peerSessionId);
      assert taken'[x] == taken[x];
    }
  }

  lemma {:induction false} SessionHeard(w: C.World, mv: C.Move, m: C.Member, m': C.Member, i: nat,
                                        taken: seq<ControlMessage>, taken': seq<ControlMessage>)
    requires MemberHeard(taken, m) && MemberMoves(w, mv, m, m', i) && taken <= taken'
    requires TakesMessage(mv) ==> taken' == taken + [mv.turn.m]
    ensures MemberHeard(taken', m')
  {
    HeardMore(taken, taken', m);
    if mv.SessionMove? && mv.i == i && C.Enabled(m, mv.sturn) && m' == C.MemberAfter(w.t, m, mv.sturn, mv.answers) {
      TurnHeard(w, m, mv.sturn, mv.answers, taken');
    }
    hide C.MemberAfter, C.Enabled, GotAnswer;
  }

  lemma {:induction false} TurnHeard(w: C.World, m: C.Member, turn: SessionTurn, a: C.Answers, taken: seq<ControlMessage>)
    requires MemberHeard(taken, m) && C.Enabled(m, turn)
    ensures MemberHeard(taken, C.MemberAfter(w.t, m, turn, a))
  {
    hide TakeTurn, AcceptedIcrp;
    var io := SessionIO(C.Fate(w.t, a.acked, a.early), a.dataPlaneUp, a.ifnameOk, a.text);
    TurnSetsUp(m.s, w.t.cfg.peerTunnelId, turn, io);
    TurnKeeps(m.s, w.t.cfg.peerTunnelId, turn, io);
  }

  lemma {:induction false} NewMemberHeard(w: C.World, mv: C.Move, w': C.World, i: nat, taken: seq<ControlMessage>)
    requires C.Step(w, mv, w') && |w.members| <= i < |w'.members|
    ensures MemberHeard(taken, w'.members[i])
  {
    hide C.AfterTunnel, C.MemberAfter, C.Enabled, C.Delivered, Forwards, TakeTunnelTurn, FinishClose, SessionIndex.Index.Link,
      SessionIndex.Index.Unlink;
    match mv
    case TunnelMove(turn, io) => C.AfterTunnelKeepsTunnel(w, TakeTunnelTurn(w.t, turn, io));
    case AddMove(_, _, _, io) => C.AfterTunnelKeepsTunnel(w, TakeTunnelTurn(w.t, AddTurn, io));
    case _ =>
  }

  lemma {:induction false} ControlHeard(w: C.World, mv: C.Move, w': C.World, taken: seq<ControlMessage>, taken': seq<ControlMessage>)
    requires C.Inv(w) && C.Step(w, mv, w') && Heard(w, taken)
    requires taken <= taken' && (TakesMessage(mv) ==> taken' == taken + [mv.turn.m])
    ensures Heard(w', taken')
  {
    hide C.Inv, C.Step, C.WasUp, MemberHeard, MemberMoves, GotReply;
    TunnelHeard(w, mv, w', taken, taken');
    forall i | 0 <= i < |w'.members|
      ensures MemberHeard(taken', w'.members[i])
    {
      if i < |w.members| {
        StepMembers(w, mv, w', i);
        SessionHeard(w, mv, w.members[i], w'.members[i], i, taken, taken');
      } else {
        NewMemberHeard(w, mv, w', i, taken');
      }
    }
  }

  lemma {:induction false} ControlMoveInv(cfg: D.Configs, j: Joint, mv: C.Move, j': Joint)
    requires Inv(cfg, j) && Step(cfg, j, ControlMove(mv), j')
    ensures Inv(cfg, j')
  {
    hide D.NetInv, C.Inv, C.Step, TicketOk, AllRecorded, Heard, Records;
    C.StepInv(j.w, mv, j'.w);
    RecordsStand(cfg, j, mv, j');
    ControlHeard(j.w, mv, j'.w, Taken(j), Taken(j'));
    SameTickets(j, j');
  }

  lemma {:induction false} SameTickets(j: Joint, j': Joint)
    requires TicketsOk(j) && SessionsAfter(j) && j'.net == j.net && j'.tickets == j.tickets
    ensures TicketsOk(j') && SessionsAfter(j')
  {
    hide TicketOk;
    forall k: nat | k < |j'.tickets| && j'.tickets[k].actor.SessionActor?
      ensures AfterHandshake(j', k)
    {
      assert AfterHandshake(j, k);
      var h :| 0 <= h < k && h < |j.tickets| && Handshake(j, h);
      assert Handshake(j', h);
    }
  }

  lemma {:induction false} DrainMoveInv(cfg: D.Configs, j: Joint, j': Joint)
    requires Inv(cfg, j) && Step(cfg, j, DrainMove, j')
    ensures Inv(cfg, j')
  {
    hide D.NetInv, C.Inv, TicketsOk, SessionsAfter, AllRecorded, Heard;
    SameTickets(j, j');
    SameRecords(j, j');
    HeardLonger(j.w, Taken(j), Taken(j'));
  }

  lemma {:induction false} SameRecords(j: Joint, j': Joint)
    requires AllRecorded(j) && j'.w == j.w && j'.net == j.net && j'.tickets == j.tickets
    ensures AllRecorded(j')
  {
    hide Sends;
    forall actor, n | 0 <= n < |Sends(j'.w, actor)|
      ensures HasTicket(j', actor, n, Sends(j'.w, actor)[n])
    {
      assert HasTicket(j, actor, n, Sends(j.w, actor)[n]);
      var k :| 0 <= k < |j.tickets| && Stands(j, k, actor, n, Sends(j.w, actor)[n]);
      assert Stands(j', k, actor, n, Sends(j.w, actor)[n]);
    }
  }

  lemma {:induction false} HeardLonger(w: C.World, taken: seq<ControlMessage>, taken': seq<ControlMessage>)
    requires Heard(w, taken) && taken <= taken'
    ensures Heard(w, taken')
  {
    hide GotReply, MemberHeard, C.WasUp;
    if C.WasUp(w.t) {
      ReplyStays(taken, taken', w.t.cfg.peerTunnelId);
    }
    forall i | 0 <= i < |w.members|
      ensures MemberHeard(taken', w.members[i])
    {
      HeardMore(taken, taken', w.members[i]);
    }
  }

  lemma {:induction false} ReplyStays(taken: seq<ControlMessage>, taken': seq<ControlMessage>, ptid: u32)
    requires GotReply(taken, ptid) && taken <= taken'
    ensures GotReply(taken', ptid)
  {
    hide AcceptedSccrp;
    var x :| 0 <= x < |taken| && AcceptedSccrp(TunnelMsgTurn(taken[x]), ptid);
    assert taken'[x] == taken[x];
  }

  lemma {:induction false} StepInv(cfg: D.Configs, j: Joint, mv: Move, j': Joint)
    requires Inv(cfg, j) && Step(cfg, j, mv, j')
    ensures Inv(cfg, j')
  {
    hide Inv, D.Step, C.Step, Foreseen, InTurn, Allowed, Records, Request.Message;
    match mv
    case NetMove(s, ev) => NetMoveInv(cfg, j, s, ev, j');
    case SendMove(actor, n, req, budget) => SendMoveInv(cfg, j, actor, n, req, budget, j');
    case ControlMove(cmv) => ControlMoveInv(cfg, j, cmv, j');
    case DrainMove => DrainMoveInv(cfg, j, j');
  }

  lemma {:induction false} RunInv(cfg: D.Configs, tcfg: TunnelConfig, run: Run, k: nat)
    requires cfg.Valid() && IsRun(cfg, tcfg, run) && k < |run.states|
    ensures Inv(cfg, run.states[k])
  {
    hide Inv, Step, C.Begin, D.Start;
    if k == 0 {
      BeginInv(cfg, tcfg);
    } else {
      RunInv(cfg, tcfg, run, k - 1);
      StepInv(cfg, run.states[k - 1], run.moves[k - 1], run.states[k]);
    }
  }

  lemma {:induction false} BeginInv(cfg: D.Configs, tcfg: TunnelConfig)
    requires cfg.Valid()
    ensures Inv(cfg, Joint(C.Begin(tcfg), D.Start(cfg), [], 0))
  {
    hide D.NetInv, C.Inv;
    D.StartInv(cfg);
    C.BeginInv(tcfg);
  }

  // ---------------------------------------------------------------------------
  // What the peer has seen

  /** The peer's transport accepted, at place x, the message built for this request. */
  ghost predicate SeenAt(net: D.Net, x: nat, req: Request) {
    && x < |net.b.e.delivered| && req.Message().Ok?
    && net.b.e.delivered[x].Body() == req.Message().value.Body()
  }

  /** Where the peer sees a message of ours. */
  function PlaceOf(net: D.Net, id: nat): nat {
    EndpointInvariants.SeqNoOf(net.a.e, id)
  }

  lemma {:induction false} AckedIsSeen(cfg: D.Configs, net: D.Net, t: Ticket)
    requires D.NetInv(cfg, net) && TicketOk(net.a.e, t) && t.id < net.a.e.acked
    ensures SeenAt(net, PlaceOf(net, t.id), t.req)
  {
    hide Network.NodeInv, EndpointInvariants.Inv, EndpointInvariants.Core, EndpointInvariants.MessageAt,
      EndpointInvariants.SeqNoOf, ControlMessage.Body, Request.Message;
    D.NodeInvParts(cfg.a, net.a, net.b.e);
    D.NodeInvParts(cfg.b, net.b, net.a.e);
    Network.AckedSent(cfg.a, net.a.e);
    D.MessageOf(cfg.a, net.a.e, t.id);
  }

  lemma {:induction false} PlacesInOrder(net: D.Net, id: nat, id': nat)
    requires id < id'
    ensures PlaceOf(net, id) < PlaceOf(net, id')
  {
  }

  /** A record of a successful send, in any state of any run: the peer's transport has accepted that very message. */
  lemma {:induction false} SentIsSeen(cfg: D.Configs, tcfg: TunnelConfig, run: Run, k: nat, actor: Actor, n: nat) returns (x: nat)
    requires cfg.Valid() && IsRun(cfg, tcfg, run) && k < |run.states|
    requires n < |Sends(run.states[k].w, actor)| && Sends(run.states[k].w, actor)[n].ok
    ensures SeenAt(run.states[k].net, x, Sends(run.states[k].w, actor)[n].req)
  {
    var p := SeenBy(cfg, tcfg, run, k, actor, n);
    x := PlaceOf(run.states[k].net, run.states[k].tickets[p].id);
  }

  lemma {:induction false} SeenBy(cfg: D.Configs, tcfg: TunnelConfig, run: Run, k: nat, actor: Actor, n: nat) returns (p: nat)
    requires cfg.Valid() && IsRun(cfg, tcfg, run) && k < |run.states|
    requires n < |Sends(run.states[k].w, actor)| && Sends(run.states[k].w, actor)[n].ok
    ensures var j := run.states[k];
            && p < |j.tickets| && j.tickets[p].actor == actor && j.tickets[p].n == n
            && SeenAt(j.net, PlaceOf(j.net, j.tickets[p].id), Sends(j.w, actor)[n].req)
  {
    hide IsRun, D.NetInv, C.Inv, SessionsAfter, Heard, SeenAt, PlaceOf, TicketOk;
    RunInv(cfg, tcfg, run, k);
    var j := run.states[k];
    var sub := Sends(j.w, actor)[n];
    assert HasTicket(j, actor, n, sub);
    p :| 0 <= p < |j.tickets| && Stands(j, p, actor, n, sub);
    AckedIsSeen(cfg, j.net, j.tickets[p]);
  }

  /** The peer sees what one actor sent successfully in the order in which it sent it. */
  lemma {:induction false} SeenInOrder(cfg: D.Configs, tcfg: TunnelConfig, run: Run, k: nat, actor: Actor, n: nat, n': nat)
    returns (x: nat, x': nat)
    requires cfg.Valid() && IsRun(cfg, tcfg, run) && k < |run.states|
    requires n < n' < |Sends(run.states[k].w, actor)| && Sends(run.states[k].w, actor)[n].ok && Sends(run.states[k].w, actor)[n'].ok
    ensures var j := run.states[k];
            && x < x' && SeenAt(j.net, x, Sends(j.w, actor)[n].req) && SeenAt(j.net, x', Sends(j.w, actor)[n'].req)
  {
    hide IsRun, D.NetInv, C.Inv, SessionsAfter, AllRecorded, Heard, SeenAt, PlaceOf, TicketOk;
    var j := run.states[k];
    var p := SeenBy(cfg, tcfg, run, k, actor, n);
    var p' := SeenBy(cfg, tcfg, run, k, actor, n');
    RunInv(cfg, tcfg, run, k);
    x, x' := PlaceOf(j.net, j.tickets[p].id), PlaceOf(j.net, j.tickets[p'].id);
    assert p < p';
    PlacesInOrder(j.net, j.tickets[p].id, j.tickets[p'].id);
  }

  /** Whatever a session sent successfully, the peer saw after the SCCCN of its tunnel. */
  lemma {:induction false} SessionSeenAfterHandshake(cfg: D.Configs, tcfg: TunnelConfig, run: Run, k: nat, i: nat, n: nat)
    returns (h: nat, x: nat)
    requires cfg.Valid() && IsRun(cfg, tcfg, run) && k < |run.states| && i < |run.states[k].w.members|
    requires n < |run.states[k].w.members[i].s.sends| && run.states[k].w.members[i].s.sends[n].ok
    ensures var j := run.states[k];
            && |j.w.t.sends| >= 2 && j.w.t.sends[1].req.Scccn?
            && h < x && SeenAt(j.net, h, j.w.t.sends[1].req) && SeenAt(j.net, x, j.w.members[i].s.sends[n].req)
  {
    hide IsRun, D.NetInv, AllRecorded, Heard, SeenAt, PlaceOf, TicketOk, SessionOk, C.IndexOk, C.LinkedOk, TunnelOk;
    var j := run.states[k];
    RunInv(cfg, tcfg, run, k);
    assert C.MemberOk(j.w.t, j.w.members[i]);
    var p := SeenBy(cfg, tcfg, run, k, SessionActor(i), n);
    var q := SeenBy(cfg, tcfg, run, k, TunnelActor, 1);
    assert AfterHandshake(j, p);
    var r :| 0 <= r < p && r < |j.tickets| && Handshake(j, r);
    assert r == q;
    h, x := PlaceOf(j.net, j.tickets[q].id), PlaceOf(j.net, j.tickets[p].id);
    PlacesInOrder(j.net, j.tickets[q].id, j.tickets[p].id);
  }

  // ---------------------------------------------------------------------------
  // What the peer has said

  /** The x-th message of the peer, as it left there, is this one. */
  ghost predicate SaidAt(net: D.Net, x: nat, m: ControlMessage) {
    EndpointInvariants.MessageAt(net.b.e, x) == Some(m.Body())
  }

  lemma {:induction false} TakenWasSaid(cfg: D.Configs, j: Joint, x: nat)
    requires Inv(cfg, j) && x < |Taken(j)|
    ensures SaidAt(j.net, x, Taken(j)[x])
  {
    hide Network.NodeInv, EndpointInvariants.MessageAt, C.Inv, TicketsOk, AllRecorded, SessionsAfter, Heard,
      EndpointInvariants.Inv, EndpointInvariants.Core, Network.AcksSound;
    D.NodeInvParts(cfg.a, j.net.a, j.net.b.e);
  }

  /** A tunnel has come up only if its peer sent a valid SCCRP, which gave the peer's tunnel ID. */
  lemma {:induction false} UpOnPeersWord(cfg: D.Configs, tcfg: TunnelConfig, run: Run, k: nat) returns (x: nat, m: ControlMessage)
    requires cfg.Valid() && IsRun(cfg, tcfg, run) && k < |run.states| && run.states[k].w.t.notices != []
    ensures SaidAt(run.states[k].net, x, m) && AcceptedSccrp(TunnelMsgTurn(m), run.states[k].w.t.cfg.peerTunnelId)
  {
    hide IsRun, D.NetInv, TicketsOk, AllRecorded, SessionsAfter, MemberHeard, SaidAt, AcceptedSccrp, C.IndexOk, C.MemberOk, C.LinkedOk;
    RunInv(cfg, tcfg, run, k);
    var j := run.states[k];
    x :| 0 <= x < |Taken(j)| && AcceptedSccrp(TunnelMsgTurn(Taken(j)[x]), j.w.t.cfg.peerTunnelId);
    m := Taken(j)[x];
    TakenWasSaid(cfg, j, x);
  }

  /** A session is announced only if its peer sent a valid ICRP for it, which gave the peer's
      session ID. */
  lemma {:induction false} SessionUpOnPeersWord(cfg: D.Configs, tcfg: TunnelConfig, run: Run, k: nat, i: nat)
    returns (x: nat, m: ControlMessage)
    requires cfg.Valid() && IsRun(cfg, tcfg, run) && k < |run.states| && i < |run.states[k].w.members|
    requires run.states[k].w.members[i].s.notices != []
    ensures var scfg := run.states[k].w.members[i].s.cfg;
            SaidAt(run.states[k].net, x, m) && AcceptedIcrp(m, scfg.sessionId, scfg.peerSessionId)
  {
    hide IsRun, D.NetInv, TicketsOk, AllRecorded, SessionsAfter, SaidAt, AcceptedIcrp, C.IndexOk, C.LinkedOk, TunnelOk, C.WasUp,
      InWireOrder, StateOk, Paired;
    RunInv(cfg, tcfg, run, k);
    var j := run.states[k];
    assert C.MemberOk(j.w.t, j.w.members[i]) && MemberHeard(Taken(j), j.w.members[i]);
    var scfg := j.w.members[i].s.cfg;
    x :| 0 <= x < |Taken(j)| && AcceptedIcrp(Taken(j)[x], scfg.sessionId, scfg.peerSessionId);
    m := Taken(j)[x];
    TakenWasSaid(cfg, j, x);
  }
}
