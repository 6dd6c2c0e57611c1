/** What every arm of the transport keeps, whatever the network and the peer do. */
module EndpointInvariants {
  import opened Wire
  import opened Messages
  import opened SequenceNumbers
  import opened Endpoints

  // ---------------------------------------------------------------------------
  // Where a submitted message sits in the sequence space

  /** The number of user messages transmitted at least once. */
  function UserSent(e: Endpoint): int {
    e.uns - (if e.hello.Some? then 1 else 0)
  }

  /** The unbounded Ns of the user message with this id: the HELLO, if any, takes one place. */
  function SeqNoOf(e: Endpoint, id: nat): nat {
    if e.hello.Some? && id >= e.hello.value.seqNo then id + 1 else id
  }

  function IdOf(e: Endpoint, k: nat): int {
    if e.hello.Some? && k > e.hello.value.seqNo then k - 1 else k
  }

  /** The message that was given the unbounded sequence number k. */
  function MessageAt(e: Endpoint, k: nat): Option<ControlMessage> {
    if e.hello.Some? && k == e.hello.value.seqNo then Some(e.hello.value.msg.Body())
    else if 0 <= IdOf(e, k) < |e.submitted| then Some(e.submitted[IdOf(e, k)].Body())
    else None
  }

  // ---------------------------------------------------------------------------
  // The invariant

  /** Fit to be submitted: it survives the wire and has a type other than Ack. */
  predicate Sendable(m: ControlMessage) {
    m.WellFormed() && m.GetType().Ok? && !m.IsAck()
  }

  predicate GoodPacket(e: Endpoint, p: Packet) {
    && p.msg.WellFormed() && p.msg.GetType().Ok?
    && p.msg.ns == Wire16(p.k) && p.msg.nr == Wire16(p.r)
    && p.k <= e.uns && p.r <= e.unr
    && (!p.msg.IsAck() ==> p.k < e.uns && MessageAt(e, p.k) == Some(p.msg.Body()))
  }

  /** True of live and of dead endpoints: the sixteen-bit numbers are the unbounded ones,
      and everything ever put on the wire is what the numbering says it is. */
  ghost predicate Core(cfg: Config, e: Endpoint) {
    && cfg.Valid()
    && e.ns == Wire16(e.uns) && e.nr == Wire16(e.unr) && |e.delivered| == e.unr
    && 0 <= e.acked <= UserSent(e) <= |e.submitted| && UserSent(e) <= e.acked + cfg.window
    && (e.hello.Some? ==> e.hello.value.seqNo < e.uns && e.hello.value.nretries < cfg.maxRetries
                          && e.hello.value.msg.ns == Wire16(e.hello.value.seqNo) && Sendable(e.hello.value.msg))
    && (forall i :: 0 <= i < |e.submitted| ==> Sendable(e.submitted[i]))
    && (forall i :: 0 <= i < |e.wire| ==> GoodPacket(e, e.wire[i]))
  }

  /** A transmitted, unacknowledged message. */
  predicate Outstanding(cfg: Config, e: Endpoint, x: Xmit, id: nat) {
    && id < |e.submitted|
    && x.id == id && !x.isComplete && x.nretries < cfg.maxRetries
    && x.seqNo == SeqNoOf(e, id) && x.msg.ns == Wire16(x.seqNo)
    && x.msg.Body() == e.submitted[id].Body()
  }

  /** A message not transmitted yet. */
  predicate Waiting(e: Endpoint, x: Xmit, id: nat) {
    && id < |e.submitted|
    && x.id == id && !x.isComplete && x.nretries == 0 && x.msg == e.submitted[id]
  }

  predicate Counts(cfg: Config, e: Endpoint) {
    && e.alive
    && e.win.Bounded(cfg.window)
    && |e.ackQueue| == e.win.ntx == UserSent(e) - e.acked
    && |e.txQueue| == |e.submitted| - UserSent(e)
  }

  predicate AckQueueOk(cfg: Config, e: Endpoint) {
    forall i :: 0 <= i < |e.ackQueue| ==> Outstanding(cfg, e, e.ackQueue[i], e.acked + i)
  }

  predicate TxQueueOk(e: Endpoint)
    requires UserSent(e) >= 0
  {
    forall i :: 0 <= i < |e.txQueue| ==> Waiting(e, e.txQueue[i], UserSent(e) + i)
  }

  predicate AckedInOrder(e: Endpoint) {
    |e.completed| == e.acked && forall i :: 0 <= i < e.acked ==> e.completed[i] == Done(i, true)
  }

  /** The queues of a live endpoint partition what was submitted into acknowledged,
      outstanding and waiting, in order. */
  ghost predicate Queues(cfg: Config, e: Endpoint) {
    UserSent(e) >= 0 && Counts(cfg, e) && AckQueueOk(cfg, e) && TxQueueOk(e) && AckedInOrder(e)
  }

  /** Nothing waits behind an open window. */
  predicate Settled(e: Endpoint) {
    e.txQueue != [] ==> !e.win.CanSend()
  }

  predicate IsCompleted(completed: seq<Done>, id: nat) {
    exists i :: 0 <= i < |completed| && completed[i].id == id
  }

  /** Completions so far: each message at most once; the acknowledged ones first, in order,
      without error; all others with an error. */
  predicate Ledger(completed: seq<Done>, acked: nat, n: nat) {
    && acked <= |completed|
    && (forall i :: 0 <= i < |completed| ==> completed[i].id < n)
    && (forall i, j :: 0 <= i < j < |completed| ==> completed[i].id != completed[j].id)
    && (forall i :: 0 <= i < acked ==> completed[i] == Done(i, true))
    && (forall i :: acked <= i < |completed| ==> !completed[i].ok)
  }

  /** A dead endpoint has completed every submitted message exactly once. */
  ghost predicate Finished(e: Endpoint) {
    && !e.alive && e.txQueue == [] && e.ackQueue == []
    && Ledger(e.completed, e.acked, |e.submitted|)
    && (forall id :: 0 <= id < |e.submitted| ==> IsCompleted(e.completed, id))
  }

  ghost predicate Inv(cfg: Config, e: Endpoint) {
    Core(cfg, e) && (if e.alive then Queues(cfg, e) && Settled(e) else Finished(e))
  }

  /** What a step may do to the part of an endpoint its peer depends on. */
  ghost predicate Extends(e: Endpoint, e': Endpoint) {
    && e.uns <= e'.uns && e.acked <= e'.acked && e.unr <= e'.unr
    && e.submitted <= e'.submitted && e.wire <= e'.wire && e.delivered <= e'.delivered
    && (e.hello.Some? ==> e'.hello.Some? && e'.hello.value.seqNo == e.hello.value.seqNo
                          && e'.hello.value.msg.Body() == e.hello.value.msg.Body())
    && (e.hello.None? && e'.hello.Some? ==> e'.hello.value.seqNo >= e.uns)
  }

  /** The receive half is untouched. */
  predicate SameRx(e: Endpoint, e': Endpoint) {
    e'.nr == e.nr && e'.unr == e.unr && e'.rxQueue == e.rxQueue && e'.delivered == e.delivered
  }

  lemma {:induction false} ExtendsTrans(a: Endpoint, b: Endpoint, c: Endpoint)
    requires Extends(a, b) && Extends(b, c)
    ensures Extends(a, c)
  {
  }

  /** Numbers already given out keep their messages. */
  lemma {:induction false} MessageAtStable(cfg: Config, e: Endpoint, e': Endpoint, k: nat)
    requires Core(cfg, e) && Extends(e, e') && k < e.uns
    ensures MessageAt(e', k) == MessageAt(e, k)
  {
  }

  lemma {:induction false} WireStable(cfg: Config, e: Endpoint, e': Endpoint, p: Packet)
    requires Core(cfg, e) && Extends(e, e') && GoodPacket(e, p)
    ensures GoodPacket(e', p)
  {
  }

  /** Core survives a step that adds at most one good packet to the wire. */
  lemma {:induction false} CoreStep(cfg: Config, e: Endpoint, e': Endpoint)
    requires Core(cfg, e) && Extends(e, e')
    requires e'.ns == Wire16(e'.uns) && e'.nr == Wire16(e'.unr) && |e'.delivered| == e'.unr
    requires 0 <= e'.acked <= UserSent(e') <= |e'.submitted| && UserSent(e') <= e'.acked + cfg.window
    requires e'.hello.Some? ==> e'.hello.value.seqNo < e'.uns && e'.hello.value.nretries < cfg.maxRetries
                                && e'.hello.value.msg.ns == Wire16(e'.hello.value.seqNo) && Sendable(e'.hello.value.msg)
    requires forall i :: 0 <= i < |e'.submitted| ==> Sendable(e'.submitted[i])
    requires |e'.wire| <= |e.wire| + 1
    requires |e'.wire| > |e.wire| ==> GoodPacket(e', e'.wire[|e.wire|])
    ensures Core(cfg, e')
  {
    hide GoodPacket, Sendable;
    forall i | 0 <= i < |e'.wire|
      ensures GoodPacket(e', e'.wire[i])
    {
      if i < |e.wire| {
        assert e'.wire[i] == e.wire[i];
        WireStable(cfg, e, e', e.wire[i]);
      }
    }
  }
}
