/** One end of the reliable transport as a state with the arms of its sender and the turns
    of its receiver as functions on it.

    The sixteen-bit sequence numbers and the queues are the program's own state.  Beside
    them the state carries history the program does not have: the unbounded counters behind
    the sequence numbers, everything submitted, completed, accepted and put on the wire.
    No decision below reads the history. */
module Endpoints {
  import opened Wire
  import opened Avps
  import opened Payloads
  import opened Messages
  import opened ErrorTexts
  import opened Validation
  import opened SequenceNumbers
  import opened SlowStart
  import opened RetryTimeouts

  datatype Version = Version2 | Version3

  /** The sanitised transport configuration: a window and a retry limit of at least one.  No
      HELLO is sent when its timeout is zero. */
  datatype Config = Config(window: u16, maxRetries: nat, version: Version, retryTimeout: int, helloTimeout: int) {
    predicate Valid() {
      1 <= window && 1 <= maxRetries
    }
  }

  /** A timer of the runtime.  Stopping it, or setting it anew, does not take back a firing
      that is already waiting to be noticed. */
  datatype Timer = Timer(armed: bool, fired: bool) {
    function Reset(): Timer {
      this.(armed := true)
    }

    function Stop(): Timer {
      this.(armed := false)
    }

    function Expire(): Timer {
      Timer(false, true)
    }

    function Notice(): Timer {
      this.(fired := false)
    }
  }

  /** A message being transmitted.  The id is its place among the submitted messages and
      seqNo the unbounded form of its Ns, both history. */
  datatype Xmit = Xmit(msg: ControlMessage, nretries: nat, isComplete: bool, id: nat, seqNo: nat)

  /** A frame on the wire with the unbounded forms of its Ns and Nr, and the wait for which
      its writing armed a retry timer (zero if it armed none). */
  datatype Packet = Packet(msg: ControlMessage, k: nat, r: nat, wait: int)

  datatype Done = Done(id: nat, ok: bool)

  datatype Endpoint = Endpoint(
    ns: u16, nr: u16, win: Window,
    txQueue: seq<Xmit>, ackQueue: seq<Xmit>, rxQueue: seq<ControlMessage>,
    hello: Option<Xmit>, ackTimer: Timer, helloTimer: Timer, alive: bool,
    // history
    uns: nat, unr: nat, acked: nat,
    submitted: seq<ControlMessage>, completed: seq<Done>, delivered: seq<ControlMessage>, wire: seq<Packet>)

  function Fresh(cfg: Config): Endpoint {
    Endpoint(0, 0, Initial(cfg.window), [], [], [], None, Timer(false, false), Timer(cfg.helloTimeout > 0, false), true,
             0, 0, 0, [], [], [], [])
  }

  // ---------------------------------------------------------------------------
  // Transmission

  function ResetHello(cfg: Config, t: Timer): Timer {
    if cfg.helloTimeout > 0 then t.Reset() else t
  }

  /** Number the message and write it. */
  function Transmit(e: Endpoint, msg: ControlMessage, ns: u16, k: nat, wait: int): (ControlMessage, Endpoint) {
    var m := msg.SetTransportSeqNum(ns, e.nr);
    (m, e.(wire := e.wire + [Packet(m, k, e.unr, wait)]))
  }

  /** The same for a message that is to be acknowledged: it arms its retry timer, and
      acknowledges by itself what has been received. */
  function Dispatch(cfg: Config, e: Endpoint, x: Xmit, ns: u16, k: nat): (ControlMessage, Endpoint) {
    var (m, e') := Transmit(e, x.msg, ns, k, ScaleRetryTimeout(cfg.retryTimeout, x.nretries));
    (m, e'.(ackTimer := e.ackTimer.Stop(), helloTimer := ResetHello(cfg, e.helloTimer)))
  }

  /** A first transmission takes the current Ns and advances it, unless it is an
      acknowledgement. */
  function FirstSend(cfg: Config, e: Endpoint, x: Xmit): (Xmit, Endpoint) {
    var (m, e') := Dispatch(cfg, e, x, e.ns, e.uns);
    var x' := x.(msg := m, seqNo := e.uns);
    if m.IsAck() then (x', e') else (x', e'.(ns := SeqIncrement(e.ns), uns := e.uns + 1))
  }

  /** A retransmission keeps the Ns of the first transmission and renews the Nr. */
  function Resend(cfg: Config, e: Endpoint, x: Xmit): (Xmit, Endpoint) {
    var (m, e') := Dispatch(cfg, e, x, x.msg.ns, x.seqNo);
    (x.(msg := m), e')
  }

  /** Completion is reported once. */
  function Complete(e: Endpoint, x: Xmit, ok: bool): Endpoint {
    if x.isComplete then e else e.(completed := e.completed + [Done(x.id, ok)], acked := if ok then e.acked + 1 else e.acked)
  }

  /** How an arm ends: the writes still allowed to succeed, and whether one failed. */
  datatype TxOutcome = TxOutcome(e: Endpoint, budget: nat, ok: bool)

  /** Send from the front of the queue while the window is open.  The budget is the number
      of socket writes that succeed before one fails. */
  function ProcessTxQueue(cfg: Config, e: Endpoint, budget: nat): TxOutcome
    decreases |e.txQueue|
  {
    if e.txQueue == [] || !e.win.CanSend() then TxOutcome(e, budget, true)
    else
      var x, e1 := e.txQueue[0], e.(txQueue := e.txQueue[1..]);
      if budget == 0 then TxOutcome(Complete(e1, x, false), 0, false)
      else ProcessTxQueue(cfg, SendHead(cfg, e), budget - 1)
  }

  /** One successful turn of that loop. */
  function SendHead(cfg: Config, e: Endpoint): Endpoint
    requires e.txQueue != []
  {
    var (x', e1) := FirstSend(cfg, e.(txQueue := e.txQueue[1..]), e.txQueue[0]);
    e1.(ackQueue := e1.ackQueue + [x'], win := e1.win.OnSend())
  }

  // ---------------------------------------------------------------------------
  // Acknowledgement

  predicate HeadAcked(e: Endpoint, nr: u16) {
    e.ackQueue != [] && SeqCompare(nr, e.ackQueue[0].msg.ns) > 0
  }

  function PopAcked(cfg: Config, e: Endpoint): Endpoint
    requires e.ackQueue != []
  {
    Complete(e.(ackQueue := e.ackQueue[1..], win := e.win.OnAck(cfg.window)), e.ackQueue[0], true)
  }

  /** Only the head of the queue is ever examined. */
  function ProcessAckQueue(cfg: Config, e: Endpoint, nr: u16): Endpoint
    decreases |e.ackQueue|
  {
    if HeadAcked(e, nr) then ProcessAckQueue(cfg, PopAcked(cfg, e), nr) else e
  }

  // ---------------------------------------------------------------------------
  // Going down

  function CompleteAll(e: Endpoint, xs: seq<Xmit>): Endpoint
    decreases |xs|
  {
    if xs == [] then e else CompleteAll(Complete(e, xs[0], false), xs[1..])
  }

  /** The transmit queue is flushed before the acknowledgement queue; the timers are stopped. */
  function Down(e: Endpoint): Endpoint {
    CompleteAll(CompleteAll(e, e.txQueue), e.ackQueue).(
      txQueue := [], ackQueue := [], ackTimer := e.ackTimer.Stop(), helloTimer := e.helloTimer.Stop(), alive := false)
  }

  // ---------------------------------------------------------------------------
  // The arms of the sender

  function OnSubmit(cfg: Config, e: Endpoint, m: ControlMessage, budget: nat): Endpoint {
    var x := Xmit(m, 0, false, |e.submitted|, 0);
    var r := ProcessTxQueue(cfg, e.(submitted := e.submitted + [m], txQueue := e.txQueue + [x]), budget);
    if r.ok then r.e else Down(r.e)
  }

  /** What the receiver tells the sender of a message. */
  datatype NrInd = NrInd(msgType: u16, nr: u16)

  /** The Nr values of one received frame, in turn. */
  function OnEachNr(cfg: Config, e: Endpoint, inds: seq<NrInd>, budget: nat): Endpoint
    decreases |inds|
  {
    if inds == [] then e
    else if !HeadAcked(e, inds[0].nr) then OnEachNr(cfg, e, inds[1..], budget)
    else
      var r := ProcessTxQueue(cfg, ProcessAckQueue(cfg, e, inds[0].nr), budget);
      if r.ok then OnEachNr(cfg, r.e, inds[1..], r.budget) else Down(r.e)
  }

  /** Whether the frame held a message that calls for an acknowledgement. */
  predicate WantsAck(inds: seq<NrInd>) {
    exists i :: 0 <= i < |inds| && inds[i].msgType != MSG_ACK
  }

  /** The arm: if the endpoint survives, the acknowledgement timer is set for any message but
      an acknowledgement, and the HELLO is put off. */
  function OnNrs(cfg: Config, e: Endpoint, inds: seq<NrInd>, budget: nat): Endpoint {
    var e' := OnEachNr(cfg, e, inds, budget);
    if !e'.alive then e'
    else
      e'.(ackTimer := if WantsAck(inds) then e'.ackTimer.Reset() else e'.ackTimer,
          helloTimer := ResetHello(cfg, e'.helloTimer))
  }

  /** A retry timer fired for the message at place j of the acknowledgement queue. */
  function OnRetry(cfg: Config, e: Endpoint, j: nat, writeOk: bool): Endpoint
    requires j < |e.ackQueue|
  {
    var x := e.ackQueue[j];
    if x.isComplete then e
    else if x.nretries + 1 >= cfg.maxRetries || !writeOk then Down(FailAt(e, j))
    else
      var (x', e') := Resend(cfg, e, x.(nretries := x.nretries + 1));
      e'.(ackQueue := e.ackQueue[j := x'], win := e.win.OnRetransmit())
  }

  /** The message is completed in place; flushing the queue then skips it. */
  function FailAt(e: Endpoint, j: nat): Endpoint
    requires j < |e.ackQueue|
  {
    Complete(e, e.ackQueue[j], false).(ackQueue := e.ackQueue[j := e.ackQueue[j].(isComplete := true)])
  }

  /** HELLOs are built by the transport itself. */
  function NewHello(cfg: Config, peer: u32): Result<ControlMessage> {
    var a :- NewAvp(VENDOR_IETF, AVP_MESSAGE, VMsgType(MSG_HELLO));
    NewTransportMessage(cfg, peer, [a])
  }

  /** A v2 acknowledgement has no body; a v3 one carries a Message Type AVP. */
  function NewAck(cfg: Config, peer: u32): Result<ControlMessage> {
    if cfg.version == Version2 then NewTransportMessage(cfg, peer, [])
    else
      var a :- NewAvp(VENDOR_IETF, AVP_MESSAGE, VMsgType(MSG_ACK));
      NewTransportMessage(cfg, peer, [a])
  }

  function NewTransportMessage(cfg: Config, peer: u32, avps: seq<Avp>): Result<ControlMessage>
    requires |avps| <= 1
  {
    var len: u16 := HEADER_LEN + (if avps == [] then 0 else avps[0].header.TotalLen());
    if cfg.version == Version3 then Ok(V3(0xc803, len, peer, 0, 0, avps))
    else if peer > 0xffff then Err(IdOutOfRange)
    else Ok(V2(0xc802, len, peer, 0, 0, 0, avps))
  }

  /** A HELLO takes a number but never enters the acknowledgement queue. */
  function OnHelloTimer(cfg: Config, e0: Endpoint, peer: u32, writeOk: bool): Endpoint {
    var e := e0.(helloTimer := e0.helloTimer.Notice());
    if e.hello.Some? then e
    else
      match NewHello(cfg, peer)
      case Err(_) => Down(e)
      case Ok(m) =>
        if !writeOk then Down(e)
        else
          var (x, e') := FirstSend(cfg, e, Xmit(m, 0, false, 0, 0));
          e'.(hello := Some(x))
  }

  function OnHelloRetry(cfg: Config, e: Endpoint, writeOk: bool): Endpoint
    requires e.hello.Some?
  {
    var x := e.hello.value;
    if x.nretries + 1 >= cfg.maxRetries || !writeOk then Down(e)
    else
      var (x', e') := Resend(cfg, e, x.(nretries := x.nretries + 1));
      e'.(hello := Some(x'), win := e.win.OnRetransmit())
  }

  /** An explicit acknowledgement goes out under the current Ns without using it up, and is
      itself not retried. */
  function OnAckTimer(cfg: Config, e0: Endpoint, peer: u32, writeOk: bool): Endpoint {
    var e := e0.(ackTimer := e0.ackTimer.Notice());
    match NewAck(cfg, peer)
    case Err(_) => Down(e)
    case Ok(m) => if writeOk then Transmit(e, m, e.ns, e.uns, 0).1 else Down(e)
  }

  // ---------------------------------------------------------------------------
  // The receiver

  /** An Nr beyond anything sent. */
  predicate Beyond(e: Endpoint, m: ControlMessage) {
    SeqCompare(m.nr, SeqIncrement(e.ns)) > 0
  }

  function FirstBeyond(e: Endpoint, ms: seq<ControlMessage>): (i: nat)
    ensures i <= |ms|
    decreases |ms|
  {
    if ms == [] || Beyond(e, ms[0]) then 0 else 1 + FirstBeyond(e, ms[1..])
  }

  predicate AllTyped(ms: seq<ControlMessage>) {
    forall i :: 0 <= i < |ms| ==> ms[i].GetType().Ok?
  }

  const RECV_BUFFER := 4096

  /** What the receive buffer holds of a frame. */
  function Received(frame: seq<byte>): seq<byte> {
    if |frame| > RECV_BUFFER then frame[..RECV_BUFFER] else frame
  }

  /** Parse a frame; drop it if it does not parse, or whole if any Nr in it is beyond anything
      sent.  None where the program panics: in the parser, or when a message type has to be
      read and cannot be. */
  function RecvFrame(e: Endpoint, frame: seq<byte>): (got: Option<seq<ControlMessage>>)
    ensures got.Some? ==> AllTyped(got.value)
  {
    match ParseMessages(frame)
    case Err(error) => if error == RuntimePanic then None else Some([])
    case Ok(ms) =>
      var i := FirstBeyond(e, ms);
      if i < |ms| then (if ms[i].GetType().Ok? then Some([]) else None)
      else if AllTyped(ms) then Some(ms) else None
  }

  /** The words of the error for which a frame is dropped, if it is. */
  function RecvError(e: Endpoint, frame: seq<byte>): (text: Option<string>)
    ensures text.Some? ==> RecvFrame(e, frame) == Some([])
  {
    match ParseMessages(frame)
    case Err(error) => if error == RuntimePanic then None else Some(ParserText(frame))
    case Ok(ms) =>
      var i := FirstBeyond(e, ms);
      if i < |ms| && ms[i].GetType().Ok? then Some(DropText(ms[i].GetType().value, ms[i], e.ns, e.nr)) else None
  }

  /** The receiver gives up if it finds the error in the text it should look for in it. */
  predicate ReceiverCloses(e: Endpoint, frame: seq<byte>) {
    RecvError(e, frame).Some? && Contains(Mandatory(), RecvError(e, frame).value)
  }

  function NrInds(ms: seq<ControlMessage>): seq<NrInd>
    requires AllTyped(ms)
  {
    seq(|ms|, i requires 0 <= i < |ms| => NrInd(ms[i].GetType().value, ms[i].nr))
  }

  /** What the receiver makes of a frame: the Nr values it passes to the sender, or the end of
      its loop, at which the sender takes the transport down, or a panic. */
  datatype Receipt = Passed(nrs: seq<NrInd>) | ReceiverEnds | Panics

  /** A dropped frame leaves nothing to queue. */
  function Receive(e: Endpoint, frame: seq<byte>): (Receipt, Endpoint) {
    if ReceiverCloses(e, frame) then (ReceiverEnds, e)
    else
      match RecvFrame(e, frame)
      case None => (Panics, e)
      case Some(ms) => (Passed(NrInds(ms)), e.(rxQueue := e.rxQueue + ms))
  }

  predicate InSequence(e: Endpoint, m: ControlMessage) {
    SeqCompare(e.nr, m.ns) == 0
  }

  predicate Stale(e: Endpoint, m: ControlMessage) {
    SeqCompare(m.ns, e.nr) == -1
  }

  /** Whether the receiver can take the head of its queue; it never looks further. */
  predicate HeadReady(e: Endpoint) {
    e.rxQueue != [] && (InSequence(e, e.rxQueue[0]) || Stale(e, e.rxQueue[0]))
  }

  /** A message is accepted when Nr moves past it; its way to the reader is not followed. */
  function PopRx(e: Endpoint): Endpoint
    requires e.rxQueue != []
  {
    var m, e1 := e.rxQueue[0], e.(rxQueue := e.rxQueue[1..]);
    if !m.IsAck() && InSequence(e, m)
    then e1.(nr := SeqIncrement(e.nr), unr := e.unr + 1, delivered := e.delivered + [m])
    else e1
  }

  function ProcessRxQueue(e: Endpoint): Endpoint
    decreases |e.rxQueue|
  {
    if HeadReady(e) then ProcessRxQueue(PopRx(e)) else e
  }
}
