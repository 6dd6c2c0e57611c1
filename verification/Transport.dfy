/** The transport as the program has it: objects whose fields the sender and the receiver
    update in place.  Every method is tied to the function on endpoint states that it
    computes, and every arm of the sender and turn of the receiver keeps the endpoint
    invariant of the object it is called on. */
module Transports {
  import opened Wire
  import opened Messages
  import opened Validation
  import opened SequenceNumbers
  import opened SlowStart
  import opened RetryTimeouts
  import opened ErrorTexts
  import opened Endpoints
  import opened EndpointInvariants
  import opened SenderSteps
  import opened AckSteps
  import opened SenderArms
  import opened Network
  import opened Delivery

  class SlowStartState {
    var ns: u16
    var nr: u16
    var cwnd: u16
    var thresh: u16
    var nacks: u16
    var ntx: u16

    constructor (window: u16)
      ensures ns == 0 && nr == 0 && Win() == Initial(window)
    {
      ns, nr, cwnd, thresh, nacks, ntx := 0, 0, 1, window, 0, 0;
    }

    function Win(): Window
      reads this
    {
      Window(cwnd, thresh, nacks, ntx)
    }

    method CanSend() returns (r: bool)
      ensures r == Win().CanSend()
    {
      r := ntx < cwnd;
    }

    method OnSend()
      modifies `ntx
      ensures Win() == old(Win()).OnSend()
      ensures forall w: u16 :: old(Win().CanSend()) && old(Win()).Bounded(w) ==> Win().Bounded(w)
    {
      ntx := Inc(ntx);
    }

    method OnAck(maxTxWindow: u16)
      modifies `cwnd, `nacks, `ntx
      ensures Win() == old(Win()).OnAck(maxTxWindow)
      ensures old(Win()).Bounded(maxTxWindow) ==> Win().Bounded(maxTxWindow)
    {
      if ntx > 0 {
        if cwnd < maxTxWindow {
          if cwnd < thresh {
            cwnd := Inc(cwnd);
          } else {
            nacks := Inc(nacks);
            if nacks >= cwnd {
              nacks := 0;
              cwnd := Inc(cwnd);
            }
          }
        }
        ntx := ntx - 1;
      }
    }

    method OnRetransmit()
      modifies `thresh, `cwnd
      ensures Win() == old(Win()).OnRetransmit()
      ensures forall w: u16 :: old(Win()).Bounded(w) ==> Win().Bounded(w)
    {
      thresh := cwnd / 2;
      cwnd := 1;
    }

    method IncrementNr()
      modifies `nr
      ensures nr == SeqIncrement(old(nr))
    {
      nr := SeqIncrement(nr);
    }

    method IncrementNs()
      modifies `ns
      ensures ns == SeqIncrement(old(ns))
    {
      ns := SeqIncrement(ns);
    }
  }

  /** Who is told that a message is done. */
  datatype Callback = SendComplete | HelloSendComplete

  class XmitMsg {
    var msg: ControlMessage
    var nretries: nat
    var isComplete: bool
    // the wait its retry timer was last armed with
    var retryTimer: Option<int>
    const onComplete: Callback
    ghost const id: nat
    ghost var seqNo: nat

    constructor (msg: ControlMessage, onComplete: Callback, ghost id: nat)
      ensures View() == Xmit(msg, 0, false, id, 0) && this.onComplete == onComplete
    {
      this.msg, this.nretries, this.isComplete, this.onComplete := msg, 0, false, onComplete;
      this.retryTimer, this.id, this.seqNo := None, id, 0;
    }

    ghost function View(): Xmit
      reads this
    {
      Xmit(msg, nretries, isComplete, id, seqNo)
    }
  }

  ghost predicate Distinct(xs: seq<XmitMsg>) {
    forall i, j :: 0 <= i < j < |xs| ==> xs[i] != xs[j]
  }

  /** The queue of objects holds these values. */
  ghost predicate Holds(xs: seq<XmitMsg>, vs: seq<Xmit>)
    reads xs
  {
    |xs| == |vs| && forall i :: 0 <= i < |xs| ==> xs[i].View() == vs[i]
  }

  /** The same, except perhaps at place j. */
  ghost predicate HoldsBut(xs: seq<XmitMsg>, vs: seq<Xmit>, j: int)
    reads xs
  {
    |xs| == |vs| && forall i :: 0 <= i < |xs| && i != j ==> xs[i].View() == vs[i]
  }

  lemma {:induction false} Refreshed(xs: seq<XmitMsg>, vs: seq<Xmit>, j: nat)
    requires HoldsBut(xs, vs, j) && j < |xs|
    ensures Holds(xs, vs[j := xs[j].View()])
  {
  }

  lemma {:induction false} Undisturbed(xs: seq<XmitMsg>, vs: seq<Xmit>)
    ensures forall j :: j < 0 && HoldsBut(xs, vs, j) ==> Holds(xs, vs)
  {
  }

  /** No message object stands in two places. */
  ghost predicate Apart(txq: seq<XmitMsg>, ackq: seq<XmitMsg>, repr: set<XmitMsg>, hello: XmitMsg?) {
    && Distinct(txq) && Distinct(ackq) && hello !in repr
    && (forall x :: x in txq ==> x in repr && x !in ackq)
    && (forall x :: x in ackq ==> x in repr)
    && (forall x :: x in repr ==> x.onComplete == SendComplete)
  }

  lemma {:induction false} MoveHead(txq: seq<XmitMsg>, ackq: seq<XmitMsg>, repr: set<XmitMsg>, hello: XmitMsg?)
    requires Apart(txq, ackq, repr, hello) && txq != []
    ensures Apart(txq[1..], ackq + [txq[0]], repr, hello) && Apart(txq[1..], ackq, repr, hello)
    ensures txq[0] !in txq[1..] && txq[0] !in ackq && txq[0] in repr && txq[0] != hello && txq[0].onComplete == SendComplete
  {
    var x, rest, more := txq[0], txq[1..], ackq + [txq[0]];
    assert x in txq;
    forall y | y in rest
      ensures y in txq && y != x
    {
    }
    assert forall y :: y in more ==> y in ackq || y == x;
    assert Distinct(rest) && Distinct(more);
  }

  lemma {:induction false} TakeOut(txq: seq<XmitMsg>, ackq: seq<XmitMsg>, repr: set<XmitMsg>, hello: XmitMsg?, i: nat)
    requires Apart(txq, ackq, repr, hello) && i < |ackq|
    ensures var rest := ackq[..i] + ackq[i + 1..];
            && Apart(txq, rest, repr, hello)
            && ackq[i] !in rest && ackq[i] !in txq && ackq[i] in repr && ackq[i] != hello && ackq[i].onComplete == SendComplete
  {
  }

  lemma {:induction false} PutIn(txq: seq<XmitMsg>, ackq: seq<XmitMsg>, repr: set<XmitMsg>, hello: XmitMsg?, x: XmitMsg)
    requires Apart(txq, ackq, repr, hello) && x !in repr && x != hello && x.onComplete == SendComplete
    ensures Apart(txq + [x], ackq, repr + {x}, hello) && x !in txq && x !in ackq
  {
  }

  /** A live endpoint's invariant outlives the change. */
  ghost predicate Keeps(cfg: Config, e: Endpoint, e': Endpoint) {
    e.alive && Inv(cfg, e) ==> Inv(cfg, e')
  }

  lemma {:induction false} HoldsTail(xs: seq<XmitMsg>, vs: seq<Xmit>)
    requires Holds(xs, vs) && xs != []
    ensures |vs| == |xs| && xs[0].View() == vs[0] && Holds(xs[1..], vs[1..])
  {
  }

  lemma {:induction false} HoldsMore(xs: seq<XmitMsg>, vs: seq<Xmit>, x: XmitMsg)
    requires Holds(xs, vs)
    ensures Holds(xs + [x], vs + [x.View()])
  {
  }

  class Transport {
    const config: Config
    const slowStart: SlowStartState
    var rxQueue: seq<ControlMessage>
    var txQueue: seq<XmitMsg>
    var ackQueue: seq<XmitMsg>
    var helloInFlight: bool
    var ackTimer: Timer
    var helloTimer: Timer

    // The objects in the queues and what they hold
    ghost var repr: set<XmitMsg>
    ghost var tx: seq<Xmit>
    ghost var ack: seq<Xmit>
    // The HELLO in flight, known only to its retry timer
    ghost var helloMsg: XmitMsg?
    // History
    ghost var hello: Option<Xmit>
    ghost var alive: bool
    ghost var uns: nat
    ghost var unr: nat
    ghost var acked: nat
    ghost var submitted: seq<ControlMessage>
    ghost var completed: seq<Done>
    ghost var delivered: seq<ControlMessage>
    ghost var wire: seq<Packet>

    constructor (cfg: Config)
      ensures Valid() && View() == Fresh(cfg) && config == cfg && fresh(slowStart) && repr == {}
    {
      config := cfg;
      slowStart := new SlowStartState(cfg.window);
      rxQueue, txQueue, ackQueue, helloInFlight := [], [], [], false;
      ackTimer, helloTimer := Timer(false, false), Timer(cfg.helloTimeout > 0, false);
      repr, tx, ack := {}, [], [];
      helloMsg, hello, alive, uns, unr, acked := null, None, true, 0, 0, 0;
      submitted, completed, delivered, wire := [], [], [], [];
    }

    /** While the transport lives, the HELLO in flight is the one the history tells of. */
    ghost predicate HelloOk()
      reads `alive, `helloInFlight, `hello, `helloMsg, if helloMsg == null then {} else {helloMsg}
    {
      alive ==>
        && helloInFlight == (helloMsg != null)
        && hello == (if helloMsg == null then None else Some(helloMsg.View()))
        && (helloMsg != null ==> helloMsg.onComplete == HelloSendComplete && !helloMsg.isComplete)
    }

    /** The queues hold what the history says they hold. */
    ghost predicate Sound()
      reads `txQueue, `ackQueue, `repr, `tx, `ack, `helloMsg, repr, txQueue, ackQueue
    {
      && Apart(txQueue, ackQueue, repr, helloMsg)
      && Holds(txQueue, tx) && Holds(ackQueue, ack)
      && (forall i :: 0 <= i < |tx| ==> tx[i].nretries == 0)
    }

    ghost predicate Valid()
      reads this, repr, txQueue, ackQueue, if helloMsg == null then {} else {helloMsg}
    {
      Sound() && HelloOk()
    }

    ghost function View(): Endpoint
      reads this, slowStart
    {
      Endpoint(slowStart.ns, slowStart.nr, slowStart.Win(), tx, ack, rxQueue, hello, ackTimer, helloTimer, alive,
               uns, unr, acked, submitted, completed, delivered, wire)
    }

    method TxComplete(m: XmitMsg, ok: bool)
      modifies `completed, `acked, `helloInFlight, m`isComplete
      ensures m.View() == old(m.View()).(isComplete := true)
      ensures m.onComplete == SendComplete ==>
                View() == Complete(old(View()), old(m.View()), ok) && helloInFlight == old(helloInFlight)
      ensures m.onComplete == HelloSendComplete ==>
                View() == old(View()) && helloInFlight == (old(m.isComplete) && old(helloInFlight))
      ensures Fits(m) == old(Fits(m)) && (old(Sound() && Fits(m)) ==> Sound()) && (old(Valid() && Fits(m)) ==> Valid())
    {
      hide Apart;
      if !m.isComplete {
        m.isComplete := true;
        match m.onComplete {
          case SendComplete =>
            completed := completed + [Done(m.id, ok)];
            acked := if ok then acked + 1 else acked;
          case HelloSendComplete =>
            helloInFlight := false;
        }
      }
    }

    method ToggleAckTimer(enable: bool)
      modifies `ackTimer
      ensures View() == old(View()).(ackTimer := if enable then old(ackTimer).Reset() else old(ackTimer).Stop())
    {
      ackTimer := if enable then ackTimer.Reset() else ackTimer.Stop();
    }

    method ResetHelloTimer()
      modifies `helloTimer
      ensures View() == old(View()).(helloTimer := ResetHello(config, old(helloTimer)))
    {
      if config.helloTimeout > 0 {
        helloTimer := helloTimer.Reset();
      }
    }

    /** Number the message and write it to the socket. */
    method SendMessage1(msg: ControlMessage, isRetransmit: bool, ghost k: nat, ghost wait: int, writeOk: bool)
      returns (m: ControlMessage, ok: bool)
      modifies `wire
      ensures ok == writeOk
      ensures m == msg.SetTransportSeqNum(if isRetransmit then msg.ns else slowStart.ns, slowStart.nr)
      ensures View() == if ok then old(View()).(wire := old(wire) + [Packet(m, k, unr, wait)]) else old(View())
    {
      var ns, nr := slowStart.ns, slowStart.nr;
      if isRetransmit {
        m := msg.SetTransportSeqNum(msg.ns, nr);
      } else {
        m := msg.SetTransportSeqNum(ns, nr);
      }
      ok := writeOk;
      if ok {
        wire := wire + [Packet(m, k, unr, wait)];
      }
    }

    /** Write a message that is to be acknowledged: its retry timer is armed with the timeout
        doubled for every retry, and the timer for an explicit acknowledgement stopped. */
    method WriteAndArm(x: XmitMsg, ghost k: nat, writeOk: bool) returns (ok: bool)
      modifies `wire, `ackTimer, `helloTimer, x`msg, x`retryTimer
      ensures ok == writeOk
      ensures ok ==> (x.msg, View()) == Dispatch(config, old(View()), old(x.View()), if x.nretries > 0 then old(x.msg.ns) else slowStart.ns, k)
      ensures ok ==> x.retryTimer == Some(ScaleRetryTimeout(config.retryTimeout, x.nretries))
      ensures !ok ==> View() == old(View())
    {
      hide ScaleRetryTimeout, ControlMessage.SetTransportSeqNum, ResetHello;
      var wait := ScaleRetryTimeout(config.retryTimeout, x.nretries);
      var m;
      m, ok := SendMessage1(x.msg, x.nretries > 0, k, wait, writeOk);
      x.msg := m;
      if ok {
        ToggleAckTimer(false);
        ResetHelloTimer();
        x.retryTimer := Some(wait);
      }
    }

    method SendMessage(x: XmitMsg, writeOk: bool) returns (ok: bool)
      modifies `wire, `uns, `ackTimer, `helloTimer, slowStart`ns, x`msg, x`seqNo, x`retryTimer
      ensures ok == writeOk
      ensures ok ==> (x.View(), View()) ==
                     if old(x.nretries) == 0 then FirstSend(config, old(View()), old(x.View()))
                     else Resend(config, old(View()), old(x.View()))
      ensures ok ==> x.retryTimer == Some(ScaleRetryTimeout(config.retryTimeout, x.nretries))
      ensures !ok ==> View() == old(View())
    {
      hide ScaleRetryTimeout, Dispatch, ControlMessage.GetType, SeqIncrement;
      ghost var k := if x.nretries == 0 then uns else x.seqNo;
      ok := WriteAndArm(x, k, writeOk);
      if ok {
        x.seqNo := k;
        if !x.msg.IsAck() && x.nretries == 0 {
          slowStart.IncrementNs();
          uns := uns + 1;
        }
      }
    }

    /** Loop the transmit queue sending messages in order while the window is open. */
    method ProcessTxQueue(budget: nat) returns (ok: bool, left: nat)
      requires Valid()
      modifies this, slowStart, repr
      ensures Valid() && repr == old(repr) && helloMsg == old(helloMsg)
      ensures TxOutcome(View(), left, ok) == Endpoints.ProcessTxQueue(config, old(View()), budget)
    {
      hide SendHead, Complete, Apart;
      left := budget;
      while |txQueue| > 0
        invariant Valid() && repr == old(repr) && helloMsg == old(helloMsg)
        invariant Endpoints.ProcessTxQueue(config, View(), left) == Endpoints.ProcessTxQueue(config, old(View()), budget)
        decreases |txQueue|
      {
        var open := slowStart.CanSend();
        if !open {
          return true, left;
        }
        var sent := SendHeadOfQueue(left > 0);
        if !sent {
          return false, left;
        }
        left := left - 1;
      }
      ok := true;
    }

    /** One turn of that loop: pop, send, and queue for acknowledgement. */
    method SendHeadOfQueue(writeOk: bool) returns (ok: bool)
      requires Valid() && txQueue != []
      modifies this, slowStart, repr
      ensures Valid() && repr == old(repr) && helloMsg == old(helloMsg)
      ensures ok == writeOk && |txQueue| == |old(txQueue)| - 1
      ensures ok ==> View() == SendHead(config, old(View()))
      ensures !ok ==> View() == Complete(old(View()).(txQueue := old(View()).txQueue[1..]), old(View()).txQueue[0], false)
    {
      hide ControlMessage.IsAck, ControlMessage.SetTransportSeqNum, SeqIncrement, Window.OnSend, Apart, Valid;
      var x;
      x, ok := PopAndSend(writeOk);
      if ok {
        AwaitAck(x);
      } else {
        TxComplete(x, false);
      }
    }

    method AwaitAck(x: XmitMsg)
      requires Valid() && Fits(x) && Apart(txQueue, ackQueue + [x], repr, helloMsg)
      modifies `ackQueue, `ack, slowStart`ntx
      ensures Valid()
      ensures View() == old(View()).(ackQueue := old(View()).ackQueue + [x.View()], win := old(View()).win.OnSend())
    {
      hide Apart;
      ackQueue, ack := ackQueue + [x], ack + [x.View()];
      slowStart.OnSend();
    }

    method PopAndSend(writeOk: bool) returns (x: XmitMsg, ok: bool)
      requires Valid() && txQueue != []
      modifies this, slowStart, repr
      ensures Valid() && repr == old(repr) && helloMsg == old(helloMsg) && txQueue == old(txQueue)[1..]
      ensures Apart(txQueue, ackQueue + [x], repr, helloMsg) && Fits(x)
      ensures ok == writeOk
      ensures ok ==> (x.View(), View()) == FirstSend(config, old(View()).(txQueue := old(View()).txQueue[1..]), old(View()).txQueue[0])
      ensures !ok ==> View() == old(View()).(txQueue := old(View()).txQueue[1..])
      ensures !ok ==> x.isComplete == old(View()).txQueue[0].isComplete && x.id == old(View()).txQueue[0].id
    {
      hide FirstSend, Resend, ScaleRetryTimeout, Apart, HelloOk, Holds;
      x := txQueue[0];
      MoveHead(txQueue, ackQueue, repr, helloMsg);
      HoldsTail(txQueue, tx);
      txQueue, tx := txQueue[1..], tx[1..];
      ok := SendMessage(x, writeOk);
    }

    /** The object belongs to the transport but stands in no queue. */
    ghost predicate Fits(x: XmitMsg)
      reads this
    {
      x in repr && x !in txQueue && x !in ackQueue && x != helloMsg && x.onComplete == SendComplete
    }

    // -------------------------------------------------------------------------
    // Acknowledgement

    method ProcessAckQueue(nr: u16) returns (found: bool)
      requires Valid()
      modifies this, slowStart, repr
      ensures Valid() && repr == old(repr) && helloMsg == old(helloMsg)
      ensures View() == Endpoints.ProcessAckQueue(config, old(View()), nr)
      ensures found == HeadAcked(old(View()), nr)
    {
      hide Apart, PopAcked;
      found := false;
      var i := 0;
      while i < |ackQueue|
        invariant 0 <= i <= |ackQueue|
        invariant Valid() && repr == old(repr) && helloMsg == old(helloMsg)
        invariant i > 0 ==> !HeadAcked(View(), nr)
        invariant if found then HeadAcked(old(View()), nr) else View() == old(View())
        invariant Endpoints.ProcessAckQueue(config, View(), nr) == Endpoints.ProcessAckQueue(config, old(View()), nr)
        decreases |ackQueue| - i
      {
        var x := ackQueue[0];
        assert x.View() == ack[0];
        if SeqCompare(nr, x.msg.ns) > 0 {
          AckHead(i);
          i := i - 1;
          found := true;
        }
        i := i + 1;
      }
    }

    /** The body of that loop when the head is acknowledged, which happens only at place 0. */
    method AckHead(i: nat)
      requires Valid() && i < |ackQueue| && i == 0
      modifies this, slowStart, repr
      ensures Valid() && repr == old(repr) && helloMsg == old(helloMsg) && |ackQueue| == |old(ackQueue)| - 1
      ensures View() == PopAcked(config, old(View()))
    {
      hide Apart, Sound, Holds, HelloOk, Window.OnAck;
      SoundHolds();
      var x := ackQueue[0];
      slowStart.OnAck(config.window);
      RemoveAcked(i);
      TxComplete(x, true);
    }

    lemma {:induction false} SoundHolds()
      requires Sound()
      ensures Holds(txQueue, tx) && Holds(ackQueue, ack)
    {
    }

    method RemoveAcked(i: nat)
      requires Sound() && i < |ackQueue|
      modifies `ackQueue, `ack
      ensures Sound() && (old(Valid()) ==> Valid()) && |ackQueue| == |old(ackQueue)| - 1 && Fits(old(ackQueue)[i])
      ensures View() == old(View()).(ackQueue := old(View()).ackQueue[..i] + old(View()).ackQueue[i + 1..])
    {
      hide Apart;
      TakeOut(txQueue, ackQueue, repr, helloMsg, i);
      ackQueue, ack := ackQueue[..i] + ackQueue[i + 1..], ack[..i] + ack[i + 1..];
    }

    // -------------------------------------------------------------------------
    // Going down

    /** Flush the queues, completing every message not completed yet with an error, and stop
        the timers. */
    method Down()
      requires Sound()
      modifies this, repr
      ensures Valid() && repr == old(repr) && helloMsg == old(helloMsg)
      ensures View() == Endpoints.Down(old(View()))
      ensures Keeps(config, old(View()), View())
    {
      hide Apart, Holds, Keeps;
      ghost var e := View();
      DownKeeps(config, e);
      FlushTxQueue();
      FlushAckQueue();
      ToggleAckTimer(false);
      helloTimer := helloTimer.Stop();
      alive := false;
      CompleteAllKeepsRest(e, e.txQueue);
      CompleteAllKeepsRest(CompleteAll(e, e.txQueue), e.ackQueue);
      CompleteAllIgnoresQueue(CompleteAll(e, e.txQueue), e.ackQueue, []);
    }

    method FlushTxQueue()
      requires Sound()
      modifies this, repr
      ensures Sound() && repr == old(repr) && helloMsg == old(helloMsg) && alive == old(alive) && ack == old(ack)
      ensures View() == CompleteAll(old(View()), old(tx)).(txQueue := [])
    {
      hide Apart, Complete, Sound;
      SoundHolds();
      while |txQueue| > 0
        invariant Sound() && alive == old(alive) && Holds(txQueue, tx) && repr == old(repr) && helloMsg == old(helloMsg) && ack == old(ack)
        invariant CompleteAll(View(), tx).(txQueue := []) == CompleteAll(old(View()), old(tx)).(txQueue := [])
        decreases |txQueue|
      {
        ghost var e := Complete(View(), tx[0], false);
        CompleteAllIgnoresQueue(e, tx[1..], tx[1..]);
        FlushTx();
        SoundHolds();
      }
    }

    method FlushAckQueue()
      requires Sound()
      modifies this, repr
      ensures Sound() && repr == old(repr) && helloMsg == old(helloMsg)
      ensures View() == CompleteAll(old(View()), old(ack)).(ackQueue := [])
    {
      hide Apart, Complete, Sound;
      SoundHolds();
      while |ackQueue| > 0
        invariant Sound() && alive == old(alive) && Holds(ackQueue, ack) && repr == old(repr) && helloMsg == old(helloMsg)
        invariant CompleteAll(View(), ack).(ackQueue := []) == CompleteAll(old(View()), old(ack)).(ackQueue := [])
        decreases |ackQueue|
      {
        ghost var e := Complete(View(), ack[0], false);
        CompleteAllIgnoresAckQueue(e, ack[1..], ack[1..]);
        FlushAck();
        SoundHolds();
      }
    }

    method FlushTx()
      requires Sound() && txQueue != []
      modifies this, repr
      ensures Sound() && repr == old(repr) && helloMsg == old(helloMsg) && alive == old(alive) && |txQueue| == |old(txQueue)| - 1
      ensures |old(tx)| > 0 && ack == old(ack) && View() == Complete(old(View()), old(tx)[0], false).(txQueue := old(tx)[1..])
    {
      hide Apart;
      MoveHead(txQueue, ackQueue, repr, helloMsg);
      var x := txQueue[0];
      txQueue, tx := txQueue[1..], tx[1..];
      TxComplete(x, false);
    }

    method FlushAck()
      requires Sound() && ackQueue != []
      modifies this, repr
      ensures Sound() && repr == old(repr) && helloMsg == old(helloMsg) && alive == old(alive) && |ackQueue| == |old(ackQueue)| - 1
      ensures |old(ack)| > 0 && View() == Complete(old(View()), old(ack)[0], false).(ackQueue := old(ack)[1..])
    {
      hide Apart;
      var x := ackQueue[0];
      RemoveAcked(0);
      TxComplete(x, false);
    }

    // -------------------------------------------------------------------------
    // The arms of the sender

    /** A transmission request from user code. */
    method OnSendRequest(m: ControlMessage, budget: nat)
      requires Valid()
      modifies this, slowStart, repr
      ensures Valid() && fresh(repr - old(repr)) && helloMsg == old(helloMsg)
      ensures View() == OnSubmit(config, old(View()), m, budget)
      ensures Sendable(m) ==> Keeps(config, old(View()), View())
    {
      hide Apart, Endpoints.ProcessTxQueue, Endpoints.Down, Keeps, Sendable;
      SubmitKeeps(config, View(), m, budget);
      var x := new XmitMsg(m, SendComplete, |submitted|);
      Enqueue(x);
      var ok, _ := ProcessTxQueue(budget);
      if !ok {
        Down();
      }
    }

    /** What user code calls: only a message that validates reaches the sender. */
    method Send(m: ControlMessage, budget: nat) returns (accepted: bool)
      requires Valid()
      modifies this, slowStart, repr
      ensures Valid() && fresh(repr - old(repr)) && helloMsg == old(helloMsg)
      ensures accepted == Validates(m)
      ensures View() == if accepted then OnSubmit(config, old(View()), m, budget) else old(View())
      ensures m.WellFormed() ==> Keeps(config, old(View()), View())
    {
      hide Apart, Holds, OnSubmit, Validates, Keeps, ControlMessage.WellFormed, Sendable;
      Unchanged(config, View());
      if Validates(m) && m.WellFormed() {
        ValidatedIsSendable(m);
      }
      var r := Validate(m);
      accepted := r.Ok?;
      if accepted {
        OnSendRequest(m, budget);
      }
    }

    method Enqueue(x: XmitMsg)
      requires Valid() && x !in repr && x != helloMsg && x.onComplete == SendComplete
      requires x.View() == Xmit(x.msg, 0, false, |submitted|, 0)
      modifies `submitted, `repr, `txQueue, `tx
      ensures Valid() && repr == old(repr) + {x}
      ensures View() == old(View()).(submitted := old(submitted) + [x.msg], txQueue := old(View()).txQueue + [x.View()])
    {
      hide Apart, Holds, HelloOk;
      PutIn(txQueue, ackQueue, repr, helloMsg, x);
      HoldsMore(txQueue, tx, x);
      submitted := submitted + [x.msg];
      repr := repr + {x};
      txQueue, tx := txQueue + [x], tx + [x.View()];
    }

    /** The Nr values of one received frame: acknowledged messages make room for waiting ones,
        a message other than an acknowledgement sets the acknowledgement timer, and any frame
        puts off the HELLO. */
    method OnNrInd(rxNr: seq<NrInd>, budget: nat)
      requires Valid() && alive
      modifies this, slowStart, repr
      ensures Valid() && repr == old(repr) && helloMsg == old(helloMsg)
      ensures View() == OnNrs(config, old(View()), rxNr, budget)
      ensures Keeps(config, old(View()), View())
    {
      hide Apart, Holds, OnEachNr, Keeps, WantsAck, ResetHello;
      NrsKeep(config, View(), rxNr, budget);
      var up := HandleNrs(rxNr, budget);
      if up {
        var wants := AnyToAck(rxNr);
        if wants {
          ToggleAckTimer(true);
        }
        ResetHelloTimer();
      }
    }

    method HandleNrs(rxNr: seq<NrInd>, budget: nat) returns (up: bool)
      requires Valid() && alive
      modifies this, slowStart, repr
      ensures Valid() && repr == old(repr) && helloMsg == old(helloMsg) && up == alive
      ensures View() == OnEachNr(config, old(View()), rxNr, budget)
    {
      hide Apart, Holds, Endpoints.ProcessTxQueue, Endpoints.ProcessAckQueue, HeadAcked;
      var left := budget;
      var i := 0;
      while i < |rxNr|
        invariant 0 <= i <= |rxNr| && alive
        invariant Valid() && repr == old(repr) && helloMsg == old(helloMsg)
        invariant OnEachNr(config, View(), rxNr[i..], left) == OnEachNr(config, old(View()), rxNr, budget)
      {
        ghost var e := View();
        assert rxNr[i..][1..] == rxNr[i + 1..];
        var found := ProcessAckQueue(rxNr[i].nr);
        if found {
          AckAndTxKeepAlive(config, e, rxNr[i].nr, left);
          var ok;
          ok, left := ProcessTxQueue(left);
          if !ok {
            Down();
            return false;
          }
        } else {
          NothingAcked(config, e, rxNr[i].nr);
        }
        i := i + 1;
      }
      up := true;
    }

    static method AnyToAck(rxNr: seq<NrInd>) returns (wants: bool)
      ensures wants == WantsAck(rxNr)
    {
      var i := 0;
      while i < |rxNr|
        invariant 0 <= i <= |rxNr| && forall j :: 0 <= j < i ==> rxNr[j].msgType == MSG_ACK
      {
        if rxNr[i].msgType != MSG_ACK {
          return true;
        }
        i := i + 1;
      }
      return false;
    }

    /** Where the message whose timer fired stands: at place j of the acknowledgement queue,
        or nowhere if it is the HELLO. */
    ghost predicate At(x: XmitMsg, j: int)
      reads this
    {
      if j >= 0 then j < |ackQueue| && ackQueue[j] == x else x == helloMsg
    }

    method RetransmitMessage(x: XmitMsg, writeOk: bool) returns (ok: bool)
      modifies `wire, `uns, `ackTimer, `helloTimer, slowStart`ns, slowStart`cwnd, slowStart`thresh, x
      ensures ok == (writeOk && old(x.nretries) + 1 < config.maxRetries) && x.isComplete == old(x.isComplete)
      ensures ok ==> (x.View(), View()) == Retried(config, old(View()), old(x.View()))
      ensures !ok ==> View() == old(View())
    {
      x.nretries := x.nretries + 1;
      if x.nretries >= config.maxRetries {
        return false;
      }
      ok := SendMessage(x, writeOk);
      if ok {
        slowStart.OnRetransmit();
      }
    }

    /** A retry timer fired.  The message may have been acknowledged in the meantime. */
    method OnRetryRequest(x: XmitMsg, ghost j: int, writeOk: bool)
      requires Valid() && alive && (x.isComplete || At(x, j))
      modifies this, slowStart, repr, x
      ensures Valid() && repr == old(repr) && helloMsg == old(helloMsg)
      ensures old(x.isComplete) ==> View() == old(View())
      ensures !old(x.isComplete) && j >= 0 ==> View() == OnRetry(config, old(View()), j, writeOk)
      ensures !old(x.isComplete) && j < 0 ==> old(hello).Some? && View() == OnHelloRetry(config, old(View()), writeOk)
      ensures Keeps(config, old(View()), View())
    {
      hide Apart, Holds, Endpoints.Down, Keeps;
      Unchanged(config, View());
      if !x.isComplete {
        SoundAt(x, j);
        RetryKeeps(config, View(), j, writeOk);
        var ok := RetransmitInPlace(x, j, writeOk);
        if !ok {
          if j >= 0 {
            SameFlush(FailAt(old(View()), j), FailAt(View(), j), j);
          }
          GiveUp(x, j);
        }
      }
    }

    method RetransmitInPlace(x: XmitMsg, ghost j: int, writeOk: bool) returns (ok: bool)
      requires Valid() && alive && At(x, j) && !x.isComplete
      modifies `wire, `uns, `ackTimer, `helloTimer, `ack, `hello, slowStart, x
      ensures Sound() && (ok ==> Valid()) && !x.isComplete && (j < 0 ==> old(hello).Some?)
      ensures ok == (writeOk && old(x.nretries) + 1 < config.maxRetries)
      ensures j >= 0 ==> old(View()).ackQueue[j] == old(x.View())
      ensures j < 0 ==> old(hello) == Some(old(x.View()))
      ensures ok && j >= 0 ==> var (x', e') := Retried(config, old(View()), old(x.View()));
                               View() == e'.(ackQueue := old(View()).ackQueue[j := x'])
      ensures ok && j < 0 ==> var (x', e') := Retried(config, old(View()), old(x.View()));
                              View() == e'.(hello := Some(x'))
      ensures !ok && j >= 0 ==> View() == old(View()).(ackQueue := old(View()).ackQueue[j := x.View()])
      ensures !ok && j < 0 ==> View() == old(View())
    {
      hide Apart, Retried, Holds;
      SoundAt(x, j);
      ok := RetransmitBeside(x, j, writeOk);
      Note(x, j, ok);
    }

    /** What the history says of a retried message follows the object. */
    ghost method Note(x: XmitMsg, j: int, ok: bool)
      requires Apart(txQueue, ackQueue, repr, helloMsg) && At(x, j) && forall i :: 0 <= i < |tx| ==> tx[i].nretries == 0
      requires Holds(txQueue, tx) && HoldsBut(ackQueue, ack, j)
      modifies `ack, `hello
      ensures Sound()
      ensures View() == if j >= 0 then old(View()).(ackQueue := old(View()).ackQueue[j := x.View()])
                        else if ok then old(View()).(hello := Some(x.View()))
                        else old(View())
    {
      hide Apart, Holds;
      if j >= 0 {
        Refreshed(ackQueue, ack, j);
        ack := ack[j := x.View()];
      } else {
        Undisturbed(ackQueue, ack);
        if ok {
          hello := Some(x.View());
        }
      }
    }

    lemma {:induction false} SoundAt(x: XmitMsg, j: int)
      requires Sound() && At(x, j)
      ensures j >= 0 ==> j < |ack| && ack[j] == x.View() && x != helloMsg
    {
      Elsewhere(txQueue, ackQueue, repr, helloMsg, x, j);
    }

    /** A retransmission changes no other message. */
    method RetransmitBeside(x: XmitMsg, ghost j: int, writeOk: bool) returns (ok: bool)
      requires Sound() && At(x, j)
      modifies `wire, `uns, `ackTimer, `helloTimer, slowStart`ns, slowStart`cwnd, slowStart`thresh, x
      ensures ok == (writeOk && old(x.nretries) + 1 < config.maxRetries) && x.isComplete == old(x.isComplete)
      ensures ok ==> (x.View(), View()) == Retried(config, old(View()), old(x.View()))
      ensures !ok ==> View() == old(View())
      ensures Holds(txQueue, tx) && HoldsBut(ackQueue, ack, j)
    {
      hide Apart, Retried;
      Elsewhere(txQueue, ackQueue, repr, helloMsg, x, j);
      ok := RetransmitMessage(x, writeOk);
    }

    method GiveUp(x: XmitMsg, ghost j: int)
      requires Sound() && At(x, j) && !x.isComplete && (j < 0 ==> x.onComplete == HelloSendComplete)
      modifies this, repr, x
      ensures Valid() && repr == old(repr) && helloMsg == old(helloMsg)
      ensures j >= 0 ==> View() == Endpoints.Down(FailAt(old(View()), j))
      ensures j < 0 ==> View() == Endpoints.Down(old(View()))
    {
      hide Apart, Endpoints.Down;
      Elsewhere(txQueue, ackQueue, repr, helloMsg, x, j);
      TxComplete(x, false);
      if j >= 0 {
        ack := ack[j := x.View()];
      }
      Down();
    }

    /** The keepalive timer fired. */
    method OnHelloTimeout(peer: u32, writeOk: bool)
      requires Valid() && alive
      modifies this, slowStart, repr
      ensures Valid() && repr == old(repr) && (helloMsg == old(helloMsg) || fresh(helloMsg))
      ensures View() == OnHelloTimer(config, old(View()), peer, writeOk)
      ensures Keeps(config, old(View()), View())
    {
      hide Sound, Endpoints.Down, NewHello, FirstSend, Keeps;
      HelloTimerKeeps(config, View(), peer, writeOk);
      helloTimer := helloTimer.Notice();
      if !helloInFlight {
        var x := SendHelloMessage(peer, writeOk);
        if x == null {
          Down();
        } else {
          KeepHello(x);
        }
      }
    }

    /** The HELLO sent is in flight; only its retry timer knows it. */
    method KeepHello(x: XmitMsg)
      requires Sound() && x !in repr && x.onComplete == HelloSendComplete && !x.isComplete
      modifies `helloInFlight, `helloMsg, `hello
      ensures Valid() && helloMsg == x && View() == old(View()).(hello := Some(x.View()))
    {
      hide Apart, Holds;
      OutsideQueues(txQueue, ackQueue, repr, helloMsg, x);
      helloMsg, hello := x, Some(x.View());
      helloInFlight := true;
    }

    method SendHelloMessage(peer: u32, writeOk: bool) returns (x: XmitMsg?)
      requires Sound()
      modifies `wire, `uns, `ackTimer, `helloTimer, slowStart`ns
      ensures Sound() && (x != null <==> NewHello(config, peer).Ok? && writeOk)
      ensures x != null ==> && fresh(x) && x.onComplete == HelloSendComplete && !x.isComplete
                            && (x.View(), View()) == FirstSend(config, old(View()), Xmit(NewHello(config, peer).value, 0, false, 0, 0))
      ensures x == null ==> View() == old(View())
    {
      hide Apart, Holds, NewHello, FirstSend, Resend;
      var m := NewHello(config, peer);
      if m.Err? {
        return null;
      }
      var hello := new XmitMsg(m.value, HelloSendComplete, 0);
      var ok := SendFresh(hello, writeOk);
      x := if ok then hello else null;
    }

    /** Sending a message that stands in no queue leaves the queues alone. */
    method SendFresh(x: XmitMsg, writeOk: bool) returns (ok: bool)
      requires Sound() && x !in repr && x.nretries == 0
      modifies `wire, `uns, `ackTimer, `helloTimer, slowStart`ns, x`msg, x`seqNo, x`retryTimer
      ensures Sound() && ok == writeOk
      ensures ok ==> (x.View(), View()) == FirstSend(config, old(View()), old(x.View()))
      ensures !ok ==> View() == old(View())
    {
      hide Apart, FirstSend, Resend, ScaleRetryTimeout;
      OutsideQueues(txQueue, ackQueue, repr, helloMsg, x);
      ok := SendMessage(x, writeOk);
    }

    /** The timer for an explicit acknowledgement fired. */
    method OnAckTimeout(peer: u32, writeOk: bool)
      requires Valid() && alive
      modifies this, repr
      ensures Valid() && repr == old(repr) && helloMsg == old(helloMsg)
      ensures View() == OnAckTimer(config, old(View()), peer, writeOk)
      ensures Keeps(config, old(View()), View())
    {
      hide Apart, Holds, Endpoints.Down, NewAck, Keeps;
      AckTimerKeeps(config, View(), peer, writeOk);
      ackTimer := ackTimer.Notice();
      var m := NewAck(config, peer);
      if m.Err? {
        Down();
        return;
      }
      var _, ok := SendMessage1(m.value, false, uns, 0, writeOk);
      if !ok {
        Down();
      }
    }

    // -------------------------------------------------------------------------
    // The receiver

    /** The messages of a frame, or the words of the error for which it is dropped. */
    method RecvFrame(frame: seq<byte>) returns (got: Option<seq<ControlMessage>>, err: Option<string>)
      ensures got == Endpoints.RecvFrame(View(), frame) && err == RecvError(View(), frame)
    {
      hide ParseMessages, ParserText, DropText, SeqCompare, SeqIncrement, ControlMessage.GetType;
      var r := ParseMessageBuffer(frame);
      if r.Err? {
        if r.error == RuntimePanic {
          return None, None;
        }
        return Some([]), Some(ParserText(frame));
      }
      var ms := r.value;
      var i := 0;
      while i < |ms|
        invariant 0 <= i <= |ms|
        invariant FirstBeyond(View(), ms) == i + FirstBeyond(View(), ms[i..])
      {
        if SeqCompare(ms[i].nr, SeqIncrement(slowStart.ns)) > 0 {
          if ms[i].GetType().Ok? {
            return Some([]), Some(DropText(ms[i].GetType().value, ms[i], slowStart.ns, slowStart.nr));
          }
          return None, None;
        }
        i := i + 1;
      }
      got, err := if AllTyped(ms) then Some(ms) else None, None;
    }

    /** Queue the messages of a frame, as much of it as the buffer holds, and collect their Nr
        values for the sender. */
    method OnFrame(frame: seq<byte>) returns (receipt: Receipt)
      requires Valid()
      modifies `rxQueue
      ensures Valid()
      ensures (receipt, View()) == Receive(old(View()), Received(frame))
      ensures Keeps(config, old(View()), View())
    {
      hide Endpoints.RecvFrame, RecvError, Apart, Holds, Keeps, ControlMessage.GetType, Contains;
      Unchanged(config, View());
      var got, err := RecvFrame(Received(frame));
      if err.Some? && Contains(Mandatory(), err.value) {
        return ReceiverEnds;
      }
      if got.None? {
        return Panics;
      }
      var nrs := EnqueueAll(got.value);
      receipt := Passed(nrs);
      QueueKeeps(config, old(View()), View());
    }

    method EnqueueAll(ms: seq<ControlMessage>) returns (nrs: seq<NrInd>)
      requires Valid() && AllTyped(ms)
      modifies `rxQueue
      ensures Valid() && nrs == NrInds(ms) && View() == old(View()).(rxQueue := old(rxQueue) + ms)
    {
      hide Apart, Holds, ControlMessage.GetType;
      nrs := [];
      var i := 0;
      while i < |ms|
        invariant 0 <= i <= |ms| && Valid() && AllTyped(ms[..i])
        invariant nrs == NrInds(ms[..i])
        invariant View() == old(View()).(rxQueue := old(rxQueue) + ms[..i])
      {
        rxQueue := rxQueue + [ms[i]];
        nrs := nrs + [NrInd(ms[i].GetType().value, ms[i].nr)];
        assert ms[..i + 1] == ms[..i] + [ms[i]];
        i := i + 1;
      }
      assert ms[..i] == ms;
    }

    /** The loop runs over the whole queue but looks at its head each time, so it finds a
        message exactly when the head can be handled. */
    method DequeueRxMessage() returns (m: Option<ControlMessage>)
      modifies `rxQueue
      ensures m.Some? <==> HeadReady(old(View()))
      ensures m.Some? ==> m.value == old(rxQueue)[0] && View() == old(View()).(rxQueue := old(rxQueue)[1..])
      ensures m.None? ==> View() == old(View())
    {
      hide SeqCompare;
      var i := 0;
      while i < |rxQueue|
        invariant 0 <= i <= |rxQueue| && rxQueue == old(rxQueue)
        invariant i > 0 ==> !HeadReady(View())
      {
        var head := rxQueue[0];
        if SeqCompare(slowStart.nr, head.ns) == 0 || SeqCompare(head.ns, slowStart.nr) == -1 {
          rxQueue := rxQueue[..i] + rxQueue[i + 1..];
          return Some(head);
        }
        i := i + 1;
      }
      return None;
    }

    method ProcessRxQueue()
      requires Valid()
      modifies `rxQueue, `unr, `delivered, slowStart`nr
      ensures Valid()
      ensures View() == Endpoints.ProcessRxQueue(old(View()))
      ensures Keeps(config, old(View()), View())
    {
      hide HeadReady, PopRx, Valid, Keeps;
      RxKeeps(config, View());
      while true
        invariant Valid()
        invariant Endpoints.ProcessRxQueue(View()) == Endpoints.ProcessRxQueue(old(View()))
        decreases |rxQueue|
      {
        var more := HandleNext();
        if !more {
          return;
        }
      }
    }

    /** One turn of that loop: take a message and, if it is the next in sequence and not an
        acknowledgement, hand it up. */
    method HandleNext() returns (more: bool)
      requires Valid()
      modifies `rxQueue, `unr, `delivered, slowStart`nr
      ensures Valid() && more == HeadReady(old(View()))
      ensures if more then old(rxQueue) != [] && View() == PopRx(old(View())) && |rxQueue| < |old(rxQueue)| else View() == old(View())
    {
      hide Sound, HelloOk, ControlMessage.IsAck, SeqCompare, SeqIncrement;
      var m := DequeueRxMessage();
      more := m.Some?;
      if more && !m.value.IsAck() {
        if SeqCompare(slowStart.nr, m.value.ns) == 0 {
          slowStart.IncrementNr();
          unr := unr + 1;
          delivered := delivered + [m.value];
        }
      }
    }
  }

  // ---------------------------------------------------------------------------
  // Every arm keeps the invariant

  lemma {:induction false} Unchanged(cfg: Config, e: Endpoint)
    ensures Keeps(cfg, e, e)
  {
  }

  lemma {:induction false} SubmitKeeps(cfg: Config, e: Endpoint, m: ControlMessage, budget: nat)
    ensures Sendable(m) ==> Keeps(cfg, e, OnSubmit(cfg, e, m, budget))
  {
    hide Inv, Sendable, OnSubmit, Extends, SameRx;
    if e.alive && Inv(cfg, e) && Sendable(m) {
      SubmitInv(cfg, e, m, budget);
    }
  }

  lemma {:induction false} NrsKeep(cfg: Config, e: Endpoint, inds: seq<NrInd>, budget: nat)
    ensures Keeps(cfg, e, OnNrs(cfg, e, inds, budget))
  {
    hide Inv, OnNrs, Extends, SameRx;
    if e.alive && Inv(cfg, e) {
      NrsInv(cfg, e, inds, budget);
    }
  }

  lemma {:induction false} RetryKeeps(cfg: Config, e: Endpoint, j: int, writeOk: bool)
    ensures 0 <= j < |e.ackQueue| ==> Keeps(cfg, e, OnRetry(cfg, e, j, writeOk))
    ensures e.hello.Some? ==> Keeps(cfg, e, OnHelloRetry(cfg, e, writeOk))
  {
    hide Inv, OnRetry, OnHelloRetry, Extends, SameRx, Retransmitted, HelloResent;
    if e.alive && Inv(cfg, e) {
      if 0 <= j < |e.ackQueue| {
        RetryInv(cfg, e, j, writeOk);
      }
      if e.hello.Some? {
        HelloRetryInv(cfg, e, writeOk);
      }
    }
  }

  lemma {:induction false} HelloTimerKeeps(cfg: Config, e: Endpoint, peer: u32, writeOk: bool)
    ensures Keeps(cfg, e, OnHelloTimer(cfg, e, peer, writeOk))
  {
    hide Inv, OnHelloTimer, Extends, SameRx;
    if e.alive && Inv(cfg, e) {
      HelloTimerInv(cfg, e, peer, writeOk);
    }
  }

  lemma {:induction false} AckTimerKeeps(cfg: Config, e: Endpoint, peer: u32, writeOk: bool)
    ensures Keeps(cfg, e, OnAckTimer(cfg, e, peer, writeOk))
  {
    hide Inv, OnAckTimer, Extends, SameRx;
    if e.alive && Inv(cfg, e) {
      AckTimerInv(cfg, e, peer, writeOk);
    }
  }

  lemma {:induction false} DownKeeps(cfg: Config, e: Endpoint)
    ensures Keeps(cfg, e, Endpoints.Down(e))
  {
    hide Inv, Endpoints.Down, Extends, SameRx, Core, Queues;
    if e.alive && Inv(cfg, e) {
      InvCore(cfg, e);
      DownFromLive(cfg, e);
    }
  }

  lemma {:induction false} QueueKeeps(cfg: Config, e: Endpoint, e': Endpoint)
    requires e' == e.(rxQueue := e'.rxQueue)
    ensures Keeps(cfg, e, e')
  {
    hide Inv, Extends;
    if e.alive && Inv(cfg, e) {
      RxQueueInv(cfg, e, e');
    }
  }

  lemma {:induction false} RxKeeps(cfg: Config, e: Endpoint)
    ensures Keeps(cfg, e, ProcessRxQueue(e))
  {
    hide Inv, ProcessRxQueue, Extends;
    if e.alive && Inv(cfg, e) {
      ProcessRxInv(cfg, e);
    }
  }

  lemma {:induction false} OutsideQueues(txq: seq<XmitMsg>, ackq: seq<XmitMsg>, repr: set<XmitMsg>, hello: XmitMsg?, x: XmitMsg)
    requires Apart(txq, ackq, repr, hello) && x !in repr
    ensures Apart(txq, ackq, repr, x) && x !in txq && x !in ackq
  {
  }

  function Retried(cfg: Config, e: Endpoint, x: Xmit): (Xmit, Endpoint) {
    var (x', e') := Resend(cfg, e, x.(nretries := x.nretries + 1));
    (x', e'.(win := e.win.OnRetransmit()))
  }

  /** A message whose timer fires is in one place only. */
  lemma {:induction false} Elsewhere(txq: seq<XmitMsg>, ackq: seq<XmitMsg>, repr: set<XmitMsg>, hello: XmitMsg?, x: XmitMsg, j: int)
    requires Apart(txq, ackq, repr, hello) && (if j >= 0 then j < |ackq| && ackq[j] == x else x == hello)
    ensures x !in txq && (x in repr <==> j >= 0) && (j >= 0 ==> x.onComplete == SendComplete && x != hello)
    ensures forall i :: 0 <= i < |ackq| && i != j ==> ackq[i] != x
  {
  }

  /** Going down does not depend on the retry counts or sequence numbers of what it flushes. */
  lemma {:induction false} SameFlush(e: Endpoint, f: Endpoint, j: nat)
    requires j < |e.ackQueue| && j < |f.ackQueue| && f == e.(ackQueue := e.ackQueue[j := f.ackQueue[j]])
    requires e.ackQueue[j].isComplete && f.ackQueue[j].isComplete
    ensures Down(e) == Down(f)
  {
    var e1 := CompleteAll(e, e.txQueue);
    CompleteAllIgnoresAckQueue(e, e.txQueue, f.ackQueue);
    CompleteAllIgnoresAckQueue(e1, f.ackQueue, f.ackQueue);
    SameCompletions(e1, e.ackQueue, f.ackQueue, j);
  }

  lemma {:induction false} SameCompletions(e: Endpoint, xs: seq<Xmit>, ys: seq<Xmit>, j: nat)
    requires j < |xs| && j < |ys| && ys == xs[j := ys[j]] && xs[j].isComplete && ys[j].isComplete
    ensures CompleteAll(e, xs) == CompleteAll(e, ys)
    decreases |xs|
  {
    if j == 0 {
      assert xs[1..] == ys[1..];
    } else {
      assert ys[1..] == xs[1..][j - 1 := ys[1..][j - 1]];
      SameCompletions(Complete(e, xs[0], false), xs[1..], ys[1..], j - 1);
    }
  }

  lemma {:induction false} CompleteAllKeepsRest(e: Endpoint, xs: seq<Xmit>)
    ensures CompleteAll(e, xs) == e.(completed := CompleteAll(e, xs).completed, acked := CompleteAll(e, xs).acked)
    decreases |xs|
  {
    if xs != [] {
      CompleteAllKeepsRest(Complete(e, xs[0], false), xs[1..]);
    }
  }

  lemma {:induction false} CompleteAllIgnoresAckQueue(e: Endpoint, xs: seq<Xmit>, q: seq<Xmit>)
    ensures CompleteAll(e.(ackQueue := q), xs) == CompleteAll(e, xs).(ackQueue := q)
    decreases |xs|
  {
    if xs != [] {
      CompleteAllIgnoresAckQueue(Complete(e, xs[0], false), xs[1..], q);
    }
  }

  /** Neither loop takes a live endpoint down. */
  lemma {:induction false} AckAndTxKeepAlive(cfg: Config, e: Endpoint, nr: u16, budget: nat)
    ensures ProcessAckQueue(cfg, e, nr).alive == e.alive
    ensures ProcessTxQueue(cfg, ProcessAckQueue(cfg, e, nr), budget).e.alive == e.alive
  {
    AckKeepsAlive(cfg, e, nr);
    TxKeepsAlive(cfg, ProcessAckQueue(cfg, e, nr), budget);
  }

  lemma {:induction false} AckKeepsAlive(cfg: Config, e: Endpoint, nr: u16)
    ensures ProcessAckQueue(cfg, e, nr).alive == e.alive
    decreases |e.ackQueue|
  {
    hide Window.OnAck, SeqCompare;
    if HeadAcked(e, nr) {
      AckKeepsAlive(cfg, PopAcked(cfg, e), nr);
    }
  }

  lemma {:induction false} TxKeepsAlive(cfg: Config, e: Endpoint, budget: nat)
    ensures ProcessTxQueue(cfg, e, budget).e.alive == e.alive
    decreases |e.txQueue|
  {
    hide ScaleRetryTimeout, ControlMessage.GetType, ControlMessage.SetTransportSeqNum, SeqIncrement;
    if e.txQueue != [] && e.win.CanSend() && budget > 0 {
      TxKeepsAlive(cfg, SendHead(cfg, e), budget - 1);
    }
  }

  lemma {:induction false} NothingAcked(cfg: Config, e: Endpoint, nr: u16)
    requires !HeadAcked(e, nr)
    ensures ProcessAckQueue(cfg, e, nr) == e
  {
  }
}
