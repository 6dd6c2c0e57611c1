/** What each arm of the transport writes, completes and leaves behind, field by field. */
module TransportAnswers {
  import opened Wire
  import opened Avps
  import opened Payloads
  import opened Messages
  import opened SequenceNumbers
  import opened RetryTimeouts
  import opened Endpoints
  import opened SenderArms

  // ---------------------------------------------------------------------------
  // The transport's own messages

  /** A message of the transport's own of this type: addressed to the peer's tunnel ID and
      session 0, or to its control connection ID; the length is the number of bytes. */
  predicate OwnMessageTo(m: ControlMessage, version: Version, peer: u32, msgType: u16) {
    && m.GetType() == Ok(msgType) && m.len == |m.ToBytes()|
    && (version == Version2 ==> m.V2? && m.flagsVer == 0xc802 && m.tid == peer && m.sid == 0)
    && (version == Version3 ==> m.V3? && m.flagsVer == 0xc803 && m.ccid == peer)
    && |m.avps| <= 1
    && (m.avps == [] ==> m.V2? && msgType == 20 && |m.ToBytes()| == 12)
    && (m.avps != [] ==> |m.ToBytes()| == 20 && m.avps[0].header == AvpHeader(0x8008, 0, 0))
  }

  /** A v2 message goes only to an ID of sixteen bits. */
  predicate Reachable(version: Version, peer: u32) {
    version == Version3 || peer <= 0xffff
  }

  lemma {:induction false} HelloIs(cfg: Config, peer: u32, ns: u16, nr: u16)
    ensures NewHello(cfg, peer).Ok? <==> Reachable(cfg.version, peer)
    ensures NewHello(cfg, peer).Ok? ==>
              OwnMessageTo(NewHello(cfg, peer).value.SetTransportSeqNum(ns, nr), cfg.version, peer, 6)
              && |NewHello(cfg, peer).value.avps| == 1
  {
    WithTypeIs(cfg, peer, 6, ns, nr);
  }

  lemma {:induction false} AckIs(cfg: Config, peer: u32, ns: u16, nr: u16)
    ensures NewAck(cfg, peer).Ok? <==> Reachable(cfg.version, peer)
    ensures NewAck(cfg, peer).Ok? ==>
              OwnMessageTo(NewAck(cfg, peer).value.SetTransportSeqNum(ns, nr), cfg.version, peer, 20)
              && (NewAck(cfg, peer).value.avps == [] <==> cfg.version == Version2)
  {
    if cfg.version == Version3 {
      WithTypeIs(cfg, peer, 20, ns, nr);
    }
  }

  lemma {:induction false} WithTypeIs(cfg: Config, peer: u32, msgType: u16, ns: u16, nr: u16)
    ensures var a := NewAvp(VENDOR_IETF, AVP_MESSAGE, VMsgType(msgType));
            && a.Ok?
            && var r := NewTransportMessage(cfg, peer, [a.value]);
               && (r.Ok? <==> Reachable(cfg.version, peer))
               && (r.Ok? ==> r.value.avps == [a.value] && OwnMessageTo(r.value.SetTransportSeqNum(ns, nr), cfg.version, peer, msgType))
  {
    OwnMessage(cfg, peer, msgType);
    var a := NewAvp(VENDOR_IETF, AVP_MESSAGE, VMsgType(msgType)).value;
    TypeAvpIs(msgType);
    hide NewAvp, WellFormed, AvpHeader.TotalLen;
    assert AvpsBytes([a]) == AvpBytes(a) + AvpsBytes([]);
  }

  lemma {:induction false} TypeAvpIs(msgType: u16)
    ensures var a := NewAvp(VENDOR_IETF, AVP_MESSAGE, VMsgType(msgType));
            a.Ok? && a.value.header == AvpHeader(0x8008, 0, 0) && |a.value.data| == 2 && a.value.header.TotalLen() == 8
  {
  }

  /** The HELLO timer was noticed.  With a HELLO already out nothing happens.  Otherwise one is written
      under the next Ns and the current Nr and kept for retrying, in no queue; or the transport goes
      down, if the ID or the write is no good. */
  lemma {:induction false} HelloTimerWrites(cfg: Config, e: Endpoint, peer: u32, writeOk: bool)
    requires e.alive
    ensures var e' := OnHelloTimer(cfg, e, peer, writeOk);
            && (e.hello.Some? ==> e' == e.(helloTimer := Timer(e.helloTimer.armed, false)))
            && (e.hello.None? ==> (e'.alive <==> writeOk && Reachable(cfg.version, peer)))
            && (e.hello.None? && e'.alive ==>
                  && |e'.wire| == |e.wire| + 1
                  && var p := e'.wire[|e.wire|];
                     && OwnMessageTo(p.msg, cfg.version, peer, 6) && p.msg.ns == e.ns && p.msg.nr == e.nr
                     && p.k == e.uns && p.r == e.unr && p.wait == ScaleRetryTimeout(cfg.retryTimeout, 0)
                     && e' == e.(wire := e.wire + [p], ns := SeqIncrement(e.ns), uns := e.uns + 1,
                                 hello := Some(Xmit(p.msg, 0, false, 0, e.uns)), ackTimer := Timer(false, e.ackTimer.fired),
                                 helloTimer := Timer(e.helloTimer.armed || cfg.helloTimeout > 0, false)))
  {
    hide NewHello, ScaleRetryTimeout, SeqIncrement, CompleteAll, ControlMessage.ToBytes;
    HelloIs(cfg, peer, e.ns, e.nr);
    if NewHello(cfg, peer).Ok? {
      NotAnAck(NewHello(cfg, peer).value, cfg.version, peer, e.ns, e.nr);
    }
  }

  lemma {:induction false} NotAnAck(m: ControlMessage, version: Version, peer: u32, ns: u16, nr: u16)
    requires OwnMessageTo(m.SetTransportSeqNum(ns, nr), version, peer, 6)
    ensures !m.SetTransportSeqNum(ns, nr).IsAck()
  {
  }

  /** The acknowledgement timer was noticed: an acknowledgement is written under the current Ns
      and Nr, and no number used; or the transport goes down. */
  lemma {:induction false} AckTimerWrites(cfg: Config, e: Endpoint, peer: u32, writeOk: bool)
    requires e.alive
    ensures var e' := OnAckTimer(cfg, e, peer, writeOk);
            && (e'.alive <==> writeOk && Reachable(cfg.version, peer))
            && (e'.alive ==>
                  && |e'.wire| == |e.wire| + 1
                  && var p := e'.wire[|e.wire|];
                     && OwnMessageTo(p.msg, cfg.version, peer, 20) && (cfg.version == Version2 ==> |p.msg.ToBytes()| == 12)
                     && p.msg.ns == e.ns && p.msg.nr == e.nr && p.k == e.uns && p.r == e.unr && p.wait == 0
                     && e' == e.(wire := e.wire + [p], ackTimer := Timer(e.ackTimer.armed, false)))
  {
    hide NewAck, CompleteAll;
    AckIs(cfg, peer, e.ns, e.nr);
  }

  // ---------------------------------------------------------------------------
  // Sending and going down

  /** The messages that have not been reported yet, failed one after another. */
  function Failures(xs: seq<Xmit>): seq<Done> {
    if xs == [] then [] else (if xs[0].isComplete then [] else [Done(xs[0].id, false)]) + Failures(xs[1..])
  }

  lemma {:induction false} CompleteAllIs(e: Endpoint, xs: seq<Xmit>)
    ensures CompleteAll(e, xs) == e.(completed := e.completed + Failures(xs))
    decreases |xs|
  {
    if xs == [] {
      assert e.completed + [] == e.completed;
    } else {
      var e1 := Complete(e, xs[0], false);
      CompleteAllIs(e1, xs[1..]);
      var one := if xs[0].isComplete then [] else [Done(xs[0].id, false)];
      assert e1.completed == e.completed + one;
      assert (e.completed + one) + Failures(xs[1..]) == e.completed + (one + Failures(xs[1..]));
    }
  }

  /** Going down fails every message not yet reported, those not yet sent first, each queue in
      order; it stops both timers and changes nothing else. */
  lemma {:induction false} DownIs(e: Endpoint)
    ensures Down(e) == e.(completed := e.completed + Failures(e.txQueue) + Failures(e.ackQueue), txQueue := [], ackQueue := [],
                          ackTimer := Timer(false, e.ackTimer.fired), helloTimer := Timer(false, e.helloTimer.fired), alive := false)
  {
    CompleteAllIs(e, e.txQueue);
    CompleteAllIs(CompleteAll(e, e.txQueue), e.ackQueue);
    hide CompleteAll, Failures;
  }

  /** A message submitted behind a closed window waits at the end of the queue. */
  lemma {:induction false} SubmitWaits(cfg: Config, e: Endpoint, m: ControlMessage, budget: nat)
    requires e.win.ntx >= e.win.cwnd
    ensures OnSubmit(cfg, e, m, budget) ==
            e.(submitted := e.submitted + [m], txQueue := e.txQueue + [Xmit(m, 0, false, |e.submitted|, 0)])
  {
  }

  /** The retry timer of an outstanding message.  A completed message is left alone.  Below the
      limit it is written again, the same but for the current Nr, its next timer armed, and the
      window falls to one; at the limit, or if the write fails, the transport goes down. */
  lemma {:induction false} RetryWrites(cfg: Config, e: Endpoint, j: nat, writeOk: bool)
    requires e.alive && j < |e.ackQueue|
    ensures var x, e' := e.ackQueue[j], OnRetry(cfg, e, j, writeOk);
            && (x.isComplete ==> e' == e)
            && (!x.isComplete ==> (e'.alive <==> writeOk && x.nretries + 1 < cfg.maxRetries))
            && (!x.isComplete && e'.alive ==>
                  var m := x.msg.SetTransportSeqNum(x.msg.ns, e.nr);
                  e' == e.(wire := e.wire + [Packet(m, x.seqNo, e.unr, ScaleRetryTimeout(cfg.retryTimeout, x.nretries + 1))],
                           ackQueue := e.ackQueue[j := x.(msg := m, nretries := x.nretries + 1)],
                           win := e.win.(thresh := e.win.cwnd / 2, cwnd := 1),
                           ackTimer := Timer(false, e.ackTimer.fired),
                           helloTimer := Timer(e.helloTimer.armed || cfg.helloTimeout > 0, e.helloTimer.fired)))
  {
    hide ScaleRetryTimeout, CompleteAll;
  }

  /** The same for the HELLO's timer. */
  lemma {:induction false} HelloRetryWrites(cfg: Config, e: Endpoint, writeOk: bool)
    requires e.alive && e.hello.Some?
    ensures var x, e' := e.hello.value, OnHelloRetry(cfg, e, writeOk);
            && (e'.alive <==> writeOk && x.nretries + 1 < cfg.maxRetries)
            && (e'.alive ==>
                  var m := x.msg.SetTransportSeqNum(x.msg.ns, e.nr);
                  e' == e.(wire := e.wire + [Packet(m, x.seqNo, e.unr, ScaleRetryTimeout(cfg.retryTimeout, x.nretries + 1))],
                           hello := Some(x.(msg := m, nretries := x.nretries + 1)),
                           win := e.win.(thresh := e.win.cwnd / 2, cwnd := 1),
                           ackTimer := Timer(false, e.ackTimer.fired),
                           helloTimer := Timer(e.helloTimer.armed || cfg.helloTimeout > 0, e.helloTimer.fired)))
  {
    hide ScaleRetryTimeout, CompleteAll;
  }

  /** What a sent message leaves: nothing to acknowledge separately, and the keepalive put off. */
  lemma {:induction false} SendTimers(cfg: Config, e: Endpoint, x: Xmit)
    ensures var e' := FirstSend(cfg, e, x).1;
            e'.ackTimer == Timer(false, e.ackTimer.fired)
            && e'.helloTimer == Timer(e.helloTimer.armed || cfg.helloTimeout > 0, e.helloTimer.fired)
  {
    hide ScaleRetryTimeout, ControlMessage.GetType;
  }

  /** Numbers that arrive and acknowledge nothing outstanding set the acknowledgement timer iff
      some message with them is not itself an acknowledgement (type 20), and put off the keepalive. */
  lemma {:induction false} NrsSetTimers(cfg: Config, e: Endpoint, inds: seq<NrInd>, budget: nat)
    requires e.alive && e.ackQueue == []
    ensures OnNrs(cfg, e, inds, budget) ==
            e.(ackTimer := Timer(e.ackTimer.armed || exists i :: 0 <= i < |inds| && inds[i].msgType != 20, e.ackTimer.fired),
               helloTimer := Timer(e.helloTimer.armed || cfg.helloTimeout > 0, e.helloTimer.fired))
  {
    NothingToAck(cfg, e, inds, budget);
  }

  /** The queue after the numbers of a frame have been used one after another. */
  function AfterEach(cfg: Config, e: Endpoint, inds: seq<NrInd>): Endpoint
    decreases |inds|
  {
    if inds == [] then e else AfterEach(cfg, ProcessAckQueue(cfg, e, inds[0].nr), inds[1..])
  }

  /** With nothing waiting to be sent, all the numbers of a frame are used, in order. */
  lemma {:induction false} NrsInTurn(cfg: Config, e: Endpoint, inds: seq<NrInd>, budget: nat)
    requires e.txQueue == []
    ensures OnEachNr(cfg, e, inds, budget) == AfterEach(cfg, e, inds)
    decreases |inds|
  {
    hide HeadAcked, PopAcked;
    if inds != [] {
      var e1 := ProcessAckQueue(cfg, e, inds[0].nr);
      AckKeepsTx(cfg, e, inds[0].nr);
      NrsInTurn(cfg, e1, inds[1..], budget);
    }
  }

  lemma {:induction false} AckKeepsTx(cfg: Config, e: Endpoint, nr: u16)
    ensures ProcessAckQueue(cfg, e, nr).txQueue == e.txQueue
    decreases |e.ackQueue|
  {
    if HeadAcked(e, nr) {
      AckKeepsTx(cfg, PopAcked(cfg, e), nr);
    }
  }

  lemma {:induction false} NothingToAck(cfg: Config, e: Endpoint, inds: seq<NrInd>, budget: nat)
    requires e.ackQueue == []
    ensures OnEachNr(cfg, e, inds, budget) == e
    decreases |inds|
  {
    if inds != [] {
      NothingToAck(cfg, e, inds[1..], budget);
    }
  }

  // ---------------------------------------------------------------------------
  // The receiver

  /** How far a is ahead of b on the wire. */
  function Ahead(a: u16, b: int): nat {
    (a - b) % 0x1_0000
  }

  /** A frame that parses, with every type readable, is dropped iff some Nr in it is one to
      0x7fff ahead of the Ns after ours; otherwise all of it is taken. */
  lemma {:induction false} RecvDropsIff(e: Endpoint, frame: seq<byte>, ms: seq<ControlMessage>)
    requires ParseMessages(frame) == Ok(ms) && AllTyped(ms)
    ensures RecvFrame(e, frame) == Some(if exists i :: 0 <= i < |ms| && 1 <= Ahead(ms[i].nr, e.ns + 1) <= 0x7fff then [] else ms)
  {
    hide ParseMessages, ControlMessage.GetType, Beyond, SeqCompare, SeqIncrement;
    FirstBeyondIs(e, ms);
    forall i | 0 <= i < |ms|
      ensures Beyond(e, ms[i]) <==> 1 <= Ahead(ms[i].nr, e.ns + 1) <= 0x7fff
    {
      BeyondIff(e, ms[i]);
    }
  }

  lemma {:induction false} BeyondIff(e: Endpoint, m: ControlMessage)
    ensures Beyond(e, m) <==> 1 <= Ahead(m.nr, e.ns + 1) <= 0x7fff
  {
  }

  lemma {:induction false} FirstBeyondIs(e: Endpoint, ms: seq<ControlMessage>)
    ensures var i := FirstBeyond(e, ms);
            && (i < |ms| ==> Beyond(e, ms[i]))
            && forall k :: 0 <= k < i ==> !Beyond(e, ms[k])
    decreases |ms|
  {
    hide Beyond;
    if ms != [] && !Beyond(e, ms[0]) {
      FirstBeyondIs(e, ms[1..]);
      assert forall k :: 0 < k < |ms| ==> ms[k] == ms[1..][k - 1];
    }
  }

  /** The receiver panics where the parser does, and where it has to read a type that cannot be
      read: that of the first message whose Nr is beyond, if there is one, else any. */
  lemma {:induction false} RecvPanicsIff(e: Endpoint, frame: seq<byte>)
    ensures RecvFrame(e, frame).None? <==>
            match ParseMessages(frame)
            case Err(error) => error == RuntimePanic
            case Ok(ms) =>
              exists i :: 0 <= i < |ms| && ms[i].GetType().Err? && OnlyOneBeyond(e, ms, i)
  {
    hide ParseMessages, ControlMessage.GetType, Beyond, SeqCompare, SeqIncrement, Ahead;
    if ParseMessages(frame).Ok? {
      var ms := ParseMessages(frame).value;
      FirstBeyondIs(e, ms);
      forall i | 0 <= i < |ms|
        ensures Beyond(e, ms[i]) <==> 1 <= Ahead(ms[i].nr, e.ns + 1) <= 0x7fff
      {
        BeyondIff(e, ms[i]);
      }
      var k := FirstBeyond(e, ms);
      if k < |ms| && ms[k].GetType().Err? {
        assert OnlyOneBeyond(e, ms, k);
      } else if k == |ms| && !AllTyped(ms) {
        var i :| 0 <= i < |ms| && ms[i].GetType().Err?;
        assert OnlyOneBeyond(e, ms, i);
      }
    }
  }

  /** Message i is the first whose Nr is beyond, or none is. */
  predicate OnlyOneBeyond(e: Endpoint, ms: seq<ControlMessage>, i: nat)
    requires i < |ms|
  {
    || (1 <= Ahead(ms[i].nr, e.ns + 1) <= 0x7fff && forall j :: 0 <= j < i ==> !(1 <= Ahead(ms[j].nr, e.ns + 1) <= 0x7fff))
    || (forall j :: 0 <= j < |ms| ==> !(1 <= Ahead(ms[j].nr, e.ns + 1) <= 0x7fff))
  }

  /** A single queued message, by how far its Ns is ahead of our Nr: the next one is accepted,
      unless it is an acknowledgement, which is dropped; one behind is dropped; one ahead stays. */
  lemma {:induction false} RxTakes(e: Endpoint, m: ControlMessage)
    requires e.rxQueue == [m]
    ensures var d, e' := Ahead(m.ns, e.nr), ProcessRxQueue(e);
            && (d == 0 && m.GetType() != Ok(20) ==>
                  e' == e.(rxQueue := [], nr := SeqIncrement(e.nr), unr := e.unr + 1, delivered := e.delivered + [m]))
            && (d == 0 && m.GetType() == Ok(20) ==> e' == e.(rxQueue := []))
            && (d >= 0x8000 ==> e' == e.(rxQueue := []))
            && (1 <= d < 0x8000 ==> e' == e)
  {
    hide ControlMessage.GetType, SeqIncrement;
    if HeadReady(e) {
      assert PopRx(e).rxQueue == [];
      assert ProcessRxQueue(e) == ProcessRxQueue(PopRx(e)) == PopRx(e);
    }
  }

  /** An Nr acknowledges the oldest outstanding message iff it is one to 0x7fff ahead of its Ns. */
  lemma {:induction false} HeadAckedIff(e: Endpoint, nr: u16)
    requires e.ackQueue != []
    ensures HeadAcked(e, nr) <==> 1 <= Ahead(nr, e.ackQueue[0].msg.ns) <= 0x7fff
  {
  }
}
