/** The transmit window: slow start and congestion avoidance (Appendix A of RFC 2661). */
module SlowStart {
  import opened Wire

  function Inc(x: u16): u16 {
    (x + 1) % 0x1_0000
  }

  datatype Window = Window(cwnd: u16, thresh: u16, nacks: u16, ntx: u16) {

    predicate CanSend() {
      ntx < cwnd
    }

    function OnSend(): Window {
      this.(ntx := Inc(ntx))
    }

    /** The congestion state's share of an acknowledgement. */
    function Grow(maxTxWindow: u16): Window {
      if cwnd >= maxTxWindow then this
      else if cwnd < thresh then this.(cwnd := Inc(cwnd))
      else if Inc(nacks) >= cwnd then this.(nacks := 0, cwnd := Inc(cwnd))
      else this.(nacks := Inc(nacks))
    }

    function OnAck(maxTxWindow: u16): Window {
      if ntx > 0 then Grow(maxTxWindow).(ntx := ntx - 1) else this
    }

    function OnRetransmit(): Window {
      this.(thresh := cwnd / 2, cwnd := 1)
    }

    /** What every reachable window satisfies.  In particular no counter is about to wrap. */
    predicate Bounded(maxTxWindow: u16) {
      && 1 <= cwnd <= maxTxWindow
      && thresh <= maxTxWindow
      && nacks < maxTxWindow
      && ntx <= maxTxWindow
    }
  }

  function Initial(maxTxWindow: u16): Window {
    Window(1, maxTxWindow, 0, 0)
  }

  // ---------------------------------------------------------------------------
  // Runs

  datatype Op = Send | Ack | Retransmit

  function Step(s: Window, op: Op, w: u16): Window {
    match op
    case Send => if s.CanSend() then s.OnSend() else s
    case Ack => s.OnAck(w)
    case Retransmit => s.OnRetransmit()
  }

  function Run(s: Window, ops: seq<Op>, w: u16): Window
    decreases |ops|
  {
    if ops == [] then s else Run(Step(s, ops[0], w), ops[1..], w)
  }

  lemma {:induction false} StepBounded(s: Window, op: Op, w: u16)
    requires s.Bounded(w)
    ensures Step(s, op, w).Bounded(w)
    // no uint16 wraps around on the way
    ensures s.CanSend() ==> Inc(s.ntx) == s.ntx + 1
    ensures s.cwnd < w ==> Inc(s.cwnd) == s.cwnd + 1 && Inc(s.nacks) == s.nacks + 1
  {
  }

  /** Over any interleaving of sends, acknowledgements and retransmissions the window
      stays within the configured size. */
  lemma {:induction false} WindowBounded(ops: seq<Op>, s: Window, w: u16)
    requires s.Bounded(w)
    ensures Run(s, ops, w).Bounded(w)
    decreases |ops|
  {
    if ops != [] {
      StepBounded(s, ops[0], w);
      WindowBounded(ops[1..], Step(s, ops[0], w), w);
    }
  }

  // ---------------------------------------------------------------------------
  // The growth law

  function GrowN(s: Window, n: nat, w: u16): Window
    decreases n
  {
    if n == 0 then s else GrowN(s.Grow(w), n - 1, w)
  }

  /** A run without retransmissions in which every acknowledgement finds something
      outstanding. */
  predicate Loaded(s: Window, ops: seq<Op>, w: u16)
    decreases |ops|
  {
    ops == [] ||
    (ops[0] != Retransmit && (ops[0] == Ack ==> s.ntx > 0) && Loaded(Step(s, ops[0], w), ops[1..], w))
  }

  function Acks(ops: seq<Op>): nat {
    if ops == [] then 0 else (if ops[0] == Ack then 1 else 0) + Acks(ops[1..])
  }

  /** Equal but for the number of messages outstanding. */
  predicate SameCongestion(s: Window, t: Window) {
    s.(ntx := 0) == t.(ntx := 0)
  }

  lemma {:induction false} GrowSame(s: Window, t: Window, n: nat, w: u16)
    requires SameCongestion(s, t)
    ensures SameCongestion(GrowN(s, n, w), GrowN(t, n, w))
    decreases n
  {
    if n > 0 {
      GrowSame(s.Grow(w), t.Grow(w), n - 1, w);
    }
  }

  /** However sends are interleaved, the congestion state depends only on the number of
      acknowledgements. */
  lemma {:induction false} OnlyAcksGrow(s: Window, ops: seq<Op>, w: u16)
    requires Loaded(s, ops, w)
    ensures SameCongestion(Run(s, ops, w), GrowN(s, Acks(ops), w))
    decreases |ops|
  {
    if ops != [] {
      var s' := Step(s, ops[0], w);
      OnlyAcksGrow(s', ops[1..], w);
      if ops[0] == Ack {
        GrowSame(s', s.Grow(w), Acks(ops[1..]), w);
      } else {
        GrowSame(s', s, Acks(ops[1..]), w);
      }
    }
  }

  lemma {:induction false} GrowAdd(s: Window, m: nat, n: nat, w: u16)
    ensures GrowN(s, m + n, w) == GrowN(GrowN(s, m, w), n, w)
    decreases m
  {
    if m > 0 {
      GrowAdd(s.Grow(w), m - 1, n, w);
    }
  }

  /** Below the threshold each acknowledgement opens the window by one. */
  lemma {:induction false} SlowStartGrowth(s: Window, n: nat, w: u16)
    requires s.cwnd + n <= s.thresh && s.cwnd + n <= w
    ensures GrowN(s, n, w) == s.(cwnd := s.cwnd + n)
    decreases n
  {
    if n > 0 {
      SlowStartGrowth(s.Grow(w), n - 1, w);
    }
  }

  /** In congestion avoidance a window of cwnd takes cwnd acknowledgements to open by one. */
  lemma {:induction false} AvoidanceRound(s: Window, n: nat, w: u16)
    requires 1 <= s.cwnd < w && s.thresh <= s.cwnd && s.nacks + n <= s.cwnd && s.nacks < s.cwnd
    ensures GrowN(s, n, w) == if s.nacks + n < s.cwnd then s.(nacks := s.nacks + n) else s.(nacks := 0, cwnd := s.cwnd + 1)
    decreases n
  {
    if n > 0 && s.nacks + 1 < s.cwnd {
      AvoidanceRound(s.Grow(w), n - 1, w);
    }
  }

  /** The number of acknowledgements congestion avoidance needs to go from a to b:
      the sum a + (a+1) + ... + (b-1). */
  function AcksNeeded(a: nat, b: nat): nat
    requires a <= b
  {
    if a == b then 0 else AcksNeeded(a, b - 1) + (b - 1)
  }

  lemma {:induction false} AcksNeededClosed(a: nat, b: nat)
    requires 1 <= a <= b
    ensures 2 * AcksNeeded(a, b) == b * (b - 1) - a * (a - 1)
  {
    if a < b {
      AcksNeededClosed(a, b - 1);
      assert b * (b - 1) == (b - 1) * (b - 2) + 2 * (b - 1);
    }
  }

  /** Congestion avoidance from a fresh window of a reaches b after exactly
      (b(b-1) - a(a-1)) / 2 acknowledgements, and not before. */
  lemma {:induction false} AvoidanceGrowth(s: Window, b: u16, n: nat, w: u16)
    requires 1 <= s.cwnd <= b <= w && s.thresh <= s.cwnd && s.nacks == 0
    requires n <= AcksNeeded(s.cwnd, b)
    ensures n == AcksNeeded(s.cwnd, b) ==> GrowN(s, n, w) == s.(cwnd := b)
    ensures n < AcksNeeded(s.cwnd, b) ==> GrowN(s, n, w).cwnd < b
    decreases b
  {
    if s.cwnd < b {
      var before := AcksNeeded(s.cwnd, b - 1);
      if n <= before {
        AvoidanceGrowth(s, b - 1, n, w);
        if n == before {
          assert GrowN(s, n, w).cwnd == b - 1;
        }
      } else {
        AvoidanceGrowth(s, b - 1, before, w);
        GrowAdd(s, before, n - before, w);
        AvoidanceRound(s.(cwnd := b - 1), n - before, w);
      }
    }
  }

  /** The law for runs: in a loaded run from a fresh window of a at or above its
      threshold, the window has reached b exactly when (b(b-1) - a(a-1)) / 2
      acknowledgements have arrived. */
  lemma {:induction false} AvoidanceLaw(s: Window, ops: seq<Op>, b: u16, w: u16)
    requires 1 <= s.cwnd <= b <= w && s.thresh <= s.cwnd && s.nacks == 0
    requires Loaded(s, ops, w) && 2 * Acks(ops) <= b * (b - 1) - s.cwnd * (s.cwnd - 1)
    ensures Run(s, ops, w).cwnd == b <==> 2 * Acks(ops) == b * (b - 1) - s.cwnd * (s.cwnd - 1)
  {
    AcksNeededClosed(s.cwnd, b);
    OnlyAcksGrow(s, ops, w);
    AvoidanceGrowth(s, b, Acks(ops), w);
  }

  /** Slow start in runs: the window grows by the number of acknowledgements. */
  lemma {:induction false} SlowStartLaw(s: Window, ops: seq<Op>, w: u16)
    requires Loaded(s, ops, w) && s.cwnd + Acks(ops) <= s.thresh && s.cwnd + Acks(ops) <= w
    ensures Run(s, ops, w).cwnd == s.cwnd + Acks(ops)
  {
    OnlyAcksGrow(s, ops, w);
    SlowStartGrowth(s, Acks(ops), w);
  }

  /** A retransmission closes the window to one message and halves the threshold, so slow
      start brings back half of what was lost: cwnd/2 - 1 acknowledgements later the window
      stands at half its old size. */
  lemma {:induction false} Recovery(s: Window, ops: seq<Op>, w: u16)
    requires s.Bounded(w) && Loaded(s.OnRetransmit(), ops, w)
    requires s.cwnd >= 2 && Acks(ops) == s.cwnd / 2 - 1
    ensures Run(s, [Retransmit] + ops, w).cwnd == s.cwnd / 2 == Run(s, [Retransmit] + ops, w).thresh
  {
    assert ([Retransmit] + ops)[1..] == ops;
    SlowStartLaw(s.OnRetransmit(), ops, w);
    OnlyAcksGrow(s.OnRetransmit(), ops, w);
    SlowStartGrowth(s.OnRetransmit(), Acks(ops), w);
  }
}
