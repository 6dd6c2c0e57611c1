/** Control messages: printing, parsing and the exact domain of their round trip
    (section 3.1 of RFC 2661, section 3.2.1 of RFC 3931). */
module Messages {
  import opened Wire
  import opened Avps
  import opened Payloads

  const MESSAGE_MIN_LEN := 12
  const COMMON_HEADER_LEN := 4
  const HEADER_LEN := 12
  const AVP_MESSAGE: u16 := 0
  const MSG_ACK: u16 := 20

  datatype ControlMessage =
    | V2(flagsVer: u16, len: u16, tid: u16, sid: u16, ns: u16, nr: u16, avps: seq<Avp>)
    | V3(flagsVer: u16, len: u16, ccid: u32, ns: u16, nr: u16, avps: seq<Avp>)
  {
    function SetTransportSeqNum(ns': u16, nr': u16): ControlMessage {
      this.(ns := ns', nr := nr')
    }

    /** The message with its transport-owned fields blanked: what the user submitted. */
    function Body(): ControlMessage {
      SetTransportSeqNum(0, 0)
    }

    /** The value of the Message Type AVP.  A v2 message without AVPs is an
        acknowledgement; anything else without a readable type panics. */
    function GetType(): Result<u16> {
      if V2? && avps == [] then Ok(MSG_ACK)
      else if avps == [] || avps[0].header.avpType != AVP_MESSAGE || DecodeMsgType(avps[0]).Err? then Err(RuntimePanic)
      else DecodeMsgType(avps[0])
    }

    predicate IsAck() {
      GetType() == Ok(MSG_ACK)
    }

    function IdBytes(): (b: seq<byte>)
      ensures |b| == 4
    {
      match this
      case V2(_, _, tid, sid, _, _, _) => PutU16(tid) + PutU16(sid)
      case V3(_, _, ccid, _, _, _) => PutU32(ccid)
    }

    function HeaderBytes(): (b: seq<byte>)
      ensures |b| == HEADER_LEN
    {
      PutU16(flagsVer) + PutU16(len) + IdBytes() + PutU16(ns) + PutU16(nr)
    }

    function ToBytes(): (b: seq<byte>)
      ensures |b| == HEADER_LEN + |AvpsBytes(avps)|
    {
      HeaderBytes() + AvpsBytes(avps)
    }

    /** The messages that survive a trip over the wire. */
    predicate WellFormed() {
      && flagsVer % 16 == (if V2? then 2 else 3)
      && len == HEADER_LEN + |AvpsBytes(avps)|
      && AllWellFormed(avps)
      && (V3? ==> avps != [])
      && (avps != [] ==> avps[0].header.avpType == AVP_MESSAGE)
    }
  }

  // ---------------------------------------------------------------------------
  // Parsing

  /** The AVPs a header of this version and length announces. */
  function ParseBody(b: seq<byte>, isV2: bool, len: u16): Result<seq<Avp>> {
    if |b| < HEADER_LEN then Err(ShortRead)
    else if isV2 && len <= HEADER_LEN then Ok([])
    else if !(HEADER_LEN <= len <= |b|) then Err(RuntimePanic)
    else
      var avps :- ParseAvps(b[HEADER_LEN..len]);
      if avps[0].header.avpType != AVP_MESSAGE then Err(NotMessageType) else Ok(avps)
  }

  function BytesToV2(b: seq<byte>): Result<ControlMessage> {
    if |b| < HEADER_LEN then Err(ShortRead)
    else
      var avps :- ParseBody(b, true, GetU16(b[2..]));
      Ok(V2(GetU16(b), GetU16(b[2..]), GetU16(b[4..]), GetU16(b[6..]), GetU16(b[8..]), GetU16(b[10..]), avps))
  }

  function BytesToV3(b: seq<byte>): Result<ControlMessage> {
    if |b| < HEADER_LEN then Err(ShortRead)
    else
      var avps :- ParseBody(b, false, GetU16(b[2..]));
      Ok(V3(GetU16(b), GetU16(b[2..]), GetU32(b[4..]), GetU16(b[8..]), GetU16(b[10..]), avps))
  }

  /** One turn of the message loop.  The length check subtracts in sixteen bits. */
  function ParseFront(b: seq<byte>): (r: Result<ControlMessage>)
    requires |b| >= MESSAGE_MIN_LEN
    ensures r.Ok? ==> r.value.len == GetU16(b[2..])
  {
    var flagsVer, len: u16 := GetU16(b), GetU16(b[2..]);
    if (len - COMMON_HEADER_LEN) % 0x1_0000 > |b| - COMMON_HEADER_LEN then Err(MessageExceedsBuffer)
    else
      assert len >= 4 ==> b[..len][2..][..2] == b[2..][..2];
      match flagsVer % 16
      case 2 => BytesToV2(b[..len])
      case 3 => BytesToV3(b[..len])
      case _ => Err(BadVersion)
  }

  /** The step to the next message counts the length again from after the four bytes
      already read. */
  function AfterMessage(b: seq<byte>, len: u16): seq<byte> {
    if COMMON_HEADER_LEN + len < |b| then b[COMMON_HEADER_LEN + len..] else []
  }

  function ParseMessages(b: seq<byte>): Result<seq<ControlMessage>>
    decreases |b|
  {
    if |b| < MESSAGE_MIN_LEN then Ok([])
    else
      var m :- ParseFront(b);
      var ms :- ParseMessages(AfterMessage(b, m.len));
      Ok([m] + ms)
  }

  function Onto(ms: seq<ControlMessage>, r: Result<seq<ControlMessage>>): Result<seq<ControlMessage>> {
    match r
    case Ok(tail) => Ok(ms + tail)
    case Err(_) => r
  }

  /** The source's loop over a reader. */
  method ParseMessageBuffer(b: seq<byte>) returns (r: Result<seq<ControlMessage>>)
    ensures r == ParseMessages(b)
  {
    hide ParseFront;
    var cursor := 0;
    var messages: seq<ControlMessage> := [];
    assert b[cursor..] == b;
    OntoNil(ParseMessages(b));
    while |b| - cursor >= MESSAGE_MIN_LEN
      invariant 0 <= cursor <= |b|
      invariant ParseMessages(b) == Onto(messages, ParseMessages(b[cursor..]))
    {
      var front := ParseFront(b[cursor..]);
      if front.Err? {
        return Err(front.error);
      }
      var m := front.value;
      var next := if cursor + COMMON_HEADER_LEN + m.len < |b| then cursor + COMMON_HEADER_LEN + m.len else |b|;
      assert AfterMessage(b[cursor..], m.len) == b[next..];
      OntoSplit(messages, m, ParseMessages(b[next..]));
      messages, cursor := messages + [m], next;
    }
    OntoNil(Ok(messages));
    return Ok(messages);
  }

  lemma {:induction false} OntoNil(r: Result<seq<ControlMessage>>)
    ensures Onto([], r) == r
    ensures r.Ok? ==> Onto(r.value, Ok([])) == r
  {
    if r.Ok? {
      assert [] + r.value == r.value + [] == r.value;
    }
  }

  lemma {:induction false} OntoSplit(ms: seq<ControlMessage>, m: ControlMessage, r: Result<seq<ControlMessage>>)
    ensures Onto(ms + [m], r) == Onto(ms, Onto([m], r))
  {
    if r.Ok? {
      assert (ms + [m]) + r.value == ms + ([m] + r.value);
    }
  }

  // ---------------------------------------------------------------------------
  // Printing then parsing

  lemma {:induction false} ReadBackHeader(m: ControlMessage, rest: seq<byte>)
    ensures var b := m.HeaderBytes() + rest;
            && GetU16(b) == m.flagsVer && GetU16(b[2..]) == m.len
            && GetU16(b[8..]) == m.ns && GetU16(b[10..]) == m.nr
            && b[4..8] == m.IdBytes()
  {
  }

  lemma {:induction false} ReadBackIds(m: ControlMessage, rest: seq<byte>)
    ensures var b := m.HeaderBytes() + rest;
            && (m.V2? ==> GetU16(b[4..]) == m.tid && GetU16(b[6..]) == m.sid)
            && (m.V3? ==> GetU32(b[4..]) == m.ccid)
  {
  }

  lemma {:induction false} ParseBodyOf(m: ControlMessage)
    requires m.WellFormed()
    ensures ParseBody(m.ToBytes(), m.V2?, m.len) == Ok(m.avps)
  {
    var b := m.ToBytes();
    assert b[HEADER_LEN..m.len] == AvpsBytes(m.avps);
    ParseAvpsBytes(m.avps);
    if m.avps != [] {
      assert |AvpsBytes(m.avps)| >= AVP_HEADER_LEN;
    }
  }

  /** A well-formed message at the front of a buffer is read back whatever follows it. */
  lemma {:induction false} ParseFrontOf(m: ControlMessage, rest: seq<byte>)
    requires m.WellFormed()
    ensures ParseFront(m.ToBytes() + rest) == Ok(m)
  {
    hide GetU16, GetU32, ParseBody, ControlMessage.HeaderBytes;
    var b := m.ToBytes() + rest;
    assert b == m.HeaderBytes() + (AvpsBytes(m.avps) + rest);
    ReadBackHeader(m, AvpsBytes(m.avps) + rest);
    assert b[..m.len] == m.ToBytes();
    ReadBackHeader(m, AvpsBytes(m.avps));
    ReadBackIds(m, AvpsBytes(m.avps));
    ParseBodyOf(m);
  }

  /** What one turn of the loop guarantees about the message it returns. */
  lemma {:induction false} ParseFrontSound(b: seq<byte>)
    requires |b| >= MESSAGE_MIN_LEN && ParseFront(b).Ok?
    ensures var m := ParseFront(b).value;
            && m.flagsVer % 16 == (if m.V2? then 2 else 3)
            && AllWellFormed(m.avps)
            && HEADER_LEN + |AvpsBytes(m.avps)| <= m.len <= |b|
            && (m.V3? ==> m.avps != [])
            && (m.avps != [] ==> m.avps[0].header.avpType == AVP_MESSAGE)
  {
    hide ParseBody, GetU16, GetU32;
    var len := GetU16(b[2..]);
    var slice := b[..len];
    assert |slice| >= HEADER_LEN ==> slice[2..][..2] == b[2..][..2] && slice[..2] == b[..2];
    SameU16(slice, b);
    SameU16(slice[2..], b[2..]);
    ParseBodySound(slice, ParseFront(b).value.V2?);
  }

  lemma {:induction false} ParseBodySound(b: seq<byte>, isV2: bool)
    requires |b| < 0x1_0000 && ParseBody(b, isV2, |b|).Ok?
    ensures var avps := ParseBody(b, isV2, |b|).value;
            && AllWellFormed(avps)
            && HEADER_LEN + |AvpsBytes(avps)| <= |b|
            && (!isV2 ==> avps != [])
            && (avps != [] ==> avps[0].header.avpType == AVP_MESSAGE)
  {
    if !(isV2 && |b| == HEADER_LEN) {
      ParsedIsWellFormed(b[HEADER_LEN..|b|]);
    }
  }

  lemma {:induction false} SameU16(a: seq<byte>, b: seq<byte>)
    requires |a| >= 2 && |b| >= 2 && a[..2] == b[..2]
    ensures GetU16(a) == GetU16(b)
  {
  }

  /** Printing and parsing are inverse on a message exactly when it is well formed. */
  lemma {:induction false} RoundTrip(m: ControlMessage)
    ensures ParseMessages(m.ToBytes()) == Ok([m]) <==> m.WellFormed()
  {
    hide ParseFront, ControlMessage.ToBytes;
    var b := m.ToBytes();
    if m.WellFormed() {
      ParseFrontOf(m, []);
      assert b + [] == b;
      assert [m] + [] == [m];
    }
    if ParseMessages(b) == Ok([m]) {
      var front := ParseFront(b).value;
      assert [m][0] == front;
      ParseFrontSound(b);
    }
  }

  // ---------------------------------------------------------------------------
  // Several messages in one buffer

  /** Messages printed one straight after another. */
  function Printed(ms: seq<ControlMessage>): seq<byte> {
    if ms == [] then [] else ms[0].ToBytes() + Printed(ms[1..])
  }

  function TotalLen(ms: seq<ControlMessage>): nat {
    if ms == [] then 0 else ms[0].len + TotalLen(ms[1..])
  }

  lemma {:induction false} PrintedLen(ms: seq<ControlMessage>)
    requires forall i :: 0 <= i < |ms| ==> ms[i].WellFormed()
    ensures |Printed(ms)| == TotalLen(ms)
  {
    if ms != [] {
      PrintedLen(ms[1..]);
    }
  }

  /** Every message read but the last uses up four bytes more than its length. */
  lemma {:induction false} ParseConsumes(b: seq<byte>)
    requires ParseMessages(b).Ok? && ParseMessages(b).value != []
    ensures var ms := ParseMessages(b).value;
            |b| >= TotalLen(ms) + COMMON_HEADER_LEN * (|ms| - 1)
    decreases |b|
  {
    hide ParseFront;
    ParseFrontSound(b);
    var m := ParseFront(b).value;
    var tail := AfterMessage(b, m.len);
    assert ParseMessages(b).value[1..] == ParseMessages(tail).value;
    if ParseMessages(tail).value != [] {
      ParseConsumes(tail);
    }
  }

  /** Printed straight after one another, well-formed messages are read back exactly when
      there is at most one of them. */
  lemma {:induction false} BackToBackIff(ms: seq<ControlMessage>)
    requires forall i :: 0 <= i < |ms| ==> ms[i].WellFormed()
    ensures ParseMessages(Printed(ms)) == Ok(ms) <==> |ms| <= 1
  {
    hide ParseFront, ControlMessage.ToBytes, ControlMessage.WellFormed;
    PrintedLen(ms);
    if |ms| == 1 {
      assert Printed(ms) == ms[0].ToBytes() && ms == [ms[0]];
      RoundTrip(ms[0]);
    } else if |ms| > 1 && ParseMessages(Printed(ms)) == Ok(ms) {
      ParseConsumes(Printed(ms));
    }
  }

  /** A message cut off at the end is refused, whatever was cut. */
  lemma {:induction false} TruncatedIsRefused(m: ControlMessage, n: nat)
    requires m.WellFormed() && MESSAGE_MIN_LEN <= n < |m.ToBytes()|
    ensures ParseMessages(m.ToBytes()[..n]) == Err(MessageExceedsBuffer)
  {
    hide GetU16, ControlMessage.HeaderBytes, BytesToV2, BytesToV3;
    var b := m.ToBytes();
    ReadBackHeader(m, AvpsBytes(m.avps));
    assert b[..n][2..][..2] == b[2..][..2];
    SameU16(b[..n][2..], b[2..]);
  }

  /** Messages printed one after another, each followed by its own filler. */
  function Padded(ms: seq<ControlMessage>, fillers: seq<seq<byte>>): seq<byte>
    requires |ms| == |fillers|
  {
    if ms == [] then [] else ms[0].ToBytes() + fillers[0] + Padded(ms[1..], fillers[1..])
  }

  /** The layout the parser does read: four arbitrary bytes after every message but the last,
      and after the last no more than what is too short to be another. */
  lemma {:induction false} PaddedRoundTrip(ms: seq<ControlMessage>, fillers: seq<seq<byte>>)
    requires |ms| == |fillers|
    requires forall i :: 0 <= i < |ms| ==> ms[i].WellFormed()
    requires forall i :: 0 <= i < |ms| - 1 ==> |fillers[i]| == COMMON_HEADER_LEN
    requires ms != [] ==> |fillers[|ms| - 1]| < COMMON_HEADER_LEN + MESSAGE_MIN_LEN
    ensures ParseMessages(Padded(ms, fillers)) == Ok(ms)
  {
    hide ParseFront, ControlMessage.ToBytes;
    if ms != [] {
      var m, rest := ms[0], Padded(ms[1..], fillers[1..]);
      var b := Padded(ms, fillers);
      assert b == m.ToBytes() + (fillers[0] + rest);
      ParseFrontOf(m, fillers[0] + rest);
      if |ms| == 1 {
        assert ParseMessages(AfterMessage(b, m.len)) == Ok([]);
      } else {
        assert AfterMessage(b, m.len) == rest;
        PaddedRoundTrip(ms[1..], fillers[1..]);
      }
      assert [m] + ms[1..] == ms;
    }
  }
}
