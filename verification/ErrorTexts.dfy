/** The words of the errors that a frame can meet with on its way in, and searching them. */
module ErrorTexts {
  import opened Wire
  import opened Avps
  import opened Messages

  /** Whether a text holds another. */
  predicate Contains(text: string, part: string) {
    exists i :: 0 <= i <= |text| && StandsAt(text, part, i)
  }

  predicate StandsAt(text: string, part: string, i: nat) {
    i + |part| <= |text| && text[i..i + |part|] == part
  }

  /** What the receiver looks for. */
  function Mandatory(): string {
    "failed to parse" + " mandatory AVP"
  }

  function Digit(d: nat): char
    requires d < 10
  {
    "0123456789"[d]
  }

  function Decimal(n: nat): string {
    if n < 10 then [Digit(n)] else Decimal(n / 10) + [Digit(n % 10)]
  }

  // ---------------------------------------------------------------------------
  // Errors of the parser

  /** The errors the message parser returns. */
  predicate FromParser(e: Error) {
    e in {UnknownMandatoryAvp, AvpExceedsBuffer, NoAvps, NotMessageType, MessageExceedsBuffer, BadVersion, ShortRead}
  }

  function MandatoryText(): string {
    Mandatory() + ": unrecognised AVP type"
  }

  function ExceedsText(): string {
    "malformed AVP buffer: " + "current AVP length exceeds buffer length"
  }

  function NoAvpsText(): string {
    "no AVPs present in the input buffer"
  }

  function FirstAvpText(isV2: bool): string {
    "invalid" + ((if isV2 then " L2TPv2" else " L2TPv3") + " message: first AVP is not Message Type AVP")
  }

  function LengthText(len: nat, bounds: nat): string {
    "malformed header: length " + Decimal(len) + (" exceeds buffer bounds of " + Decimal(bounds))
  }

  function VersionText(): string {
    "illegal protocol version"
  }

  /** Reading a header from too few bytes. */
  function EofText(len: int): string {
    if len == 0 then "EOF" else "unexpected EOF"
  }

  /** The words of an error met with at the front of a buffer. */
  function FrontText(b: seq<byte>, e: Error): string
    requires |b| >= MESSAGE_MIN_LEN && FromParser(e)
  {
    var flagsVer, len := GetU16(b), GetU16(b[2..]);
    match e
    case UnknownMandatoryAvp => MandatoryText()
    case AvpExceedsBuffer => ExceedsText()
    case NoAvps => NoAvpsText()
    case NotMessageType => FirstAvpText(flagsVer % 16 == 2)
    case MessageExceedsBuffer => LengthText(len, |b| - COMMON_HEADER_LEN)
    case BadVersion => VersionText()
    case _ => EofText(len)
  }

  lemma {:induction false} AvpListErrors(b: seq<byte>)
    requires ParseAvpList(b).Err?
    ensures ParseAvpList(b).error in {UnknownMandatoryAvp, AvpExceedsBuffer, RuntimePanic}
    decreases |b|
  {
    if NextChunk(b).Ok? {
      AvpListErrors(b[|NextChunk(b).value.ToBytes()|..]);
    }
  }

  lemma {:induction false} BodyErrors(b: seq<byte>, isV2: bool, len: u16)
    requires ParseBody(b, isV2, len).Err?
    ensures FromParser(ParseBody(b, isV2, len).error) || ParseBody(b, isV2, len).error == RuntimePanic
  {
    hide ParseAvpList;
    if HEADER_LEN <= len <= |b| && ParseAvpList(b[HEADER_LEN..len]).Err? {
      AvpListErrors(b[HEADER_LEN..len]);
    }
  }

  lemma {:induction false} FrontErrors(b: seq<byte>)
    requires |b| >= MESSAGE_MIN_LEN && ParseFront(b).Err?
    ensures FromParser(ParseFront(b).error) || ParseFront(b).error == RuntimePanic
  {
    hide ParseBody, FromParser, GetU16, GetU32;
    SomeErrors();
    var len := GetU16(b[2..]);
    if (len - COMMON_HEADER_LEN) % 0x1_0000 <= |b| - COMMON_HEADER_LEN && |b[..len]| >= HEADER_LEN {
      var slice := b[..len];
      forall isV2 | ParseBody(slice, isV2, GetU16(slice[2..])).Err?
        ensures FromParser(ParseBody(slice, isV2, GetU16(slice[2..])).error)
                || ParseBody(slice, isV2, GetU16(slice[2..])).error == RuntimePanic
      {
        BodyErrors(slice, isV2, GetU16(slice[2..]));
      }
    }
  }

  lemma {:induction false} SomeErrors()
    ensures FromParser(ShortRead) && FromParser(MessageExceedsBuffer) && FromParser(BadVersion)
  {
  }

  /** The words of the error with which parsing a buffer ends, unless it panics. */
  function ParserText(b: seq<byte>): string
    requires ParseMessages(b).Err? && ParseMessages(b).error != RuntimePanic
    decreases |b|
  {
    match ParseFront(b)
    case Err(e) => FrontErrors(b); FrontText(b, e)
    case Ok(m) => ParserText(AfterMessage(b, m.len))
  }

  // ---------------------------------------------------------------------------
  // Errors of the sequence check

  const TYPE_SUFFIXES: seq<string> := [
    "Illegal", "Sccrq", "Sccrp", "Scccn", "Stopccn", "Reserved5", "Hello", "Ocrq", "Ocrp", "Occn",
    "Icrq", "Icrp", "Iccn", "Reserved13", "Cdn", "Wen", "Sli", "Mdmst", "Srrq", "Srrp",
    "Ack", "Fsq", "Fsr", "Msrq", "Msrp", "Mse", "Msi", "Msen", "Csun", "Csurq"]

  function TypeName(t: u16): string {
    if t < |TYPE_SUFFIXES| then "avpMsgType" + TYPE_SUFFIXES[t] else ""
  }

  function Numbers(ns: u16, nr: u16): string {
    "ns " + Decimal(ns) + " nr " + Decimal(nr)
  }

  function DropText(t: u16, m: ControlMessage, ns: u16, nr: u16): string {
    "dropping invalid packet " + TypeName(t) + " " + Numbers(m.ns, m.nr) + " (transport " + Numbers(ns, nr) + ")"
  }

  // ---------------------------------------------------------------------------
  // Searching

  /** A text with a character of its own is in no text without it. */
  lemma {:induction false} ForeignChar(text: string, part: string, c: char)
    requires c in part
    ensures Contains(text, part) ==> c in text
  {
    var k :| 0 <= k < |part| && part[k] == c;
    forall i: nat | StandsAt(text, part, i)
      ensures c in text
    {
      assert text[i + k] == text[i..i + |part|][k];
    }
  }

  /** Every digit is a digit. */
  lemma {:induction false} DecimalDigits(n: nat, c: char)
    requires c !in "0123456789"
    ensures c !in Decimal(n)
  {
    assert Digit(n % 10) in "0123456789";
    if n < 10 {
      assert Digit(n) in "0123456789";
    } else {
      DecimalDigits(n / 10, c);
    }
  }

  lemma {:induction false} TypeNameHasNoV(t: u16)
    ensures 'V' !in TypeName(t)
  {
    assert forall i :: 0 <= i < |TYPE_SUFFIXES| ==> 'V' !in TYPE_SUFFIXES[i];
    assert 'V' !in "avpMsgType";
  }

  /** A character of a part that comes late in it comes late in the text. */
  lemma {:induction false} LateChar(head: string, rest: string, part: string, k: nat)
    requires |head| <= k < |part|
    ensures Contains(head + rest, part) ==> part[k] in rest
  {
    var text := head + rest;
    forall i: nat | StandsAt(text, part, i)
      ensures part[k] in rest
    {
      assert text[i + k] == text[i..i + |part|][k];
      assert text[i + k] == rest[i + k - |head|];
    }
  }

  lemma {:induction false} MandatoryLetters()
    ensures 'y' in Mandatory() && 'V' in Mandatory() && |Mandatory()| == 29 && Mandatory()[19] == 'd'
  {
    assert " mandatory AVP"[4] == 'd';
  }

  lemma {:induction false} MandatoryLacks(c: char)
    requires c in {':', 'g', 'u', 'E'}
    ensures c !in Mandatory()
  {
    assert c !in "failed to parse";
    Joined("failed to parse", " mandatory AVP", c);
  }

  lemma {:induction false} ExceedsLetters()
    ensures ':' in ExceedsText() && 'y' !in ExceedsText()
  {
    Joined("malformed AVP buffer: ", "current AVP length exceeds buffer length", 'y');
  }

  lemma {:induction false} NoAvpsLetters()
    ensures 'u' in NoAvpsText() && 'y' !in NoAvpsText()
  {
  }

  lemma {:induction false} VersionLetters()
    ensures 'g' in VersionText() && 'y' !in VersionText()
  {
  }

  lemma {:induction false} EofLetters(len: int)
    ensures 'E' in EofText(len) && 'y' !in EofText(len)
  {
  }

  lemma {:induction false} LengthLetters(len: nat, bounds: nat)
    ensures ':' in LengthText(len, bounds) && 'y' !in LengthText(len, bounds)
  {
    hide Decimal;
    DecimalDigits(len, 'y');
    DecimalDigits(bounds, 'y');
  }

  lemma {:induction false} MandatoryTextHolds()
    ensures ':' in MandatoryText() && Contains(MandatoryText(), Mandatory())
  {
    hide Mandatory;
    var m := Mandatory();
    assert ':' in ": unrecognised AVP type";
    assert StandsAt(m + ": unrecognised AVP type", m, 0);
  }

  /** Its only d comes too early. */
  lemma {:induction false} FirstAvpApart(isV2: bool)
    ensures !Contains(FirstAvpText(isV2), Mandatory())
  {
    hide Contains, Mandatory;
    var name, end := if isV2 then " L2TPv2" else " L2TPv3", " message: first AVP is not Message Type AVP";
    MandatoryLetters();
    assert 'd' !in end;
    Joined(name, end, 'd');
    LateChar("invalid", name + end, Mandatory(), 19);
  }

  lemma {:induction false} FirstAvpLetters(isV2: bool)
    ensures ':' in FirstAvpText(isV2)
  {
    assert ':' in " message: first AVP is not Message Type AVP";
  }

  lemma {:induction false} Joined(left: string, right: string, c: char)
    requires c !in left && c !in right
    ensures c !in left + right
  {
  }

  /** A character of an error's words that the text looked into does not have. */
  function OwnChar(e: Error): char {
    match e
    case BadVersion => 'g'
    case NoAvps => 'u'
    case ShortRead => 'E'
    case _ => ':'
  }

  /** The letters of every error of the parser. */
  lemma {:induction false} FrontLetters(b: seq<byte>, e: Error)
    requires |b| >= MESSAGE_MIN_LEN && FromParser(e)
    ensures OwnChar(e) in FrontText(b, e)
    ensures e != UnknownMandatoryAvp && e != NotMessageType ==> 'y' !in FrontText(b, e)
  {
    hide MandatoryText, Mandatory, ExceedsText, NoAvpsText, FirstAvpText, LengthText, VersionText, EofText, Contains, GetU16;
    MandatoryTextHolds();
    ExceedsLetters();
    NoAvpsLetters();
    VersionLetters();
    FirstAvpLetters(GetU16(b) % 16 == 2);
    EofLetters(GetU16(b[2..]));
    LengthLetters(GetU16(b[2..]), |b| - COMMON_HEADER_LEN);
  }

  /** No error of the parser is in the text the receiver looks into. */
  lemma {:induction false} FrontTextNotIn(b: seq<byte>, e: Error)
    requires |b| >= MESSAGE_MIN_LEN && FromParser(e)
    ensures !Contains(Mandatory(), FrontText(b, e))
  {
    hide Mandatory, FrontText, Contains, FromParser;
    MandatoryLacks(OwnChar(e));
    FrontLetters(b, e);
    ForeignChar(Mandatory(), FrontText(b, e), OwnChar(e));
  }

  /** Looked for in the error, the text is there exactly for an unknown mandatory AVP. */
  lemma {:induction false} FrontTextHolds(b: seq<byte>, e: Error)
    requires |b| >= MESSAGE_MIN_LEN && FromParser(e)
    ensures Contains(FrontText(b, e), Mandatory()) <==> e == UnknownMandatoryAvp
  {
    hide MandatoryText, Mandatory, ExceedsText, NoAvpsText, FirstAvpText, LengthText, VersionText, EofText, Contains, GetU16;
    if e == UnknownMandatoryAvp {
      MandatoryTextHolds();
    } else if e == NotMessageType {
      FirstAvpApart(GetU16(b) % 16 == 2);
    } else {
      MandatoryLetters();
      FrontLetters(b, e);
      ForeignChar(FrontText(b, e), Mandatory(), 'y');
    }
  }

  lemma {:induction false} ParserTextNotIn(b: seq<byte>)
    requires ParseMessages(b).Err? && ParseMessages(b).error != RuntimePanic
    ensures !Contains(Mandatory(), ParserText(b))
    decreases |b|
  {
    hide Contains, FrontText, ParseFront;
    match ParseFront(b)
    case Err(e) =>
      FrontErrors(b);
      FrontTextNotIn(b, e);
    case Ok(m) => ParserTextNotIn(AfterMessage(b, m.len));
  }

  lemma {:induction false} ParserTextHolds(b: seq<byte>)
    requires ParseMessages(b).Err? && ParseMessages(b).error != RuntimePanic
    ensures Contains(ParserText(b), Mandatory()) <==> ParseMessages(b).error == UnknownMandatoryAvp
    decreases |b|
  {
    hide Contains, FrontText, ParseFront;
    match ParseFront(b)
    case Err(e) =>
      FrontErrors(b);
      FrontTextHolds(b, e);
    case Ok(m) => ParserTextHolds(AfterMessage(b, m.len));
  }

  /** The error of the sequence check neither is in that text nor holds it. */
  lemma {:induction false} DropTextApart(t: u16, m: ControlMessage, ns: u16, nr: u16)
    ensures !Contains(Mandatory(), DropText(t, m, ns, nr)) && !Contains(DropText(t, m, ns, nr), Mandatory())
  {
    hide Mandatory, DropText, Contains;
    DropTextLetters(t, m, ns, nr);
    MandatoryLetters();
    MandatoryLacks('g');
    ForeignChar(Mandatory(), DropText(t, m, ns, nr), 'g');
    ForeignChar(DropText(t, m, ns, nr), Mandatory(), 'V');
  }

  lemma {:induction false} DropTextLetters(t: u16, m: ControlMessage, ns: u16, nr: u16)
    ensures 'g' in DropText(t, m, ns, nr) && 'V' !in DropText(t, m, ns, nr)
  {
    hide TypeName, Numbers;
    TypeNameHasNoV(t);
    NumbersHaveNoV(m.ns, m.nr);
    NumbersHaveNoV(ns, nr);
  }

  lemma {:induction false} NumbersHaveNoV(ns: u16, nr: u16)
    ensures 'V' !in Numbers(ns, nr)
  {
    hide Decimal;
    DecimalDigits(ns, 'V');
    DecimalDigits(nr, 'V');
  }
}
