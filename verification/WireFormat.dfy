/** The wire format byte by byte, and what the parsers make of every buffer, the refused ones
    included. */
module WireFormat {
  import opened Wire
  import opened Avps
  import opened Payloads
  import opened Messages

  // ---------------------------------------------------------------------------
  // Layout

  /** The sixteen bits at an offset, most significant byte first. */
  function At16(b: seq<byte>, i: nat): u16
    requires i + 2 <= |b|
  {
    var hi: int, lo: int := b[i], b[i + 1];
    hi * 0x100 + lo
  }

  function At32(b: seq<byte>, i: nat): u32
    requires i + 4 <= |b|
  {
    var hi: int, lo: int := At16(b, i), At16(b, i + 2);
    hi * 0x1_0000 + lo
  }

  function At64(b: seq<byte>, i: nat): u64
    requires i + 8 <= |b|
  {
    var hi: int, lo: int := At32(b, i), At32(b, i + 4);
    hi * 0x1_0000_0000 + lo
  }

  /** Network byte order. */
  lemma {:induction false} BigEndian(x: u16, y: u32, z: u64)
    ensures At16(PutU16(x), 0) == x
    ensures At32(PutU32(y), 0) == y
    ensures At64(PutU64(z), 0) == z
  {
    var hi, lo := z / 0x1_0000_0000, z % 0x1_0000_0000;
    assert PutU64(z) == PutU32(hi) + PutU32(lo);
  }

  /** An AVP: M bit, H bit and ten bits of length, then vendor, type and value. */
  lemma {:induction false} AvpLayout(m: bool, h: bool, vendorId: u16, avpType: u16, dataType: DataType, data: seq<byte>)
    requires |data| <= MAX_PAYLOAD
    ensures var b := AvpBytes(Avp(NewAvpHeader(m, h, |data|, vendorId, avpType), dataType, data));
            && At16(b, 0) == (if m then 0x8000 else 0) + (if h then 0x4000 else 0) + 6 + |data|
            && At16(b, 2) == vendorId && At16(b, 4) == avpType && b[6..] == data
  {
  }

  /** A v2 message: flags and version, length, tunnel and session ID, Ns and Nr, then the AVPs. */
  lemma {:induction false} MessageLayoutV2(m: ControlMessage)
    requires m.V2?
    ensures var b := m.ToBytes();
            && At16(b, 0) == m.flagsVer && At16(b, 2) == m.len && At16(b, 4) == m.tid && At16(b, 6) == m.sid
            && At16(b, 8) == m.ns && At16(b, 10) == m.nr && b[12..] == AvpsBytes(m.avps)
  {
    var b := m.ToBytes();
    assert b[12..] == AvpsBytes(m.avps);
  }

  /** A v3 message has a 32-bit control connection ID instead of the two. */
  lemma {:induction false} MessageLayoutV3(m: ControlMessage)
    requires m.V3?
    ensures var b := m.ToBytes();
            && At16(b, 0) == m.flagsVer && At16(b, 2) == m.len && At32(b, 4) == m.ccid
            && At16(b, 8) == m.ns && At16(b, 10) == m.nr && b[12..] == AvpsBytes(m.avps)
  {
    var b := m.ToBytes();
    assert b[12..] == AvpsBytes(m.avps);
  }

  // ---------------------------------------------------------------------------
  // Values

  /** Which payloads decode, by the kind of data, and to what. */
  lemma {:induction false} DecodesIff(a: Avp)
    ensures var d, r := a.data, Decode(a);
            match a.dataType
            case Empty => r == Ok(VNothing)
            case Uint16 => (r.Ok? <==> |d| == 2) && (r.Ok? ==> r == Ok(VUint16(At16(d, 0))))
            case MsgId => (r.Ok? <==> |d| == 2) && (r.Ok? ==> r == Ok(VMsgType(At16(d, 0))))
            case Uint32 => (r.Ok? <==> |d| == 4) && (r.Ok? ==> r == Ok(VUint32(At32(d, 0))))
            case Uint64 => (r.Ok? <==> |d| == 8) && (r.Ok? ==> r == Ok(VUint64(At64(d, 0))))
            case String => r == Ok(VString(d))
            case Bytes => r == Ok(VBytes(d))
            case ResultCodeData =>
              && (r.Ok? <==> |d| == 2 || |d| >= 4)
              && (|d| == 2 ==> r == Ok(VResultCode(ResultCode(At16(d, 0), 0, []))))
              && (|d| >= 4 ==> r == Ok(VResultCode(ResultCode(At16(d, 0), At16(d, 2), d[4..]))))
            case _ => r.Err?
  {
    hide ToUint16, ToUint32, ToUint64, ToResultCode, At16, At32, At64;
    NumbersAre(a.data);
    ResultCodesAre(a.data);
  }

  lemma {:induction false} NumbersAre(d: seq<byte>)
    ensures (ToUint16(d).Ok? <==> |d| == 2) && (|d| == 2 ==> ToUint16(d) == Ok(At16(d, 0)))
    ensures (ToUint32(d).Ok? <==> |d| == 4) && (|d| == 4 ==> ToUint32(d) == Ok(At32(d, 0)))
    ensures (ToUint64(d).Ok? <==> |d| == 8) && (|d| == 8 ==> ToUint64(d) == Ok(At64(d, 0)))
  {
  }

  lemma {:induction false} ResultCodesAre(d: seq<byte>)
    ensures ToResultCode(d).Ok? <==> |d| == 2 || |d| >= 4
    ensures |d| == 2 ==> ToResultCode(d) == Ok(ResultCode(At16(d, 0), 0, []))
    ensures |d| >= 4 ==> ToResultCode(d) == Ok(ResultCode(At16(d, 0), At16(d, 2), d[4..]))
  {
  }

  /** The typed readers: each takes its own kind of data only, and of the right length. */
  lemma {:induction false} ReadersIff(a: Avp)
    ensures DecodeUint16Data(a).Ok? <==> a.dataType == Uint16 && |a.data| == 2
    ensures DecodeUint16Data(a).Ok? ==> DecodeUint16Data(a).value == At16(a.data, 0)
    ensures DecodeUint32Data(a).Ok? <==> a.dataType == Uint32 && |a.data| == 4
    ensures DecodeUint32Data(a).Ok? ==> DecodeUint32Data(a).value == At32(a.data, 0)
    ensures DecodeStringData(a).Ok? <==> a.dataType == String
    ensures DecodeStringData(a).Ok? ==> DecodeStringData(a).value == a.data
    ensures DecodeResultCode(a).Ok? <==> a.dataType == ResultCodeData && (|a.data| == 2 || |a.data| >= 4)
    ensures DecodeMsgType(a).Ok? <==> a.dataType == MsgId && |a.data| == 2
    ensures DecodeMsgType(a).Ok? ==> DecodeMsgType(a).value == At16(a.data, 0)
  {
    hide ToUint16, ToUint32, ToResultCode, At16, At32;
    NumbersAre(a.data);
    ResultCodesAre(a.data);
  }

  /** A lookup reads the first AVP with that vendor and type, if there is one. */
  lemma {:induction false} LookupReadsFirst(before: seq<Avp>, a: Avp, after: seq<Avp>, vendorId: u16, avpType: u16)
    requires a.header.vendorId == vendorId && a.header.avpType == avpType
    requires forall i :: 0 <= i < |before| ==> before[i].header.vendorId != vendorId || before[i].header.avpType != avpType
    ensures var avps := before + [a] + after;
            && FindUint16Avp(avps, vendorId, avpType) == DecodeUint16Data(a)
            && FindUint32Avp(avps, vendorId, avpType) == DecodeUint32Data(a)
            && FindStringAvp(avps, vendorId, avpType) == DecodeStringData(a)
            && FindBytesAvp(avps, vendorId, avpType) == Ok(a.data)
            && FindResultCodeAvp(avps, vendorId, avpType) == DecodeResultCode(a)
    ensures FindUint16Avp(before, vendorId, avpType).Err?
  {
    hide DecodeUint16Data, DecodeUint32Data, DecodeStringData, DecodeResultCode;
    FindFirst(before, a, after, vendorId, avpType);
  }

  lemma {:induction false} FindFirst(before: seq<Avp>, a: Avp, after: seq<Avp>, vendorId: u16, avpType: u16)
    requires a.header.vendorId == vendorId && a.header.avpType == avpType
    requires forall i :: 0 <= i < |before| ==> before[i].header.vendorId != vendorId || before[i].header.avpType != avpType
    ensures FindAvp(before + [a] + after, vendorId, avpType) == Ok(a) && FindAvp(before, vendorId, avpType).Err?
  {
    var avps := before + [a] + after;
    if before != [] {
      FindFirst(before[1..], a, after, vendorId, avpType);
      assert avps[1..] == before[1..] + [a] + after;
    }
  }

  /** The type of a message: 20, an acknowledgement, for a v2 message without AVPs; otherwise
      the number in the first AVP, if that is a Message Type AVP of two bytes. */
  lemma {:induction false} TypeIff(m: ControlMessage)
    requires AllWellFormed(m.avps)
    ensures m.V2? && m.avps == [] ==> m.GetType() == Ok(20)
    ensures !(m.V2? && m.avps == []) ==>
              (m.GetType().Ok? <==> m.avps != [] && m.avps[0].header.avpType == 0 && |m.avps[0].data| == 2)
    ensures m.avps != [] && m.GetType().Ok? ==> |m.avps[0].data| == 2 && m.GetType() == Ok(At16(m.avps[0].data, 0))
  {
  }

  // ---------------------------------------------------------------------------
  // What one AVP of a buffer does to its parsing

  /** By the length, vendor and type at the front of a buffer: an AVP outside the table is
      skipped by its header, or refused if mandatory; one in the table is taken if it is all
      there, refused if it is longer than the buffer, and the end of the program if it claims
      to be shorter than its own header. */
  lemma {:induction false} FrontAvp(b: seq<byte>)
    requires |b| >= 6
    ensures var flags, vendor, t := At16(b, 0), At16(b, 2), At16(b, 4);
            var n := flags % 0x400;
            var r := ParseAvpList(b);
            if vendor != 0 || t >= 76 then
              r == (if flags >= 0x8000 then Err(UnknownMandatoryAvp) else ParseAvpList(b[6..]))
            else if n > |b| then r == Err(AvpExceedsBuffer)
            else if n < 6 then r == Err(RuntimePanic)
            else
              match ParseAvpList(b[n..])
              case Err(e) => r == Err(e)
              case Ok(tail) => r == Ok([Avp(AvpHeader(flags, 0, t), TableDataType(t), b[6..n])] + tail)
  {
    var flags, vendor, t := At16(b, 0), At16(b, 2), At16(b, 4);
    HeaderRead(b);
    hide GetU16, TableDataType, ReadHeader, PutU16;
    var n := flags % 0x400;
    if vendor == 0 && t < 76 && 6 <= n <= |b| {
      assert b[6..][..n - 6] == b[6..n];
      assert NextChunk(b) == Ok(Taken(Avp(AvpHeader(flags, 0, t), TableDataType(t), b[6..n])));
    } else if (vendor != 0 || t >= 76) && flags < 0x8000 {
      assert NextChunk(b) == Ok(Skipped(AvpHeader(flags, vendor, t)));
      PrependNil(ParseAvpList(b[6..]));
    }
  }

  lemma {:induction false} HeaderRead(b: seq<byte>)
    requires |b| >= 6
    ensures ReadHeader(b) == AvpHeader(At16(b, 0), At16(b, 2), At16(b, 4))
  {
  }

  /** Fewer than six bytes are ignored, and a buffer without a single AVP is refused. */
  lemma {:induction false} AvpEnds(b: seq<byte>)
    ensures |b| < 6 ==> ParseAvpList(b) == Ok([])
    ensures ParseAvps(b) == (if ParseAvpList(b) == Ok([]) then Err(NoAvps) else ParseAvpList(b))
  {
  }

  // ---------------------------------------------------------------------------
  // What the front message of a buffer does to its parsing

  /** The message the header at the front of a buffer announces, with these AVPs. */
  function Announced(b: seq<byte>, avps: seq<Avp>): ControlMessage
    requires |b| >= 12
  {
    if At16(b, 0) % 16 == 2
    then V2(At16(b, 0), At16(b, 2), At16(b, 4), At16(b, 6), At16(b, 8), At16(b, 10), avps)
    else V3(At16(b, 0), At16(b, 2), At32(b, 4), At16(b, 8), At16(b, 10), avps)
  }

  /** By the version and length at the front of a buffer.  A length below four wraps around,
      so it is too long for any buffer of less than 2^16 bytes. */
  lemma {:induction false} FrontMessage(b: seq<byte>)
    requires 12 <= |b| < 0xfffc
    ensures var ver, len := At16(b, 0) % 16, At16(b, 2);
            var r := ParseFront(b);
            if len < 4 || len > |b| then r == Err(MessageExceedsBuffer)
            else if ver != 2 && ver != 3 then r == Err(BadVersion)
            else if len < 12 then r == Err(ShortRead)
            else if len == 12 && ver == 2 then r == Ok(Announced(b, []))
            else
              match ParseAvps(b[12..len])
              case Err(e) => r == Err(e)
              case Ok(avps) => r == (if avps[0].header.avpType == 0 then Ok(Announced(b, avps)) else Err(NotMessageType))
  {
    hide GetU16, GetU32, BytesToV2, BytesToV3, PutU16, PutU32, At16, At32, Announced, ParseAvps;
    var len: int := At16(b, 2);
    FieldsRead(b);
    WrapsIff(len, |b|);
    if 4 <= len <= |b| {
      WholeMessage(b, len);
    }
  }

  lemma {:induction false} WrapsIff(len: int, n: int)
    requires 0 <= len < 0x1_0000 && 12 <= n < 0xfffc
    ensures (len - 4) % 0x1_0000 > n - 4 <==> len < 4 || len > n
  {
  }

  /** The same for the bytes of one message. */
  lemma {:induction false} WholeMessage(b: seq<byte>, len: nat)
    requires |b| >= 12 && 4 <= len == At16(b, 2) <= |b|
    ensures var ver, slice := At16(b, 0) % 16, b[..len];
            var r := if ver == 2 then BytesToV2(slice) else BytesToV3(slice);
            ver == 2 || ver == 3 ==>
              if len < 12 then r == Err(ShortRead)
              else if len == 12 && ver == 2 then r == Ok(Announced(b, []))
              else
                match ParseAvps(b[12..len])
                case Err(e) => r == Err(e)
                case Ok(avps) => r == (if avps[0].header.avpType == 0 then Ok(Announced(b, avps)) else Err(NotMessageType))
  {
    var slice := b[..len];
    if len >= 12 {
      hide GetU16, GetU32, ParseAvpList, PutU16, PutU32, At16, At32;
      FieldsRead(slice);
      SliceFields(b, len);
      assert slice[12..len] == b[12..len];
    }
  }

  lemma {:induction false} SliceFields(b: seq<byte>, len: nat)
    requires 12 <= len <= |b|
    ensures var s := b[..len];
            && At16(s, 0) == At16(b, 0) && At16(s, 2) == At16(b, 2) && At16(s, 4) == At16(b, 4) && At16(s, 6) == At16(b, 6)
            && At16(s, 8) == At16(b, 8) && At16(s, 10) == At16(b, 10) && At32(s, 4) == At32(b, 4)
  {
  }

  lemma {:induction false} FieldsRead(b: seq<byte>)
    requires |b| >= 12
    ensures GetU16(b) == At16(b, 0) && GetU16(b[2..]) == At16(b, 2) && GetU16(b[4..]) == At16(b, 4) && GetU16(b[6..]) == At16(b, 6)
    ensures GetU16(b[8..]) == At16(b, 8) && GetU16(b[10..]) == At16(b, 10)
    ensures GetU32(b[4..]) == At32(b, 4)
  {
    assert b[4..][2..] == b[6..];
  }
}
