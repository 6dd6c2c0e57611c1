/** Attribute Value Pairs: header bit-packing, the table of known AVPs, the parser,
    and the typed payloads (sections 4.1 and 4.4.2 of RFC 2661). */
module Avps {
  import opened Wire

  const AVP_HEADER_LEN := 6
  const VENDOR_IETF: u16 := 0
  /** The largest payload whose total length still fits the ten-bit Length field. */
  const MAX_PAYLOAD := 0x3ff - AVP_HEADER_LEN

  datatype DataType =
    | Empty | Uint16 | Uint32 | Uint64 | String | Bytes | ResultCodeData | MsgId
    | Unimplemented | Illegal

  datatype AvpInfo = AvpInfo(avpType: u16, vendorId: u16, isMandatory: bool, dataType: DataType)

  datatype AvpHeader = AvpHeader(flagLen: u16, vendorId: u16, avpType: u16) {

    /** Mask 0x8000. */
    predicate IsMandatory() {
      flagLen / 0x8000 % 2 == 1
    }

    /** Mask 0x4000. */
    predicate IsHidden() {
      flagLen / 0x4000 % 2 == 1
    }

    /** Mask 0x3ff: the ten low bits. */
    function TotalLen(): nat {
      flagLen % 0x400
    }

    /** Negative when the Length field is smaller than the header itself. */
    function DataLen(): int {
      TotalLen() - AVP_HEADER_LEN
    }
  }

  datatype Avp = Avp(header: AvpHeader, dataType: DataType, data: seq<byte>)

  /** A Result Code AVP's contents; errMsg is a byte string. */
  datatype ResultCode = ResultCode(result: u16, errCode: u16, errMsg: seq<byte>)

  /** The dynamically typed values the builders hand to newAvp. */
  datatype Value =
    | VUint16(u16: u16) | VUint32(u32: u32) | VUint64(u64: u64)
    | VString(str: seq<byte>) | VBytes(bytes: seq<byte>)
    | VResultCode(rc: ResultCode) | VMsgType(msgType: u16)
    | VNothing

  // ---------------------------------------------------------------------------
  // Header bits

  /** On sixteen-bit words the source's masks and exclusive-ors are the divisions,
      remainders and sums used here. */
  lemma {:induction false} MasksAreArithmetic(x: bv16, m: bool, h: bool)
    ensures 0x3ff & x == x % 0x400
    ensures (0x8000 & x == 0x8000) <==> x / 0x8000 % 2 == 1
    ensures (0x4000 & x == 0x4000) <==> x / 0x4000 % 2 == 1
    ensures var mBit: bv16, hBit: bv16 := if m then 0x8000 else 0, if h then 0x4000 else 0;
            0 ^ mBit ^ hBit ^ (0x3ff & x) == mBit + hBit + x % 0x400
  {
  }

  /** The length is masked to ten bits, so a payload longer than MAX_PAYLOAD wraps. */
  function NewAvpHeader(isMandatory: bool, isHidden: bool, payloadBytes: nat, vendorId: u16, avpType: u16): AvpHeader {
    var mBit, hBit := if isMandatory then 0x8000 else 0, if isHidden then 0x4000 else 0;
    AvpHeader(mBit + hBit + (payloadBytes + AVP_HEADER_LEN) % 0x400, vendorId, avpType)
  }

  /** Every field packed into a header can be read back; the length exactly when it fits. */
  lemma {:induction false} HeaderRoundTrip(m: bool, h: bool, payloadBytes: nat, vendorId: u16, avpType: u16)
    ensures var hdr := NewAvpHeader(m, h, payloadBytes, vendorId, avpType);
            && hdr.IsMandatory() == m
            && hdr.IsHidden() == h
            && (hdr.DataLen() == payloadBytes <==> payloadBytes <= MAX_PAYLOAD)
            && hdr.vendorId == vendorId && hdr.avpType == avpType
  {
  }

  // ---------------------------------------------------------------------------
  // The table of known AVPs

  const AVP_TYPE_MAX := 76

  function TableDataType(t: nat): DataType {
    if t == 0 then MsgId
    else if t == 1 then ResultCodeData
    else if t == 39 then Empty
    else if t == 6 || 9 <= t <= 10 || t == 14 || t == 29 || 68 <= t <= 71 then Uint16
    else if 3 <= t <= 4 || 15 <= t <= 19 || 24 <= t <= 25 || t == 38 || 60 <= t <= 61 || 63 <= t <= 64 then Uint32
    else if 74 <= t <= 75 then Uint64
    else if 7 <= t <= 8 || 21 <= t <= 23 || t == 30 || t == 37 then String
    else if t == 2 || t == 5 || t == 11 || t == 13 || 26 <= t <= 28 || 31 <= t <= 33 || t == 36 || t == 59
            || 65 <= t <= 66 || 72 <= t <= 73 then Bytes
    else if t == 12 || t == 20 || 34 <= t <= 35 || t == 62 then Unimplemented
    else Illegal
  }

  predicate TableMandatory(t: nat) {
    0 <= t <= 1 || 3 <= t <= 4 || t == 7 || 9 <= t <= 19 || 21 <= t <= 24 || 34 <= t <= 36 || t == 39
  }

  /** Row t of the table; every row is in the IETF name space and describes type t. */
  function TableRow(t: nat): AvpInfo
    requires t < AVP_TYPE_MAX
  {
    AvpInfo(t, VENDOR_IETF, TableMandatory(t), TableDataType(t))
  }

  /** The table as it stands: whether the AVP is mandatory, and its data type. */
  const AVP_ROWS_0: seq<(bool, DataType)> := [
    (true, MsgId), (true, ResultCodeData), (false, Bytes), (true, Uint32),
    (true, Uint32), (false, Bytes), (false, Uint16), (true, String),
    (false, String), (true, Uint16), (true, Uint16), (true, Bytes),
    (true, Unimplemented), (true, Bytes), (true, Uint16), (true, Uint32),
    (true, Uint32), (true, Uint32), (true, Uint32), (true, Uint32)
  ]

  const AVP_ROWS_20: seq<(bool, DataType)> := [
    (false, Unimplemented), (true, String), (true, String), (true, String),
    (true, Uint32), (false, Uint32), (false, Bytes), (false, Bytes),
    (false, Bytes), (false, Uint16), (false, String), (false, Bytes),
    (false, Bytes), (false, Bytes), (true, Unimplemented), (true, Unimplemented),
    (true, Bytes), (false, String), (false, Uint32), (true, Empty)
  ]

  const AVP_ROWS_40: seq<(bool, DataType)> := [
    (false, Illegal), (false, Illegal), (false, Illegal), (false, Illegal),
    (false, Illegal), (false, Illegal), (false, Illegal), (false, Illegal),
    (false, Illegal), (false, Illegal), (false, Illegal), (false, Illegal),
    (false, Illegal), (false, Illegal), (false, Illegal), (false, Illegal),
    (false, Illegal), (false, Illegal), (false, Illegal), (false, Bytes)
  ]

  const AVP_ROWS_60: seq<(bool, DataType)> := [
    (false, Uint32), (false, Uint32), (false, Unimplemented), (false, Uint32),
    (false, Uint32), (false, Bytes), (false, Bytes), (false, Illegal),
    (false, Uint16), (false, Uint16), (false, Uint16), (false, Uint16),
    (false, Bytes), (false, Bytes), (false, Uint64), (false, Uint64)
  ]

  const AVP_TABLE := AVP_ROWS_0 + AVP_ROWS_20 + AVP_ROWS_40 + AVP_ROWS_60

  lemma {:induction false} RowsAre(t: nat)
    ensures |AVP_ROWS_0| == 20 && |AVP_ROWS_20| == 20 && |AVP_ROWS_40| == 20 && |AVP_ROWS_60| == 16
    ensures t < 20 ==> AVP_ROWS_0[t] == (TableMandatory(t), TableDataType(t))
    ensures 20 <= t < 40 ==> AVP_ROWS_20[t - 20] == (TableMandatory(t), TableDataType(t))
    ensures 40 <= t < 60 ==> AVP_ROWS_40[t - 40] == (TableMandatory(t), TableDataType(t))
    ensures 60 <= t < 76 ==> AVP_ROWS_60[t - 60] == (TableMandatory(t), TableDataType(t))
  {
  }

  /** The rows are the ones above. */
  lemma {:induction false} TableIs(t: nat)
    requires t < AVP_TYPE_MAX
    ensures |AVP_TABLE| == AVP_TYPE_MAX && AVP_TABLE[t] == (TableMandatory(t), TableDataType(t))
  {
    hide TableMandatory, TableDataType;
    RowsAre(t);
  }

  function GetAvpInfo(avpType: u16, vendorId: u16): Result<AvpInfo> {
    if vendorId == VENDOR_IETF && avpType < AVP_TYPE_MAX then Ok(TableRow(avpType)) else Err(UnknownAvp)
  }

  /** The linear search of the table finds the row of a known AVP and nothing else. */
  method FindAvpInfo(avpType: u16, vendorId: u16) returns (r: Result<AvpInfo>)
    ensures r == GetAvpInfo(avpType, vendorId)
  {
    for t := 0 to AVP_TYPE_MAX
      invariant vendorId == VENDOR_IETF ==> t <= avpType
    {
      TableIs(t);
      var info := AvpInfo(t, VENDOR_IETF, AVP_TABLE[t].0, AVP_TABLE[t].1);
      if info.avpType == avpType && info.vendorId == vendorId {
        return Ok(info);
      }
    }
    return Err(UnknownAvp);
  }

  // ---------------------------------------------------------------------------
  // Encoding and parsing a run of AVPs

  function HeaderBytes(h: AvpHeader): (b: seq<byte>)
    ensures |b| == AVP_HEADER_LEN
  {
    PutU16(h.flagLen) + PutU16(h.vendorId) + PutU16(h.avpType)
  }

  function ReadHeader(b: seq<byte>): (h: AvpHeader)
    requires |b| >= AVP_HEADER_LEN
    ensures HeaderBytes(h) == b[..AVP_HEADER_LEN]
  {
    var h := AvpHeader(GetU16(b), GetU16(b[2..]), GetU16(b[4..]));
    assert HeaderBytes(h) == b[..2] + b[2..][..2] + b[4..][..2];
    h
  }

  lemma {:induction false} ReadHeaderBytes(h: AvpHeader, rest: seq<byte>)
    ensures ReadHeader(HeaderBytes(h) + rest) == h
  {
  }

  function AvpBytes(a: Avp): (b: seq<byte>)
    ensures |b| == AVP_HEADER_LEN + |a.data|
  {
    HeaderBytes(a.header) + a.data
  }

  function AvpsBytes(avps: seq<Avp>): seq<byte> {
    if avps == [] then [] else AvpBytes(avps[0]) + AvpsBytes(avps[1..])
  }

  /** What the parser can produce: a known AVP whose Length field counts its own bytes. */
  predicate WellFormed(a: Avp) {
    && a.header.vendorId == VENDOR_IETF && a.header.avpType < AVP_TYPE_MAX
    && a.header.TotalLen() == AVP_HEADER_LEN + |a.data|
    && a.dataType == TableDataType(a.header.avpType)
  }

  predicate AllWellFormed(avps: seq<Avp>) {
    forall i :: 0 <= i < |avps| ==> WellFormed(avps[i])
  }

  /** A stretch of the buffer the parser consumes in one turn of its loop: a known AVP,
      or an unknown AVP without the mandatory bit, skipped by its header alone. */
  datatype Chunk = Taken(avp: Avp) | Skipped(header: AvpHeader) {

    function ToBytes(): (b: seq<byte>)
      ensures |b| >= AVP_HEADER_LEN
    {
      match this
      case Taken(a) => AvpBytes(a)
      case Skipped(h) => HeaderBytes(h)
    }

    function Avps(): seq<Avp> {
      if Taken? then [avp] else []
    }

    predicate Valid() {
      match this
      case Taken(a) => WellFormed(a)
      case Skipped(h) => GetAvpInfo(h.avpType, h.vendorId).Err? && !h.IsMandatory()
    }
  }

  /** One turn of the parse loop. */
  function NextChunk(b: seq<byte>): (r: Result<Chunk>)
    requires |b| >= AVP_HEADER_LEN
    ensures r.Ok? ==> r.value.Valid() && r.value.ToBytes() <= b
  {
    var h := ReadHeader(b);
    var rest := b[AVP_HEADER_LEN..];
    assert b == HeaderBytes(h) + rest;
    match GetAvpInfo(h.avpType, h.vendorId)
    case Err(_) =>
      if h.IsMandatory() then Err(UnknownMandatoryAvp) else Ok(Skipped(h))
    case Ok(info) =>
      if h.DataLen() > |rest| then Err(AvpExceedsBuffer)
      else if h.DataLen() < 0 then Err(RuntimePanic)
      else Ok(Taken(Avp(h, info.dataType, rest[..h.DataLen()])))
  }

  lemma {:induction false} NextChunkOf(chunk: Chunk, rest: seq<byte>)
    requires chunk.Valid()
    ensures NextChunk(chunk.ToBytes() + rest) == Ok(chunk)
  {
    match chunk
    case Skipped(h) => ReadHeaderBytes(h, rest);
    case Taken(a) =>
      var b := AvpBytes(a) + rest;
      assert b == HeaderBytes(a.header) + (a.data + rest);
      ReadHeaderBytes(a.header, a.data + rest);
      assert b[AVP_HEADER_LEN..][..a.header.DataLen()] == a.data;
  }

  /** The whole loop, which runs until fewer than six bytes remain. */
  function ParseAvpList(b: seq<byte>): Result<seq<Avp>>
    decreases |b|
  {
    if |b| < AVP_HEADER_LEN then Ok([])
    else
      var chunk :- NextChunk(b);
      Prepend(chunk.Avps(), ParseAvpList(b[|chunk.ToBytes()|..]))
  }

  function ParseAvps(b: seq<byte>): Result<seq<Avp>> {
    var avps :- ParseAvpList(b);
    if avps == [] then Err(NoAvps) else Ok(avps)
  }

  function Prepend(avps: seq<Avp>, r: Result<seq<Avp>>): Result<seq<Avp>> {
    match r
    case Ok(tail) => Ok(avps + tail)
    case Err(_) => r
  }

  lemma {:induction false} PrependNil(r: Result<seq<Avp>>)
    ensures Prepend([], r) == r
    ensures r.Ok? ==> Prepend(r.value, Ok([])) == r
  {
    if r.Ok? {
      assert [] + r.value == r.value + [] == r.value;
    }
  }

  lemma {:induction false} PrependSplit(left: seq<Avp>, right: seq<Avp>, r: Result<seq<Avp>>)
    ensures Prepend(left + right, r) == Prepend(left, Prepend(right, r))
  {
    if r.Ok? {
      assert (left + right) + r.value == left + (right + r.value);
    }
  }

  /** One turn of the loop at an offset: what to append, and where the next turn starts. */
  method ParseAvpAt(b: seq<byte>, start: nat) returns (avps: seq<Avp>, next: nat, err: Option<Error>)
    requires start + AVP_HEADER_LEN <= |b|
    ensures match NextChunk(b[start..])
            case Ok(chunk) => err == None && avps == chunk.Avps() && next == start + |chunk.ToBytes()|
            case Err(e) => err == Some(e)
  {
    var h := ReadHeader(b[start..]);
    var cursor := start + AVP_HEADER_LEN;
    assert b[start..][AVP_HEADER_LEN..] == b[cursor..];
    avps, next, err := [], cursor, None;
    var info := FindAvpInfo(h.avpType, h.vendorId);
    if info.Err? {
      if h.IsMandatory() {
        err := Some(UnknownMandatoryAvp);
      }
    } else if h.DataLen() > |b| - cursor {
      err := Some(AvpExceedsBuffer);
    } else if h.DataLen() < 0 {
      err := Some(RuntimePanic);
    } else {
      next := cursor + h.DataLen();
      assert b[cursor..][..h.DataLen()] == b[cursor..next];
      avps := [Avp(h, info.value.dataType, b[cursor..next])];
    }
  }

  /** The source's loop over a reader: a cursor into the buffer and a growing list. */
  method ParseAvpBuffer(b: seq<byte>) returns (r: Result<seq<Avp>>)
    ensures r == ParseAvps(b)
  {
    hide NextChunk, Chunk.ToBytes, Chunk.Avps;
    var cursor := 0;
    var avps: seq<Avp> := [];
    assert b[cursor..] == b;
    PrependNil(ParseAvpList(b));
    while |b| - cursor >= AVP_HEADER_LEN
      invariant 0 <= cursor <= |b|
      invariant ParseAvpList(b) == Prepend(avps, ParseAvpList(b[cursor..]))
    {
      var more, next, err := ParseAvpAt(b, cursor);
      if err.Some? {
        return Err(err.value);
      }
      assert b[cursor..][next - cursor..] == b[next..];
      PrependSplit(avps, more, ParseAvpList(b[next..]));
      avps, cursor := avps + more, next;
    }
    PrependNil(Ok(avps));
    if avps == [] {
      return Err(NoAvps);
    }
    return Ok(avps);
  }

  // ---------------------------------------------------------------------------
  // Tiling: what the parser accepts, exactly

  function ChunksBytes(chunks: seq<Chunk>): seq<byte> {
    if chunks == [] then [] else chunks[0].ToBytes() + ChunksBytes(chunks[1..])
  }

  function ChunksAvps(chunks: seq<Chunk>): seq<Avp> {
    if chunks == [] then [] else chunks[0].Avps() + ChunksAvps(chunks[1..])
  }

  predicate AllValid(chunks: seq<Chunk>) {
    forall i :: 0 <= i < |chunks| ==> chunks[i].Valid()
  }

  lemma {:induction false} ParseOneMore(chunk: Chunk, rest: seq<byte>)
    requires chunk.Valid()
    ensures ParseAvpList(chunk.ToBytes() + rest) == Prepend(chunk.Avps(), ParseAvpList(rest))
  {
    NextChunkOf(chunk, rest);
    assert (chunk.ToBytes() + rest)[|chunk.ToBytes()|..] == rest;
  }

  /** Any valid tiling of a buffer, up to a residue shorter than a header, parses to
      exactly the AVPs it contains. */
  lemma {:induction false} TilingParses(chunks: seq<Chunk>, residue: seq<byte>)
    requires AllValid(chunks) && |residue| < AVP_HEADER_LEN
    ensures ParseAvpList(ChunksBytes(chunks) + residue) == Ok(ChunksAvps(chunks))
  {
    hide NextChunk, Chunk.ToBytes, Chunk.Avps, Chunk.Valid;
    if chunks == [] {
      assert ChunksBytes(chunks) + residue == residue;
    } else {
      var tail := ChunksBytes(chunks[1..]) + residue;
      TilingParses(chunks[1..], residue);
      ParseOneMore(chunks[0], tail);
      assert ChunksBytes(chunks) + residue == chunks[0].ToBytes() + tail;
    }
  }

  /** Conversely every buffer the parser accepts has such a tiling: the payload slices
      are in bounds, disjoint and consecutive, and nothing but skipped headers and a
      residue of under six bytes is left out.  Printing the AVPs gives back the buffer
      before the residue exactly when no header was skipped. */
  lemma {:induction false} ParseTiles(b: seq<byte>) returns (chunks: seq<Chunk>, residue: seq<byte>)
    requires ParseAvpList(b).Ok?
    ensures AllValid(chunks) && |residue| < AVP_HEADER_LEN
    ensures b == ChunksBytes(chunks) + residue
    ensures ParseAvpList(b) == Ok(ChunksAvps(chunks))
    ensures b == AvpsBytes(ParseAvpList(b).value) + residue <==> forall i :: 0 <= i < |chunks| ==> chunks[i].Taken?
    decreases |b|
  {
    chunks, residue := ParseTiling(b);
    TiledBytes(chunks);
    if b == AvpsBytes(ChunksAvps(chunks)) + residue {
      SkippedBytes(chunks);
    }
  }

  lemma {:induction false} ParseTiling(b: seq<byte>) returns (chunks: seq<Chunk>, residue: seq<byte>)
    requires ParseAvpList(b).Ok?
    ensures AllValid(chunks) && |residue| < AVP_HEADER_LEN
    ensures b == ChunksBytes(chunks) + residue
    ensures ParseAvpList(b) == Ok(ChunksAvps(chunks))
    decreases |b|
  {
    hide NextChunk, Chunk.ToBytes, Chunk.Valid, Chunk.Avps;
    if |b| < AVP_HEADER_LEN {
      chunks, residue := [], b;
    } else {
      var chunk := NextChunk(b).value;
      var rest := b[|chunk.ToBytes()|..];
      var tail;
      tail, residue := ParseTiling(rest);
      chunks := [chunk] + tail;
      assert chunks[1..] == tail;
      assert b == chunk.ToBytes() + (ChunksBytes(tail) + residue);
    }
  }

  /** An AVP that must be known and is not. */
  predicate UnknownMandatory(h: AvpHeader) {
    GetAvpInfo(h.avpType, h.vendorId).Err? && h.IsMandatory()
  }

  /** A buffer in which such an AVP follows what the parser can use is refused for it. */
  lemma {:induction false} MandatoryRefused(chunks: seq<Chunk>, h: AvpHeader, rest: seq<byte>)
    requires AllValid(chunks) && UnknownMandatory(h)
    ensures ParseAvpList(ChunksBytes(chunks) + (HeaderBytes(h) + rest)) == Err(UnknownMandatoryAvp)
  {
    hide NextChunk, Chunk.ToBytes, Chunk.Avps, Chunk.Valid, UnknownMandatory, HeaderBytes;
    var end := HeaderBytes(h) + rest;
    if chunks == [] {
      assert ChunksBytes(chunks) + end == end;
      RefusedAtOnce(h, rest);
    } else {
      var tail := ChunksBytes(chunks[1..]) + end;
      MandatoryRefused(chunks[1..], h, rest);
      ParseOneMore(chunks[0], tail);
      assert ChunksBytes(chunks) + end == chunks[0].ToBytes() + tail;
    }
  }

  lemma {:induction false} RefusedAtOnce(h: AvpHeader, rest: seq<byte>)
    requires UnknownMandatory(h)
    ensures ParseAvpList(HeaderBytes(h) + rest) == Err(UnknownMandatoryAvp)
  {
    ReadHeaderBytes(h, rest);
  }

  /** Conversely only such a buffer is refused for that reason. */
  lemma {:induction false} RefusedForMandatory(b: seq<byte>) returns (chunks: seq<Chunk>, h: AvpHeader, rest: seq<byte>)
    requires ParseAvpList(b) == Err(UnknownMandatoryAvp)
    ensures AllValid(chunks) && UnknownMandatory(h) && b == ChunksBytes(chunks) + (HeaderBytes(h) + rest)
    decreases |b|
  {
    hide Chunk.ToBytes, Chunk.Valid, Chunk.Avps, HeaderBytes;
    match NextChunk(b)
    case Err(_) =>
      chunks, h, rest := [], ReadHeader(b), b[AVP_HEADER_LEN..];
      assert b == HeaderBytes(h) + rest;
    case Ok(chunk) =>
      var tail;
      tail, h, rest := RefusedForMandatory(b[|chunk.ToBytes()|..]);
      chunks := [chunk] + tail;
      assert chunks[1..] == tail;
      assert b == chunk.ToBytes() + (ChunksBytes(tail) + (HeaderBytes(h) + rest));
  }

  /** Chunks that were all taken are the bytes of their AVPs. */
  lemma {:induction false} TiledBytes(chunks: seq<Chunk>)
    ensures (forall i :: 0 <= i < |chunks| ==> chunks[i].Taken?) ==> AvpsBytes(ChunksAvps(chunks)) == ChunksBytes(chunks)
  {
    if chunks != [] && chunks[0].Taken? {
      TiledBytes(chunks[1..]);
      assert ChunksAvps(chunks)[1..] == ChunksAvps(chunks[1..]);
    }
  }

  /** Every skipped header is missing from the bytes of the AVPs. */
  lemma {:induction false} SkippedBytes(chunks: seq<Chunk>)
    ensures |AvpsBytes(ChunksAvps(chunks))| <= |ChunksBytes(chunks)|
    ensures |AvpsBytes(ChunksAvps(chunks))| == |ChunksBytes(chunks)| ==> forall i :: 0 <= i < |chunks| ==> chunks[i].Taken?
  {
    if chunks != [] {
      SkippedBytes(chunks[1..]);
      if chunks[0].Taken? {
        assert ChunksAvps(chunks)[1..] == ChunksAvps(chunks[1..]);
      } else {
        assert ChunksAvps(chunks) == ChunksAvps(chunks[1..]);
      }
    }
  }

  /** Parsing undoes encoding on every list of well-formed AVPs. */
  lemma {:induction false} ParseAvpsBytes(avps: seq<Avp>)
    requires AllWellFormed(avps)
    ensures ParseAvpList(AvpsBytes(avps)) == Ok(avps)
  {
    hide ParseAvpList, AvpBytes, WellFormed;
    if avps == [] {
      ParseNothing();
    } else {
      var chunk := Taken(avps[0]);
      ParseAvpsBytes(avps[1..]);
      assert chunk.Valid() && chunk.ToBytes() == AvpBytes(avps[0]);
      ParseOneMore(chunk, AvpsBytes(avps[1..]));
      assert avps == [avps[0]] + avps[1..];
    }
  }

  lemma {:induction false} ParseNothing()
    ensures ParseAvpList([]) == Ok([])
  {
  }

  /** The parser never invents bytes, and everything it returns is well formed. */
  lemma {:induction false} ParsedIsWellFormed(b: seq<byte>)
    requires ParseAvpList(b).Ok?
    ensures AllWellFormed(ParseAvpList(b).value)
    ensures |AvpsBytes(ParseAvpList(b).value)| <= |b|
    decreases |b|
  {
    if |b| >= AVP_HEADER_LEN {
      var chunk := NextChunk(b).value;
      var rest := b[|chunk.ToBytes()|..];
      ParsedIsWellFormed(rest);
      var tail := ParseAvpList(rest).value;
      var all := chunk.Avps() + tail;
      if chunk.Taken? {
        assert all[1..] == tail;
      } else {
        assert all == tail;
      }
    }
  }

  /** What the Length fields add up to. */
  function LengthSum(avps: seq<Avp>): nat {
    if avps == [] then 0 else avps[0].header.TotalLen() + LengthSum(avps[1..])
  }

  lemma {:induction false} LengthSumIsBytes(avps: seq<Avp>)
    requires AllWellFormed(avps)
    ensures LengthSum(avps) == |AvpsBytes(avps)| <= 0x3ff * |avps|
  {
    if avps != [] {
      LengthSumIsBytes(avps[1..]);
    }
  }

  /** The sum of the Length fields; where each counts its own bytes, the bytes encoded. */
  method AvpsLengthBytes(avps: seq<Avp>) returns (nb: nat)
    ensures nb == LengthSum(avps)
    ensures AllWellFormed(avps) ==> nb == |AvpsBytes(avps)|
  {
    nb := 0;
    assert avps[0..] == avps;
    for i := 0 to |avps|
      invariant nb + LengthSum(avps[i..]) == LengthSum(avps)
    {
      assert avps[i..][1..] == avps[i + 1..];
      nb := nb + avps[i].header.TotalLen();
    }
    if AllWellFormed(avps) {
      LengthSumIsBytes(avps);
    }
  }
}
