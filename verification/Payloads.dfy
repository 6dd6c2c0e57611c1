/** Typed AVP payloads: encoding a value, decoding it again, and looking values up. */
module Payloads {
  import opened Wire
  import opened Avps

  // ---------------------------------------------------------------------------
  // Decoding.  Fixed-width readers refuse longer payloads; shorter ones are short reads.

  function ToUint16(data: seq<byte>): Result<u16> {
    if |data| > 2 then Err(PayloadTooLong) else if |data| < 2 then Err(ShortRead) else Ok(GetU16(data))
  }

  function ToUint32(data: seq<byte>): Result<u32> {
    if |data| > 4 then Err(PayloadTooLong) else if |data| < 4 then Err(ShortRead) else Ok(GetU32(data))
  }

  function ToUint64(data: seq<byte>): Result<u64> {
    if |data| > 8 then Err(PayloadTooLong) else if |data| < 8 then Err(ShortRead) else Ok(GetU64(data))
  }

  /** The error code and the message are each optional on the wire. */
  function ToResultCode(data: seq<byte>): Result<ResultCode> {
    if |data| < 2 then Err(ShortRead)
    else if |data| == 2 then Ok(ResultCode(GetU16(data), 0, []))
    else if |data| < 4 then Err(ShortRead)
    else Ok(ResultCode(GetU16(data), GetU16(data[2..]), data[4..]))
  }

  function Decode(a: Avp): Result<Value> {
    match a.dataType
    case Empty => Ok(VNothing)
    case Uint16 => var x :- ToUint16(a.data); Ok(VUint16(x))
    case Uint32 => var x :- ToUint32(a.data); Ok(VUint32(x))
    case Uint64 => var x :- ToUint64(a.data); Ok(VUint64(x))
    case String => Ok(VString(a.data))
    case Bytes => Ok(VBytes(a.data))
    case ResultCodeData => var x :- ToResultCode(a.data); Ok(VResultCode(x))
    case MsgId => var x :- ToUint16(a.data); Ok(VMsgType(x))
    case _ => Err(Unsupported)
  }

  function DecodeUint16Data(a: Avp): Result<u16> {
    if a.dataType != Uint16 then Err(WrongDataType) else ToUint16(a.data)
  }

  function DecodeUint32Data(a: Avp): Result<u32> {
    if a.dataType != Uint32 then Err(WrongDataType) else ToUint32(a.data)
  }

  function DecodeStringData(a: Avp): Result<seq<byte>> {
    if a.dataType != String then Err(WrongDataType) else Ok(a.data)
  }

  function DecodeResultCode(a: Avp): Result<ResultCode> {
    if a.dataType != ResultCodeData then Err(WrongDataType) else ToResultCode(a.data)
  }

  function DecodeMsgType(a: Avp): Result<u16> {
    if a.dataType != MsgId then Err(WrongDataType) else ToUint16(a.data)
  }

  // ---------------------------------------------------------------------------
  // Encoding

  function EncodeResultCode(rc: ResultCode): seq<byte> {
    PutU16(rc.result) + PutU16(rc.errCode) + rc.errMsg
  }

  /** An Empty AVP cannot be built: the source leaves its type check failed. */
  function EncodePayload(dataType: DataType, value: Value): Result<seq<byte>> {
    match (dataType, value)
    case (Uint16, VUint16(x)) => Ok(PutU16(x))
    case (Uint32, VUint32(x)) => Ok(PutU32(x))
    case (Uint64, VUint64(x)) => Ok(PutU64(x))
    case (String, VString(s)) => Ok(s)
    case (Bytes, VBytes(s)) => Ok(s)
    case (MsgId, VMsgType(t)) => Ok(PutU16(t))
    case (ResultCodeData, VResultCode(rc)) => Ok(EncodeResultCode(rc))
    case (Unimplemented, _) => Err(Unsupported)
    case (Illegal, _) => Err(Unsupported)
    case _ => Err(WrongDataType)
  }

  function NewAvp(vendorId: u16, avpType: u16, value: Value): Result<Avp> {
    var info :- GetAvpInfo(avpType, vendorId);
    var data :- EncodePayload(info.dataType, value);
    Ok(Avp(NewAvpHeader(info.isMandatory, false, |data|, vendorId, avpType), info.dataType, data))
  }

  // ---------------------------------------------------------------------------
  // Round trips

  /** Decoding undoes encoding on every result code; encoding undoes decoding on every
      payload that spells out its error code. */
  lemma {:induction false} ResultCodeRoundTrip(rc: ResultCode, data: seq<byte>)
    ensures ToResultCode(EncodeResultCode(rc)) == Ok(rc)
    ensures ToResultCode(data).Ok? && EncodeResultCode(ToResultCode(data).value) == data <==> |data| >= 4
  {
  }

  /** Which data type a value belongs to. */
  predicate Matches(dataType: DataType, value: Value) {
    match value
    case VUint16(_) => dataType == Uint16
    case VUint32(_) => dataType == Uint32
    case VUint64(_) => dataType == Uint64
    case VString(_) => dataType == String
    case VBytes(_) => dataType == Bytes
    case VResultCode(_) => dataType == ResultCodeData
    case VMsgType(_) => dataType == MsgId
    case VNothing => false
  }

  /** An AVP is built exactly from a known type and a value of that type's data type.  It
      then decodes to the value, carries the table's mandatory bit, is not hidden, and is
      well formed exactly when its payload fits the ten-bit Length. */
  lemma {:induction false} NewAvpDecodes(vendorId: u16, avpType: u16, value: Value)
    ensures var r := NewAvp(vendorId, avpType, value);
            && (r.Ok? <==> vendorId == VENDOR_IETF && avpType < AVP_TYPE_MAX && Matches(TableDataType(avpType), value))
            && (r.Ok? ==>
                  var a := r.value;
                  && Decode(a) == Ok(value)
                  && a.header.avpType == avpType && a.header.vendorId == vendorId
                  && a.header.IsMandatory() == TableMandatory(avpType) && !a.header.IsHidden()
                  && (WellFormed(a) <==> |a.data| <= MAX_PAYLOAD))
  {
    var r := NewAvp(vendorId, avpType, value);
    if vendorId == VENDOR_IETF && avpType < AVP_TYPE_MAX {
      var dataType := TableDataType(avpType);
      EncodeDecodes(dataType, value, NewAvpHeader(TableMandatory(avpType), false, if r.Ok? then |r.value.data| else 0, vendorId, avpType));
      hide TableDataType, TableMandatory, EncodePayload, Matches, Decode, NewAvpHeader, AvpHeader.IsMandatory, AvpHeader.IsHidden;
      if r.Ok? {
        HeaderRoundTrip(TableMandatory(avpType), false, |r.value.data|, vendorId, avpType);
      }
    }
  }

  /** Encoding succeeds exactly on values of the data type, and decoding undoes it. */
  lemma {:induction false} EncodeDecodes(dataType: DataType, value: Value, h: AvpHeader)
    ensures EncodePayload(dataType, value).Ok? <==> Matches(dataType, value)
    ensures Matches(dataType, value) ==> Decode(Avp(h, dataType, EncodePayload(dataType, value).value)) == Ok(value)
  {
    hide PutU16, PutU32, PutU64, GetU16, GetU32, GetU64, EncodeResultCode, ToResultCode;
    match value
    case VUint16(x) => GetPutU16(x, []); assert PutU16(x) + [] == PutU16(x);
    case VUint32(x) => GetPutU32(x, []); assert PutU32(x) + [] == PutU32(x);
    case VUint64(x) => GetPutU64(x, []); assert PutU64(x) + [] == PutU64(x);
    case VMsgType(x) => GetPutU16(x, []); assert PutU16(x) + [] == PutU16(x);
    case VResultCode(rc) => ResultCodeRoundTrip(rc, []);
    case _ =>
  }

  // ---------------------------------------------------------------------------
  // Looking AVPs up

  predicate Is(a: Avp, vendorId: u16, avpType: u16) {
    a.header.vendorId == vendorId && a.header.avpType == avpType
  }

  function FindAvp(avps: seq<Avp>, vendorId: u16, avpType: u16): (r: Result<Avp>)
    ensures r.Ok? <==> exists i :: 0 <= i < |avps| && Is(avps[i], vendorId, avpType)
    ensures r.Ok? ==> r.value in avps && Is(r.value, vendorId, avpType)
  {
    if avps == [] then Err(NoSuchAvp)
    else if Is(avps[0], vendorId, avpType) then Ok(avps[0])
    else
      var r := FindAvp(avps[1..], vendorId, avpType);
      assert r.Ok? ==> exists i :: 0 <= i < |avps[1..]| && Is(avps[1..][i], vendorId, avpType);
      assert forall i :: 0 < i < |avps| ==> avps[i] == avps[1..][i - 1];
      r
  }

  /** The search returns the first AVP of that vendor and type. */
  method SearchAvp(avps: seq<Avp>, vendorId: u16, avpType: u16) returns (r: Result<Avp>)
    ensures r == FindAvp(avps, vendorId, avpType)
    ensures r.Ok? ==> exists i :: 0 <= i < |avps| && avps[i] == r.value && Is(avps[i], vendorId, avpType)
                                  && forall j :: 0 <= j < i ==> !Is(avps[j], vendorId, avpType)
  {
    assert avps[0..] == avps;
    for i := 0 to |avps|
      invariant forall j :: 0 <= j < i ==> !Is(avps[j], vendorId, avpType)
      invariant FindAvp(avps, vendorId, avpType) == FindAvp(avps[i..], vendorId, avpType)
    {
      if Is(avps[i], vendorId, avpType) {
        return Ok(avps[i]);
      }
      assert avps[i..][1..] == avps[i + 1..];
    }
    return Err(NoSuchAvp);
  }

  function FindUint16Avp(avps: seq<Avp>, vendorId: u16, avpType: u16): Result<u16> {
    var a :- FindAvp(avps, vendorId, avpType);
    DecodeUint16Data(a)
  }

  function FindUint32Avp(avps: seq<Avp>, vendorId: u16, avpType: u16): Result<u32> {
    var a :- FindAvp(avps, vendorId, avpType);
    DecodeUint32Data(a)
  }

  /** The data type is not looked at. */
  function FindBytesAvp(avps: seq<Avp>, vendorId: u16, avpType: u16): Result<seq<byte>> {
    var a :- FindAvp(avps, vendorId, avpType);
    Ok(a.data)
  }

  function FindStringAvp(avps: seq<Avp>, vendorId: u16, avpType: u16): Result<seq<byte>> {
    var a :- FindAvp(avps, vendorId, avpType);
    DecodeStringData(a)
  }

  function FindResultCodeAvp(avps: seq<Avp>, vendorId: u16, avpType: u16): Result<ResultCode> {
    var a :- FindAvp(avps, vendorId, avpType);
    DecodeResultCode(a)
  }
}
