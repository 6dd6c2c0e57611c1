/** Machine integers, big-endian fields and the result type shared by the codec. */
module Wire {

  type byte = x: int | 0 <= x < 0x100
  type u16 = x: int | 0 <= x < 0x1_0000
  type u32 = x: int | 0 <= x < 0x1_0000_0000
  type u64 = x: int | 0 <= x < 0x1_0000_0000_0000_0000

  /** The ways the codec refuses its input.  RuntimePanic marks the inputs on which
      the Go code does not return an error but panics (slice bounds, explicit panic). */
  datatype Error =
    | UnknownMandatoryAvp
    | UnknownAvp
    | AvpExceedsBuffer
    | NoAvps
    | NotMessageType
    | MessageExceedsBuffer
    | BadVersion
    | ShortRead
    | PayloadTooLong
    | WrongDataType
    | Unsupported
    | NoSuchAvp
    | NoSpec
    | UnexpectedAvp
    | MissingAvp
    | IdOutOfRange
    | RuntimePanic

  datatype Result<+T> = Ok(value: T) | Err(error: Error) {
    predicate IsFailure() { Err? }
    function PropagateFailure<U>(): Result<U>
      requires Err?
    {
      Err(error)
    }
    function Extract(): T
      requires Ok?
    {
      value
    }
  }

  datatype Option<+T> = None | Some(value: T)

  function PutU16(x: u16): (b: seq<byte>)
    ensures |b| == 2
  {
    [x / 0x100, x % 0x100]
  }

  function GetU16(b: seq<byte>): (x: u16)
    requires |b| >= 2
    ensures PutU16(x) == b[..2]
  {
    var hi: int, lo: int := b[0], b[1];
    hi * 0x100 + lo
  }

  function PutU32(x: u32): (b: seq<byte>)
    ensures |b| == 4
  {
    PutU16(x / 0x1_0000) + PutU16(x % 0x1_0000)
  }

  function GetU32(b: seq<byte>): (x: u32)
    requires |b| >= 4
    ensures PutU32(x) == b[..4]
  {
    var hi: int, lo: int := GetU16(b), GetU16(b[2..]);
    var x: u32 := hi * 0x1_0000 + lo;
    assert x / 0x1_0000 == hi && x % 0x1_0000 == lo;
    assert PutU32(x) == PutU16(hi) + PutU16(lo);
    assert PutU16(lo) == b[2..4];
    x
  }

  function PutU64(x: u64): (b: seq<byte>)
    ensures |b| == 8
  {
    PutU32(x / 0x1_0000_0000) + PutU32(x % 0x1_0000_0000)
  }

  function GetU64(b: seq<byte>): (x: u64)
    requires |b| >= 8
    ensures PutU64(x) == b[..8]
  {
    var hi: int, lo: int := GetU32(b), GetU32(b[4..]);
    var x: u64 := hi * 0x1_0000_0000 + lo;
    assert x / 0x1_0000_0000 == hi && x % 0x1_0000_0000 == lo;
    assert PutU64(x) == PutU32(hi) + PutU32(lo);
    assert PutU32(lo) == b[4..8];
    x
  }

  // Reading a field back from the front of a buffer yields the value written.

  lemma {:induction false} GetPutU16(x: u16, rest: seq<byte>)
    ensures GetU16(PutU16(x) + rest) == x
  {
  }

  lemma {:induction false} GetPutU32(x: u32, rest: seq<byte>)
    ensures GetU32(PutU32(x) + rest) == x
  {
  }

  lemma {:induction false} GetPutU64(x: u64, rest: seq<byte>)
    ensures GetU64(PutU64(x) + rest) == x
  {
  }
}
