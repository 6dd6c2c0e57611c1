/** The message builders: what every newV2* function produces, for every configuration. */
module Builders {
  import opened Wire
  import opened Avps
  import opened Payloads
  import opened Messages
  import opened Validation

  const V2_ID_MAX := 0xffff

  datatype TunnelConfig = TunnelConfig(hostName: seq<byte>, framingCaps: u32, tunnelId: u32, peerTunnelId: u32)
  datatype SessionConfig = SessionConfig(sessionId: u32, peerSessionId: u32)

  /** An AVP still to be built: its type and the value handed to newAvp. */
  datatype AvpIn = AvpIn(avpType: u16, value: Value)

  // ---------------------------------------------------------------------------
  // Assembling a message

  function NewV2ControlMessage(tid: u32, sid: u32): Result<ControlMessage> {
    if tid > V2_ID_MAX || sid > V2_ID_MAX then Err(IdOutOfRange)
    else Ok(V2(0xc802, HEADER_LEN, tid, sid, 0, 0, []))
  }

  /** The length is kept in sixteen bits. */
  function Wrap(x: nat): u16 {
    x % 0x1_0000
  }

  function AppendAvp(m: ControlMessage, a: Avp): ControlMessage {
    m.(avps := m.avps + [a], len := Wrap(m.len + a.header.TotalLen()))
  }

  function AppendAll(m: ControlMessage, ins: seq<AvpIn>): Result<ControlMessage>
    decreases |ins|
  {
    if ins == [] then Ok(m)
    else
      var a :- NewAvp(VENDOR_IETF, ins[0].avpType, ins[0].value);
      AppendAll(AppendAvp(m, a), ins[1..])
  }

  function Build(ptid: u32, psid: u32, ins: seq<AvpIn>): Result<ControlMessage> {
    var m :- NewV2ControlMessage(ptid, psid);
    AppendAll(m, ins)
  }

  method BuildV2Msg(ptid: u32, psid: u32, ins: seq<AvpIn>) returns (r: Result<ControlMessage>)
    ensures r == Build(ptid, psid, ins)
  {
    r := NewV2ControlMessage(ptid, psid);
    if r.Err? {
      return;
    }
    assert ins[0..] == ins;
    for i := 0 to |ins|
      invariant r.Ok?
      invariant Build(ptid, psid, ins) == AppendAll(r.value, ins[i..])
    {
      assert ins[i..][1..] == ins[i + 1..];
      var a := NewAvp(VENDOR_IETF, ins[i].avpType, ins[i].value);
      if a.Err? {
        return Err(a.error);
      }
      r := Ok(AppendAvp(r.value, a.value));
    }
  }

  predicate Buildable(i: AvpIn) {
    i.avpType < AVP_TYPE_MAX && Matches(TableDataType(i.avpType), i.value)
  }

  function PayloadLen(v: Value): nat {
    match v
    case VUint16(_) => 2
    case VUint32(_) => 4
    case VUint64(_) => 8
    case VString(s) => |s|
    case VBytes(s) => |s|
    case VResultCode(rc) => 4 + |rc.errMsg|
    case VMsgType(_) => 2
    case VNothing => 0
  }

  predicate Fits(i: AvpIn) {
    PayloadLen(i.value) <= MAX_PAYLOAD
  }

  function BuiltAvp(i: AvpIn): (a: Avp)
    requires Buildable(i)
    ensures NewAvp(VENDOR_IETF, i.avpType, i.value) == Ok(a)
    ensures Is(a, VENDOR_IETF, i.avpType) && Decode(a) == Ok(i.value)
    ensures WellFormed(a) <==> Fits(i)
  {
    NewAvpDecodes(VENDOR_IETF, i.avpType, i.value);
    NewAvp(VENDOR_IETF, i.avpType, i.value).value
  }

  predicate AllBuildable(ins: seq<AvpIn>) {
    forall i :: 0 <= i < |ins| ==> Buildable(ins[i])
  }

  /** Each input's AVP, in order. */
  function BuiltAvps(ins: seq<AvpIn>): (avps: seq<Avp>)
    requires AllBuildable(ins)
    ensures |avps| == |ins|
    ensures forall i :: 0 <= i < |ins| ==> avps[i] == BuiltAvp(ins[i])
  {
    if ins == [] then [] else [BuiltAvp(ins[0])] + BuiltAvps(ins[1..])
  }

  /** A message extended by a list of AVPs. */
  function Extended(m: ControlMessage, avps: seq<Avp>): ControlMessage
    requires m.V2?
  {
    V2(m.flagsVer, Wrap(m.len + LengthSum(avps)), m.tid, m.sid, m.ns, m.nr, m.avps + avps)
  }

  lemma {:induction false} ExtendTwice(m: ControlMessage, avps: seq<Avp>)
    requires m.V2? && avps != []
    ensures AppendAvp(m, avps[0]).V2? && Extended(AppendAvp(m, avps[0]), avps[1..]) == Extended(m, avps)
  {
  }

  lemma {:induction false} AppendAllBuilds(m: ControlMessage, ins: seq<AvpIn>)
    requires AllBuildable(ins) && m.V2?
    ensures AppendAll(m, ins) == Ok(Extended(m, BuiltAvps(ins)))
    decreases |ins|
  {
    hide NewAvp, BuiltAvp, Decode, WellFormed, AppendAvp;
    var avps := BuiltAvps(ins);
    if ins == [] {
      AddWraps(m.len, 0, 0);
      assert m.avps + [] == m.avps;
    } else {
      hide Extended;
      ExtendTwice(m, avps);
      assert avps[1..] == BuiltAvps(ins[1..]);
      AppendAllBuilds(AppendAvp(m, avps[0]), ins[1..]);
    }
  }

  lemma {:induction false} AddWraps(x: nat, a: nat, b: nat)
    ensures Wrap(Wrap(x + a) + b) == Wrap(x + (a + b))
    ensures x < 0x1_0000 ==> Wrap(x) == x
  {
  }

  /** A builder's AVP list, led by the message type, that its specification covers. */
  predicate GoodInputs(ins: seq<AvpIn>, msgType: u16) {
    && 0 < |ins| <= 60
    && ins[0] == AvpIn(AVP_MESSAGE, VMsgType(msgType))
    && AllBuildable(ins)
    && V2Must(msgType).Some?
    && (forall i :: 0 <= i < |ins| ==> ins[i].avpType in V2Must(msgType).value)
    && (forall t :: t in V2Must(msgType).value ==> Supplies(ins, t))
  }

  predicate Supplies(ins: seq<AvpIn>, t: u16) {
    exists i :: 0 <= i < |ins| && ins[i].avpType == t
  }

  /** From good inputs a message is built exactly when the IDs fit sixteen bits.  It has
      the announced type, validates, decodes to its inputs, and survives the wire exactly
      when every payload fits; its Len field is then the number of bytes printed. */
  lemma {:induction false} BuiltMessage(ptid: u32, psid: u32, ins: seq<AvpIn>, msgType: u16)
    requires GoodInputs(ins, msgType)
    ensures var r := Build(ptid, psid, ins);
            && (r.Ok? <==> ptid <= V2_ID_MAX && psid <= V2_ID_MAX)
            && (r.Ok? ==>
                  var m := r.value;
                  && m.V2? && m.tid == ptid && m.sid == psid && m.avps == BuiltAvps(ins)
                  && m.GetType() == Ok(msgType) && Validates(m)
                  && (m.WellFormed() <==> forall i :: 0 <= i < |ins| ==> Fits(ins[i]))
                  && (m.WellFormed() ==> m.len == |m.ToBytes()|))
  {
    if ptid <= V2_ID_MAX && psid <= V2_ID_MAX {
      BuildsMessage(ptid, psid, ins);
      BuiltSurvives(ptid, psid, ins);
      AssembledValidates(ptid, psid, ins, msgType);
    }
    hide AppendAll, Assembled, BuiltAvps, Fits, V2Must, Validates, ControlMessage.GetType, ControlMessage.WellFormed,
      ControlMessage.ToBytes, AllBuildable;
  }

  /** The message assembled from these inputs. */
  function Assembled(ptid: u16, psid: u16, ins: seq<AvpIn>): ControlMessage
    requires AllBuildable(ins)
  {
    Extended(V2(0xc802, HEADER_LEN, ptid, psid, 0, 0, []), BuiltAvps(ins))
  }

  lemma {:induction false} BuildsMessage(ptid: u16, psid: u16, ins: seq<AvpIn>)
    requires AllBuildable(ins)
    ensures Build(ptid, psid, ins) == Ok(Assembled(ptid, psid, ins))
  {
    hide NewAvp, BuiltAvps, AppendAll, AllBuildable, Extended;
    AppendAllBuilds(NewV2ControlMessage(ptid, psid).value, ins);
  }

  lemma {:induction false} AssembledFields(ptid: u16, psid: u16, ins: seq<AvpIn>)
    requires AllBuildable(ins)
    ensures Assembled(ptid, psid, ins) == V2(0xc802, Wrap(HEADER_LEN + LengthSum(BuiltAvps(ins))), ptid, psid, 0, 0, BuiltAvps(ins))
  {
  }

  lemma {:induction false} AssembledValidates(ptid: u16, psid: u16, ins: seq<AvpIn>, msgType: u16)
    requires GoodInputs(ins, msgType)
    ensures var m := Assembled(ptid, psid, ins);
            m.GetType() == Ok(msgType) && Validates(m)
  {
    hide Assembled, BuiltAvps, LengthSum, Acceptable, DecodeMsgType, MakeSpec, V2Must, V2May, AllBuildable;
    AssembledFields(ptid, psid, ins);
    BuiltAvpsAccepted(ins, msgType);
  }

  lemma {:induction false} BuiltSurvives(ptid: u16, psid: u16, ins: seq<AvpIn>)
    requires AllBuildable(ins) && 0 < |ins| <= 60 && ins[0].avpType == AVP_MESSAGE
    ensures var m := Assembled(ptid, psid, ins);
            && (m.WellFormed() <==> forall i :: 0 <= i < |ins| ==> Fits(ins[i]))
            && (m.WellFormed() ==> m.len == |m.ToBytes()|)
            && m.V2? && m.tid == ptid && m.sid == psid && m.avps == BuiltAvps(ins)
  {
    hide Assembled, NewAvp, BuiltAvp, BuiltAvps, Decode, AllWellFormed, LengthSum, Fits, AvpsBytes, ControlMessage.HeaderBytes;
    AssembledFields(ptid, psid, ins);
    var avps := BuiltAvps(ins);
    BuiltWellFormed(ins);
    assert avps[0].header.avpType == AVP_MESSAGE;
    if AllWellFormed(avps) {
      LengthSumIsBytes(avps);
    }
  }

  lemma {:induction false} BuiltWellFormed(ins: seq<AvpIn>)
    requires AllBuildable(ins)
    ensures AllWellFormed(BuiltAvps(ins)) <==> forall i :: 0 <= i < |ins| ==> Fits(ins[i])
  {
  }

  lemma {:induction false} BuiltAvpsAccepted(ins: seq<AvpIn>, msgType: u16)
    requires GoodInputs(ins, msgType)
    ensures var avps := BuiltAvps(ins);
            && avps[0].header.avpType == AVP_MESSAGE && DecodeMsgType(avps[0]) == Ok(msgType)
            && Acceptable(avps, GetV2Spec(msgType).value)
  {
    hide NewAvp, BuiltAvp, Decode, WellFormed, V2Must, V2May;
    var avps, spec := BuiltAvps(ins), GetV2Spec(msgType).value;
    forall i | 0 <= i < |ins|
      ensures avps[i].header.avpType == ins[i].avpType && Decode(avps[i]) == Ok(ins[i].value)
    {
    }
    forall t | t in spec && spec[t] == MustExist
      ensures Present(avps, t)
    {
      assert Supplies(ins, t);
      var i :| 0 <= i < |ins| && ins[i].avpType == t;
      assert avps[i].header.avpType == t;
    }
    FirstIsMsgType(avps[0], msgType);
  }

  lemma {:induction false} FirstIsMsgType(a: Avp, msgType: u16)
    requires Decode(a) == Ok(VMsgType(msgType))
    ensures DecodeMsgType(a) == Ok(msgType)
  {
  }

  // ---------------------------------------------------------------------------
  // The builders

  datatype Request =
    | Sccrq(cfg: TunnelConfig)
    | Sccrp(cfg: TunnelConfig)
    | Scccn(cfg: TunnelConfig)
    | Stopccn(rc: ResultCode, cfg: TunnelConfig)
    | Hello(cfg: TunnelConfig)
    | Icrq(callSerial: u32, ptid: u32, scfg: SessionConfig)
    | Icrp(ptid: u32, scfg: SessionConfig)
    | Iccn(ptid: u32, scfg: SessionConfig)
    | Cdn(ptid: u32, rc: ResultCode, scfg: SessionConfig)
  {
    function MsgType(): u16 {
      match this
      case Sccrq(_) => MSG_SCCRQ
      case Sccrp(_) => MSG_SCCRP
      case Scccn(_) => MSG_SCCCN
      case Stopccn(_, _) => MSG_STOPCCN
      case Hello(_) => MSG_HELLO
      case Icrq(_, _, _) => MSG_ICRQ
      case Icrp(_, _) => MSG_ICRP
      case Iccn(_, _) => MSG_ICCN
      case Cdn(_, _, _) => MSG_CDN
    }

    function PeerTid(): u32 {
      match this
      case Sccrq(_) => 0
      case Sccrp(cfg) => cfg.peerTunnelId
      case Scccn(cfg) => cfg.peerTunnelId
      case Stopccn(_, cfg) => cfg.peerTunnelId
      case Hello(cfg) => cfg.peerTunnelId
      case Icrq(_, ptid, _) => ptid
      case Icrp(ptid, _) => ptid
      case Iccn(ptid, _) => ptid
      case Cdn(ptid, _, _) => ptid
    }

    function PeerSid(): u32 {
      match this
      case Icrp(_, scfg) => scfg.peerSessionId
      case Iccn(_, scfg) => scfg.peerSessionId
      case Cdn(_, _, scfg) => scfg.peerSessionId
      case _ => 0
    }

    /** Local IDs are truncated to sixteen bits. */
    function Inputs(): seq<AvpIn> {
      [AvpIn(AVP_MESSAGE, VMsgType(MsgType()))] +
      match this
      case Sccrq(cfg) =>
        [AvpIn(AVP_PROTOCOL_VERSION, VBytes([1, 0])), AvpIn(AVP_HOST_NAME, VString(cfg.hostName)),
         AvpIn(AVP_FRAMING_CAP, VUint32(cfg.framingCaps)), AvpIn(AVP_TUNNEL_ID, VUint16(cfg.tunnelId % 0x1_0000))]
      case Sccrp(cfg) =>
        [AvpIn(AVP_PROTOCOL_VERSION, VBytes([1, 0])), AvpIn(AVP_FRAMING_CAP, VUint32(cfg.framingCaps)),
         AvpIn(AVP_HOST_NAME, VString(cfg.hostName)), AvpIn(AVP_TUNNEL_ID, VUint16(cfg.tunnelId % 0x1_0000))]
      case Scccn(_) => []
      case Stopccn(rc, cfg) =>
        [AvpIn(AVP_TUNNEL_ID, VUint16(cfg.tunnelId % 0x1_0000)), AvpIn(AVP_RESULT_CODE, VResultCode(rc))]
      case Hello(_) => []
      case Icrq(serial, _, scfg) =>
        [AvpIn(AVP_SESSION_ID, VUint16(scfg.sessionId % 0x1_0000)), AvpIn(AVP_CALL_SERIAL, VUint32(serial))]
      case Icrp(_, scfg) =>
        [AvpIn(AVP_SESSION_ID, VUint16(scfg.sessionId % 0x1_0000))]
      case Iccn(_, _) =>
        [AvpIn(AVP_CONNECT_SPEED, VUint32(0)), AvpIn(AVP_FRAMING_TYPE, VUint32(3))]
      case Cdn(_, rc, scfg) =>
        [AvpIn(AVP_RESULT_CODE, VResultCode(rc)), AvpIn(AVP_SESSION_ID, VUint16(scfg.sessionId % 0x1_0000))]
    }

    function Message(): Result<ControlMessage> {
      Build(PeerTid(), PeerSid(), Inputs())
    }

    /** The only payloads of unbounded length are the host name and the error message. */
    predicate TextFits() {
      match this
      case Sccrq(cfg) => |cfg.hostName| <= MAX_PAYLOAD
      case Sccrp(cfg) => |cfg.hostName| <= MAX_PAYLOAD
      case Stopccn(rc, _) => |rc.errMsg| <= MAX_PAYLOAD - 4
      case Cdn(_, rc, _) => |rc.errMsg| <= MAX_PAYLOAD - 4
      case _ => true
    }
  }

  lemma {:induction false} InputsAreGood(req: Request)
    ensures GoodInputs(req.Inputs(), req.MsgType())
  {
    InputsCover(req);
    hide Supplies;
  }

  lemma {:induction false} InputsCover(req: Request)
    ensures var ins, must := req.Inputs(), V2Must(req.MsgType()).value;
            && (forall i :: 0 <= i < |ins| ==> ins[i].avpType in must)
            && (forall t :: t in must ==> Supplies(ins, t))
  {
    var ins := req.Inputs();
    assert Supplies(ins, ins[0].avpType);
    assert |ins| > 1 ==> Supplies(ins, ins[1].avpType);
    assert |ins| > 2 ==> Supplies(ins, ins[2].avpType);
    assert |ins| > 3 ==> Supplies(ins, ins[3].avpType);
    assert |ins| > 4 ==> Supplies(ins, ins[4].avpType);
  }

  lemma {:induction false} InputsFit(req: Request)
    ensures (forall i :: 0 <= i < |req.Inputs()| ==> Fits(req.Inputs()[i])) <==> req.TextFits()
  {
    var ins := req.Inputs();
    assert req.Sccrq? ==> ins[2].value == VString(req.cfg.hostName);
    assert req.Sccrp? ==> ins[3].value == VString(req.cfg.hostName);
    assert req.Stopccn? ==> ins[2].value == VResultCode(req.rc);
    assert req.Cdn? ==> ins[1].value == VResultCode(req.rc);
  }

  /** Every builder, for every configuration, serial and result code: a message results
      exactly when the peer's IDs fit sixteen bits; it has the builder's type and
      validates; and parsing what it prints returns it exactly when its text fits. */
  lemma {:induction false} BuilderCorrect(req: Request)
    ensures var r := req.Message();
            && (r.Ok? <==> req.PeerTid() <= V2_ID_MAX && req.PeerSid() <= V2_ID_MAX)
            && (r.Ok? ==>
                  var m := r.value;
                  && m.V2? && m.tid == req.PeerTid() && m.sid == req.PeerSid()
                  && m.GetType() == Ok(req.MsgType()) && Validates(m)
                  && (ParseMessages(m.ToBytes()) == Ok([m]) <==> req.TextFits())
                  && (req.TextFits() ==> m.len == |m.ToBytes()|))
  {
    InputsAreGood(req);
    InputsFit(req);
    hide Fits, GoodInputs, Request.Inputs, Request.MsgType, Request.PeerTid, Request.PeerSid, Request.TextFits, ParseMessages,
      Build, Validates, ControlMessage.GetType, ControlMessage.WellFormed, ControlMessage.ToBytes, V2Must;
    BuiltMessage(req.PeerTid(), req.PeerSid(), req.Inputs(), req.MsgType());
    if req.Message().Ok? {
      RoundTrip(req.Message().value);
    }
  }

  // ---------------------------------------------------------------------------
  // Where a built message goes and what it is made of

  function Types(avps: seq<Avp>): (ts: seq<u16>)
    ensures |ts| == |avps| && forall i :: 0 <= i < |avps| ==> ts[i] == avps[i].header.avpType
  {
    seq(|avps|, i requires 0 <= i < |avps| => avps[i].header.avpType)
  }

  /** The header of every built message, and its AVPs in order: a session's ICRP, ICCN and CDN
      carry the peer's session ID, every other message session ID 0; the SCCRQ carries tunnel
      ID 0, every other message the peer's. */
  lemma {:induction false} BuiltMessageIs(req: Request)
    requires req.Message().Ok?
    ensures var m := req.Message().value;
            && m.V2? && m.flagsVer == 0xc802 && m.ns == 0 && m.nr == 0
            && match req
               case Sccrq(_) => m.tid == 0 && m.sid == 0 && Types(m.avps) == [0, 2, 7, 3, 9]
               case Sccrp(cfg) => m.tid == cfg.peerTunnelId && m.sid == 0 && Types(m.avps) == [0, 2, 3, 7, 9]
               case Scccn(cfg) => m.tid == cfg.peerTunnelId && m.sid == 0 && Types(m.avps) == [0]
               case Stopccn(_, cfg) => m.tid == cfg.peerTunnelId && m.sid == 0 && Types(m.avps) == [0, 9, 1]
               case Hello(cfg) => m.tid == cfg.peerTunnelId && m.sid == 0 && Types(m.avps) == [0]
               case Icrq(_, ptid, _) => m.tid == ptid && m.sid == 0 && Types(m.avps) == [0, 14, 15]
               case Icrp(ptid, scfg) => m.tid == ptid && m.sid == scfg.peerSessionId && Types(m.avps) == [0, 14]
               case Iccn(ptid, scfg) => m.tid == ptid && m.sid == scfg.peerSessionId && Types(m.avps) == [0, 24, 19]
               case Cdn(ptid, _, scfg) => m.tid == ptid && m.sid == scfg.peerSessionId && Types(m.avps) == [0, 1, 14]
    ensures forall i :: 0 <= i < |req.Message().value.avps| ==>
              var h := req.Message().value.avps[i].header;
              h.vendorId == 0 && !h.IsHidden() && (h.IsMandatory() <==> h.avpType != 2)
    ensures req.Message().value.GetType() == Ok(match req
            case Sccrq(_) => 1 case Sccrp(_) => 2 case Scccn(_) => 3 case Stopccn(_, _) => 4 case Hello(_) => 6
            case Icrq(_, _, _) => 10 case Icrp(_, _) => 11 case Iccn(_, _) => 12 case Cdn(_, _, _) => 14)
  {
    hide Request.Message, Request.Inputs, BuiltAvps, AllBuildable, ControlMessage.GetType, TableMandatory, AvpHeader.IsMandatory,
      AvpHeader.IsHidden;
    TypeOfBuilt(req);
    BuiltFrom(req);
    BuiltBits(req.Inputs());
    InputTypes(req);
  }

  lemma {:induction false} BuiltFrom(req: Request)
    requires req.Message().Ok?
    ensures AllBuildable(req.Inputs())
    ensures var m := req.Message().value;
            m == V2(0xc802, m.len, req.PeerTid(), req.PeerSid(), 0, 0, BuiltAvps(req.Inputs()))
  {
    InputsAreGood(req);
    hide Request.Inputs, Build, BuiltAvps, AllBuildable, V2Must, LengthSum, Request.PeerTid, Request.PeerSid;
    var ins := req.Inputs();
    BuildRange(req.PeerTid(), req.PeerSid(), ins);
    BuildsMessage(req.PeerTid(), req.PeerSid(), ins);
    AssembledFields(req.PeerTid(), req.PeerSid(), ins);
  }

  lemma {:induction false} TypeOfBuilt(req: Request)
    requires req.Message().Ok?
    ensures req.Message().value.GetType() == Ok(req.MsgType())
  {
    hide ParseMessages, ControlMessage.ToBytes, ControlMessage.GetType, Validates, Request.Message, Request.TextFits,
      Request.MsgType;
    BuilderCorrect(req);
  }

  lemma {:induction false} InputTypes(req: Request)
    ensures var ins := req.Inputs();
            seq(|ins|, i requires 0 <= i < |ins| => ins[i].avpType) ==
            match req
            case Sccrq(_) => [0, 2, 7, 3, 9]
            case Sccrp(_) => [0, 2, 3, 7, 9]
            case Stopccn(_, _) => [0, 9, 1]
            case Icrq(_, _, _) => [0, 14, 15]
            case Icrp(_, _) => [0, 14]
            case Iccn(_, _) => [0, 24, 19]
            case Cdn(_, _, _) => [0, 1, 14]
            case _ => [0]
    ensures forall i :: 0 <= i < |req.Inputs()| ==> (TableMandatory(req.Inputs()[i].avpType) <==> req.Inputs()[i].avpType != 2)
  {
  }

  lemma {:induction false} BuiltBits(ins: seq<AvpIn>)
    requires AllBuildable(ins)
    ensures Types(BuiltAvps(ins)) == seq(|ins|, i requires 0 <= i < |ins| => ins[i].avpType)
    ensures forall i :: 0 <= i < |ins| ==>
              var h := BuiltAvps(ins)[i].header;
              h.vendorId == 0 && h.avpType == ins[i].avpType && !h.IsHidden() && (h.IsMandatory() <==> TableMandatory(ins[i].avpType))
  {
    hide NewAvp, Decode, WellFormed, TableMandatory, AvpHeader.IsMandatory, AvpHeader.IsHidden;
    forall i | 0 <= i < |ins|
      ensures var h := BuiltAvps(ins)[i].header;
              h.vendorId == 0 && h.avpType == ins[i].avpType && !h.IsHidden() && (h.IsMandatory() <==> TableMandatory(ins[i].avpType))
    {
      NewAvpDecodes(VENDOR_IETF, ins[i].avpType, ins[i].value);
    }
  }

  // ---------------------------------------------------------------------------
  // How long a built message is

  /** The bytes the inputs come to. */
  function InputLen(ins: seq<AvpIn>): nat {
    if ins == [] then 0 else AVP_HEADER_LEN + PayloadLen(ins[0].value) + InputLen(ins[1..])
  }

  lemma {:induction false} PayloadIsThatLong(i: AvpIn)
    requires Buildable(i)
    ensures |BuiltAvp(i).data| == PayloadLen(i.value)
  {
  }

  lemma {:induction false} BuiltLen(ins: seq<AvpIn>)
    requires AllBuildable(ins)
    ensures |AvpsBytes(BuiltAvps(ins))| == InputLen(ins)
  {
    hide NewAvp, BuiltAvp, Decode, WellFormed, Buildable, PayloadLen;
    if ins != [] {
      PayloadIsThatLong(ins[0]);
      BuiltLen(ins[1..]);
      assert BuiltAvps(ins)[1..] == BuiltAvps(ins[1..]);
    }
  }

  /** No message whose text fits its AVP is longer than this. */
  const LONGEST_BUILT := 1069

  lemma {:induction false} InputsAreShort(req: Request)
    requires req.TextFits()
    ensures HEADER_LEN + InputLen(req.Inputs()) <= LONGEST_BUILT
  {
    var ins := req.Inputs();
    var r1 := ins[1..];
    assert InputLen(ins) == 8 + InputLen(r1);
    if |r1| > 0 {
      var r2 := r1[1..];
      assert InputLen(r1) == AVP_HEADER_LEN + PayloadLen(r1[0].value) + InputLen(r2);
      if |r2| > 0 {
        var r3 := r2[1..];
        assert InputLen(r2) == AVP_HEADER_LEN + PayloadLen(r2[0].value) + InputLen(r3);
        assert |r3| > 0 ==> InputLen(r3) == AVP_HEADER_LEN + PayloadLen(r3[0].value) + InputLen(r3[1..]);
        assert |r3| > 1 ==> InputLen(r3[1..]) == AVP_HEADER_LEN + PayloadLen(r3[1].value) + InputLen(r3[1..][1..]);
        assert |r3| > 1 ==> r3[1..][1..] == [];
      }
    }
  }

  /** Every message the builders make, if it survives the wire at all, is short. */
  lemma {:induction false} BuiltIsShort(req: Request)
    requires req.Message().Ok? && req.TextFits()
    ensures |req.Message().value.ToBytes()| <= LONGEST_BUILT
  {
    InputsAreGood(req);
    hide Request.Inputs, Request.PeerTid, Request.PeerSid, Request.MsgType, Request.TextFits, Build, BuiltAvps, AllBuildable,
      AvpsBytes, InputLen, V2Must;
    var ins := req.Inputs();
    BuildRange(req.PeerTid(), req.PeerSid(), ins);
    BuildsMessage(req.PeerTid(), req.PeerSid(), ins);
    AssembledFields(req.PeerTid(), req.PeerSid(), ins);
    BuiltLen(ins);
    InputsAreShort(req);
  }

  // ---------------------------------------------------------------------------
  // Reading back

  /** What the peer reads back is everything that was put in. */
  lemma {:induction false} BuiltValuesAreRead(req: Request)
    requires req.Message().Ok?
    ensures var avps := req.Message().value.avps;
            && (req.Sccrq? || req.Sccrp? ==>
                  && FindBytesAvp(avps, VENDOR_IETF, AVP_PROTOCOL_VERSION) == Ok([1, 0])
                  && FindStringAvp(avps, VENDOR_IETF, AVP_HOST_NAME) == Ok(req.cfg.hostName)
                  && FindUint32Avp(avps, VENDOR_IETF, AVP_FRAMING_CAP) == Ok(req.cfg.framingCaps))
            && (req.Sccrq? || req.Sccrp? || req.Stopccn? ==>
                  FindUint16Avp(avps, VENDOR_IETF, AVP_TUNNEL_ID) == Ok(req.cfg.tunnelId % 0x1_0000))
            && (req.Icrq? || req.Icrp? || req.Cdn? ==>
                  FindUint16Avp(avps, VENDOR_IETF, AVP_SESSION_ID) == Ok(req.scfg.sessionId % 0x1_0000))
            && (req.Icrq? ==> FindUint32Avp(avps, VENDOR_IETF, AVP_CALL_SERIAL) == Ok(req.callSerial))
            && (req.Iccn? ==>
                  && FindUint32Avp(avps, VENDOR_IETF, AVP_CONNECT_SPEED) == Ok(0)
                  && FindUint32Avp(avps, VENDOR_IETF, AVP_FRAMING_TYPE) == Ok(3))
            && (req.Stopccn? || req.Cdn? ==>
                  FindResultCodeAvp(avps, VENDOR_IETF, AVP_RESULT_CODE) == Ok(req.rc))
  {
    hide Request.PeerTid, Request.PeerSid, Request.MsgType, Request.Message, FindUint16Avp, FindUint32Avp, FindBytesAvp,
      FindStringAvp, FindResultCodeAvp;
    var n := |req.Inputs()|;
    InputIsRead(req, 0);
    if n > 1 { InputIsRead(req, 1); }
    if n > 2 { InputIsRead(req, 2); }
    if n > 3 { InputIsRead(req, 3); }
    if n > 4 { InputIsRead(req, 4); }
  }

  /** The reader of its kind returns the input's value. */
  predicate Reads(avps: seq<Avp>, i: AvpIn) {
    match i.value
    case VUint16(x) => FindUint16Avp(avps, VENDOR_IETF, i.avpType) == Ok(x)
    case VUint32(x) => FindUint32Avp(avps, VENDOR_IETF, i.avpType) == Ok(x)
    case VString(x) => FindStringAvp(avps, VENDOR_IETF, i.avpType) == Ok(x)
    case VBytes(x) => FindBytesAvp(avps, VENDOR_IETF, i.avpType) == Ok(x)
    case VResultCode(x) => FindResultCodeAvp(avps, VENDOR_IETF, i.avpType) == Ok(x)
    case _ => true
  }

  lemma {:induction false} InputIsRead(req: Request, k: nat)
    requires req.Message().Ok? && k < |req.Inputs()|
    ensures Reads(req.Message().value.avps, req.Inputs()[k])
  {
    InputsAreGood(req);
    DistinctInputs(req, k);
    hide Request.Inputs, Request.PeerTid, Request.PeerSid, Request.MsgType, Build, BuiltAvp, BuiltAvps, Decode, FindAvp,
      Assembled, ControlMessage.WellFormed, ControlMessage.ToBytes, AllBuildable, DecodeUint16Data, DecodeUint32Data,
      DecodeStringData, DecodeResultCode, Fits, V2Must;
    var ins := req.Inputs();
    BuildRange(req.PeerTid(), req.PeerSid(), ins);
    BuildsMessage(req.PeerTid(), req.PeerSid(), ins);
    BuiltSurvives(req.PeerTid(), req.PeerSid(), ins);
    FindBuilt(ins, k);
    ReadDecoded(FindAvp(BuiltAvps(ins), VENDOR_IETF, ins[k].avpType).value);
  }

  lemma {:induction false} BuildRange(ptid: u32, psid: u32, ins: seq<AvpIn>)
    requires Build(ptid, psid, ins).Ok?
    ensures ptid <= V2_ID_MAX && psid <= V2_ID_MAX
  {
  }

  lemma {:induction false} DistinctInputs(req: Request, k: nat)
    requires k < |req.Inputs()|
    ensures forall i :: 0 <= i < k ==> req.Inputs()[i].avpType != req.Inputs()[k].avpType
  {
  }

  /** The typed readers agree with the generic one. */
  lemma {:induction false} ReadDecoded(a: Avp)
    requires Decode(a).Ok?
    ensures match Decode(a).value
            case VUint16(x) => DecodeUint16Data(a) == Ok(x)
            case VUint32(x) => DecodeUint32Data(a) == Ok(x)
            case VString(x) => DecodeStringData(a) == Ok(x)
            case VBytes(x) => a.data == x
            case VResultCode(x) => DecodeResultCode(a) == Ok(x)
            case _ => true
  {
  }

  /** The first input of its type is the one a lookup finds, and it decodes to its value. */
  lemma {:induction false} FindBuilt(ins: seq<AvpIn>, k: nat)
    requires k < |ins| && AllBuildable(ins)
    requires forall i :: 0 <= i < k ==> ins[i].avpType != ins[k].avpType
    ensures var a := FindAvp(BuiltAvps(ins), VENDOR_IETF, ins[k].avpType);
            a.Ok? && Decode(a.value) == Ok(ins[k].value)
  {
    hide NewAvp, BuiltAvp, Decode, WellFormed;
    if k > 0 {
      FindBuilt(ins[1..], k - 1);
      assert BuiltAvps(ins)[1..] == BuiltAvps(ins[1..]);
    }
  }
}
