/** Message validation against the per-message AVP specifications (section 6 of RFC 2661). */
module Validation {
  import opened Wire
  import opened Avps
  import opened Payloads
  import opened Messages

  datatype Requirement = MustExist | MayExist
  type Spec = map<u16, Requirement>

  const MSG_SCCRQ: u16 := 1
  const MSG_SCCRP: u16 := 2
  const MSG_SCCCN: u16 := 3
  const MSG_STOPCCN: u16 := 4
  const MSG_HELLO: u16 := 6
  const MSG_ICRQ: u16 := 10
  const MSG_ICRP: u16 := 11
  const MSG_ICCN: u16 := 12
  const MSG_CDN: u16 := 14

  const AVP_RESULT_CODE: u16 := 1
  const AVP_PROTOCOL_VERSION: u16 := 2
  const AVP_FRAMING_CAP: u16 := 3
  const AVP_HOST_NAME: u16 := 7
  const AVP_TUNNEL_ID: u16 := 9
  const AVP_SESSION_ID: u16 := 14
  const AVP_CALL_SERIAL: u16 := 15
  const AVP_FRAMING_TYPE: u16 := 19
  const AVP_CONNECT_SPEED: u16 := 24

  /** A specification from its compulsory and its optional AVP types. */
  function MakeSpec(must: set<u16>, may: set<u16>): (spec: Spec)
    ensures spec.Keys == must + may
    ensures forall t :: t in spec ==> (spec[t] == MustExist <==> t in must)
  {
    map t | t in must + may :: if t in must then MustExist else MayExist
  }

  /** Compulsory AVP types of each v2 message; None when the message has no specification. */
  function V2Must(msgType: u16): Option<set<u16>> {
    match msgType
    case 1 => Some({AVP_MESSAGE, AVP_PROTOCOL_VERSION, AVP_HOST_NAME, AVP_FRAMING_CAP, AVP_TUNNEL_ID})
    case 2 => Some({AVP_MESSAGE, AVP_PROTOCOL_VERSION, AVP_FRAMING_CAP, AVP_HOST_NAME, AVP_TUNNEL_ID})
    case 3 => Some({AVP_MESSAGE})
    case 4 => Some({AVP_MESSAGE, AVP_TUNNEL_ID, AVP_RESULT_CODE})
    case 6 => Some({AVP_MESSAGE})
    case 10 => Some({AVP_MESSAGE, AVP_SESSION_ID, AVP_CALL_SERIAL})
    case 11 => Some({AVP_MESSAGE, AVP_SESSION_ID})
    case 12 => Some({AVP_MESSAGE, AVP_CONNECT_SPEED, AVP_FRAMING_TYPE})
    case 14 => Some({AVP_MESSAGE, AVP_RESULT_CODE, AVP_SESSION_ID})
    case _ => None
  }

  function V2May(msgType: u16): set<u16> {
    match msgType
    case 1 => {4, 10, 11, 5, 6, 8}
    case 2 => {4, 10, 11, 13, 5, 6, 8}
    case 3 => {13}
    case 10 => {18, 25, 22, 21, 23}
    case 12 => {26, 27, 28, 29, 30, 31, 32, 33, 37, 38, 39}
    case 14 => {12}
    case _ => {}
  }

  function GetV2Spec(msgType: u16): Result<Spec> {
    match V2Must(msgType)
    case Some(must) => Ok(MakeSpec(must, V2May(msgType)))
    case None => Err(NoSpec)
  }

  function GetV3Spec(msgType: u16): Result<Spec> {
    if msgType == MSG_HELLO then Ok(MakeSpec({AVP_MESSAGE}, {36, 59})) else Err(NoSpec)
  }

  // ---------------------------------------------------------------------------

  predicate Present(avps: seq<Avp>, t: u16) {
    exists i :: 0 <= i < |avps| && avps[i].header.avpType == t
  }

  /** An AVP the specification lists must decode; one it does not list must be optional. */
  predicate Tolerated(a: Avp, spec: Spec) {
    if a.header.avpType in spec then Decode(a).Ok? else !a.header.IsMandatory()
  }

  ghost predicate Acceptable(avps: seq<Avp>, spec: Spec) {
    && (forall i :: 0 <= i < |avps| ==> Tolerated(avps[i], spec))
    && (forall t :: t in spec && spec[t] == MustExist ==> Present(avps, t))
  }

  /** The source's three passes with a table of the compulsory AVPs seen so far accept
      exactly the acceptable lists, whatever order its maps are walked in. */
  method ValidateAvps(avps: seq<Avp>, spec: Spec) returns (r: Result<()>)
    ensures r.Ok? <==> Acceptable(avps, spec)
  {
    var seen: map<u16, bool> := map[];
    var todo := spec.Keys;
    while todo != {}
      invariant todo <= spec.Keys
      invariant forall t :: t in seen <==> t in spec.Keys - todo && spec[t] == MustExist
      invariant forall t :: t in seen ==> !seen[t]
      decreases |todo|
    {
      var t :| t in todo;
      if spec[t] == MustExist {
        seen := seen[t := false];
      }
      todo := todo - {t};
    }

    for i := 0 to |avps|
      invariant forall t :: t in seen <==> t in spec && spec[t] == MustExist
      invariant forall t :: t in seen ==> (seen[t] <==> Present(avps[..i], t))
      invariant forall j :: 0 <= j < i ==> Tolerated(avps[j], spec)
    {
      PresentGrows(avps, i);
      var t := avps[i].header.avpType;
      if t !in spec {
        if avps[i].header.IsMandatory() {
          assert !Tolerated(avps[i], spec);
          return Err(UnexpectedAvp);
        }
      } else {
        if spec[t] == MustExist {
          seen := seen[t := true];
        }
        var d := Decode(avps[i]);
        if d.Err? {
          assert !Tolerated(avps[i], spec);
          return Err(d.error);
        }
      }
    }

    assert avps[..|avps|] == avps;
    todo := seen.Keys;
    while todo != {}
      invariant todo <= seen.Keys
      invariant forall t :: t in seen.Keys - todo ==> seen[t]
      decreases |todo|
    {
      var t :| t in todo;
      if !seen[t] {
        return Err(MissingAvp);
      }
      todo := todo - {t};
    }
    return Ok(());
  }

  lemma {:induction false} PresentGrows(avps: seq<Avp>, i: nat)
    requires i < |avps|
    ensures forall t :: Present(avps[..i + 1], t) <==> Present(avps[..i], t) || avps[i].header.avpType == t
  {
  }

  function SpecFor(m: ControlMessage): Result<Spec> {
    var t :- m.GetType();
    if m.V2? then GetV2Spec(t) else GetV3Spec(t)
  }

  ghost predicate Validates(m: ControlMessage) {
    SpecFor(m).Ok? && Acceptable(m.avps, SpecFor(m).value)
  }

  method Validate(m: ControlMessage) returns (r: Result<()>)
    ensures r.Ok? <==> Validates(m)
  {
    var spec := SpecFor(m);
    if spec.Err? {
      return Err(spec.error);
    }
    r := ValidateAvps(m.avps, spec.value);
  }

  /** All of the one kind are there, and every AVP of either kind decodes; any other is
      without the M bit. */
  predicate Meets(avps: seq<Avp>, must: set<u16>, may: set<u16>) {
    && (forall t :: t in must ==> Present(avps, t))
    && forall i :: 0 <= i < |avps| ==>
         if avps[i].header.avpType in must + may then Decode(avps[i]).Ok? else avps[i].header.flagLen < 0x8000
  }

  /** What every v2 message must and may hold, by the numbers of message and AVP types.  A
      message of any other type, or none, is refused. */
  lemma {:induction false} ValidatesV2Iff(m: ControlMessage)
    requires m.V2?
    ensures m.GetType() == Ok(1) ==> (Validates(m) <==> Meets(m.avps, {0, 2, 3, 7, 9}, {4, 5, 6, 8, 10, 11}))
    ensures m.GetType() == Ok(2) ==> (Validates(m) <==> Meets(m.avps, {0, 2, 3, 7, 9}, {4, 5, 6, 8, 10, 11, 13}))
    ensures m.GetType() == Ok(3) ==> (Validates(m) <==> Meets(m.avps, {0}, {13}))
    ensures m.GetType() == Ok(4) ==> (Validates(m) <==> Meets(m.avps, {0, 1, 9}, {}))
    ensures m.GetType() == Ok(6) ==> (Validates(m) <==> Meets(m.avps, {0}, {}))
    ensures m.GetType() == Ok(10) ==> (Validates(m) <==> Meets(m.avps, {0, 14, 15}, {18, 21, 22, 23, 25}))
    ensures m.GetType() == Ok(11) ==> (Validates(m) <==> Meets(m.avps, {0, 14}, {}))
    ensures m.GetType() == Ok(12) ==>
              (Validates(m) <==> Meets(m.avps, {0, 19, 24}, {26, 27, 28, 29, 30, 31, 32, 33, 37, 38, 39}))
    ensures m.GetType() == Ok(14) ==> (Validates(m) <==> Meets(m.avps, {0, 1, 14}, {12}))
    ensures m.GetType().Err? || m.GetType().value !in {1, 2, 3, 4, 6, 10, 11, 12, 14} ==> !Validates(m)
  {
    hide ControlMessage.GetType, Meets, Acceptable;
    if m.GetType().Ok? && V2Must(m.GetType().value).Some? {
      var t := m.GetType().value;
      AcceptableIff(m.avps, V2Must(t).value, V2May(t));
      SameSets(t);
    }
  }

  lemma {:induction false} AcceptableIff(avps: seq<Avp>, must: set<u16>, may: set<u16>)
    ensures Acceptable(avps, MakeSpec(must, may)) <==> Meets(avps, must, may)
  {
    hide Decode, Present;
    var spec := MakeSpec(must, may);
    assert forall i :: 0 <= i < |avps| ==> (Tolerated(avps[i], spec) <==>
      if avps[i].header.avpType in must + may then Decode(avps[i]).Ok? else avps[i].header.flagLen < 0x8000);
  }

  lemma {:induction false} SameSets(t: u16)
    ensures t == 1 ==> V2Must(t) == Some({0, 2, 3, 7, 9}) && V2May(t) == {4, 5, 6, 8, 10, 11}
    ensures t == 2 ==> V2Must(t) == Some({0, 2, 3, 7, 9}) && V2May(t) == {4, 5, 6, 8, 10, 11, 13}
    ensures t == 3 ==> V2Must(t) == Some({0}) && V2May(t) == {13}
    ensures t == 4 ==> V2Must(t) == Some({0, 1, 9}) && V2May(t) == {}
    ensures t == 6 ==> V2Must(t) == Some({0}) && V2May(t) == {}
    ensures t == 10 ==> V2Must(t) == Some({0, 14, 15}) && V2May(t) == {18, 21, 22, 23, 25}
    ensures t == 11 ==> V2Must(t) == Some({0, 14}) && V2May(t) == {}
    ensures t == 12 ==> V2Must(t) == Some({0, 19, 24}) && V2May(t) == {26, 27, 28, 29, 30, 31, 32, 33, 37, 38, 39}
    ensures t == 14 ==> V2Must(t) == Some({0, 1, 14}) && V2May(t) == {12}
  {
    if t == 1 || t == 2 {
      assert {AVP_MESSAGE, AVP_PROTOCOL_VERSION, AVP_HOST_NAME, AVP_FRAMING_CAP, AVP_TUNNEL_ID} == {0, 2, 3, 7, 9};
      assert {AVP_MESSAGE, AVP_PROTOCOL_VERSION, AVP_FRAMING_CAP, AVP_HOST_NAME, AVP_TUNNEL_ID} == {0, 2, 3, 7, 9};
    } else if t == 4 {
      assert {AVP_MESSAGE, AVP_TUNNEL_ID, AVP_RESULT_CODE} == {0, 1, 9};
    } else if t == 12 {
      assert {AVP_MESSAGE, AVP_CONNECT_SPEED, AVP_FRAMING_TYPE} == {0, 19, 24};
    }
  }

  /** The only v3 message that validates is a HELLO. */
  lemma {:induction false} ValidatesV3Iff(m: ControlMessage)
    requires m.V3?
    ensures Validates(m) <==> m.GetType() == Ok(6) && Meets(m.avps, {0}, {36, 59})
  {
    hide ControlMessage.GetType, Meets, Acceptable;
    AcceptableIff(m.avps, {0}, {36, 59});
  }

  /** An acknowledgement never validates, so none is ever queued for transmission. */
  lemma {:induction false} AcksDoNotValidate(m: ControlMessage)
    requires m.IsAck()
    ensures !Validates(m)
  {
  }

  // ---------------------------------------------------------------------------
  // Parse plus validate implies lookup

  lemma {:induction false} ParsedMessagesWellFormed(b: seq<byte>, i: nat)
    requires ParseMessages(b).Ok? && i < |ParseMessages(b).value|
    ensures AllWellFormed(ParseMessages(b).value[i].avps)
    decreases |b|
  {
    hide ParseFront;
    ParseFrontSound(b);
    if i > 0 {
      ParsedMessagesWellFormed(AfterMessage(b, ParseFront(b).value.len), i - 1);
    }
  }

  /** In an acceptable list of parsed AVPs, a compulsory type is found by vendor and
      type, and the AVP found decodes. */
  lemma {:induction false} CompulsoryIsFound(avps: seq<Avp>, spec: Spec, t: u16)
    requires AllWellFormed(avps) && Acceptable(avps, spec) && t in spec && spec[t] == MustExist
    ensures var r := FindAvp(avps, VENDOR_IETF, t);
            r.Ok? && r.value.dataType == TableDataType(t) && Decode(r.value).Ok?
  {
  }

  /** Whatever bytes arrive: a parsed message that validates as SCCRP yields a peer tunnel
      ID, one that validates as ICRP a peer session ID, one that validates as CDN a
      result code. */
  lemma {:induction false} ParsedAndValidatedLookup(b: seq<byte>, i: nat)
    requires ParseMessages(b).Ok? && i < |ParseMessages(b).value|
    requires var m := ParseMessages(b).value[i]; m.V2? && Validates(m)
    ensures var m := ParseMessages(b).value[i];
            && (m.GetType() == Ok(MSG_SCCRP) ==> FindUint16Avp(m.avps, VENDOR_IETF, AVP_TUNNEL_ID).Ok?)
            && (m.GetType() == Ok(MSG_ICRP) ==> FindUint16Avp(m.avps, VENDOR_IETF, AVP_SESSION_ID).Ok?)
            && (m.GetType() == Ok(MSG_CDN) ==> FindResultCodeAvp(m.avps, VENDOR_IETF, AVP_RESULT_CODE).Ok?)
  {
    ParsedMessagesWellFormed(b, i);
    hide ParseMessages;
    ValidatedLookup(ParseMessages(b).value[i]);
  }

  lemma {:induction false} ValidatedLookup(m: ControlMessage)
    requires m.V2? && AllWellFormed(m.avps) && Validates(m)
    ensures m.GetType() == Ok(MSG_SCCRP) ==> FindUint16Avp(m.avps, VENDOR_IETF, AVP_TUNNEL_ID).Ok?
    ensures m.GetType() == Ok(MSG_ICRP) ==> FindUint16Avp(m.avps, VENDOR_IETF, AVP_SESSION_ID).Ok?
    ensures m.GetType() == Ok(MSG_CDN) ==> FindResultCodeAvp(m.avps, VENDOR_IETF, AVP_RESULT_CODE).Ok?
  {
    hide ControlMessage.GetType, Acceptable, FindAvp, GetU16;
    var spec := SpecFor(m).value;
    if m.GetType() == Ok(MSG_SCCRP) {
      CompulsoryIsFound(m.avps, spec, AVP_TUNNEL_ID);
    } else if m.GetType() == Ok(MSG_ICRP) {
      CompulsoryIsFound(m.avps, spec, AVP_SESSION_ID);
    } else if m.GetType() == Ok(MSG_CDN) {
      CompulsoryIsFound(m.avps, spec, AVP_RESULT_CODE);
    }
  }
}
