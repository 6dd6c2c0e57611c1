/** What the receiver does about a mandatory AVP it does not know.

    Such an AVP must end the tunnel (section 4.1 of RFC 2661).  The receiver means to see to
    it by the words of the parser's error, but asks whether the error is contained in the
    words instead of the other way round. */
module ReceiveErrors {
  import opened Wire
  import opened Avps
  import opened Messages
  import opened ErrorTexts
  import opened Endpoints

  /** Whatever the frame and the endpoint, the receiver does not give up. */
  lemma {:induction false} ReceiverNeverCloses(e: Endpoint, frame: seq<byte>)
    ensures !ReceiverCloses(e, frame)
  {
    hide Contains, DropText, ParserText, ControlMessage.GetType, Beyond;
    match ParseMessages(frame)
    case Err(error) =>
      if error != RuntimePanic {
        ParserTextNotIn(frame);
      }
    case Ok(ms) =>
      var i := FirstBeyond(e, ms);
      if i < |ms| && ms[i].GetType().Ok? {
        DropTextApart(ms[i].GetType().value, ms[i], e.ns, e.nr);
      }
  }

  /** So every frame that makes nothing panic leaves the receiver going. */
  lemma {:induction false} ReceiveGoesOn(e: Endpoint, frame: seq<byte>)
    ensures match RecvFrame(e, frame)
            case None => Receive(e, frame) == (Panics, e)
            case Some(ms) => Receive(e, frame) == (Passed(NrInds(ms)), e.(rxQueue := e.rxQueue + ms))
  {
    hide ReceiverCloses, RecvFrame, NrInds;
    ReceiverNeverCloses(e, frame);
  }

  /** With the arguments the other way round it would, exactly for an unknown mandatory AVP. */
  lemma {:induction false} SwappedTestIff(e: Endpoint, frame: seq<byte>)
    ensures RecvError(e, frame).Some? && Contains(RecvError(e, frame).value, Mandatory())
            <==> ParseMessages(frame) == Err(UnknownMandatoryAvp)
  {
    hide Contains, DropText, ParserText, ControlMessage.GetType, Beyond;
    match ParseMessages(frame)
    case Err(error) =>
      if error != RuntimePanic {
        ParserTextHolds(frame);
      }
    case Ok(ms) =>
      var i := FirstBeyond(e, ms);
      if i < |ms| && ms[i].GetType().Ok? {
        DropTextApart(ms[i].GetType().value, ms[i], e.ns, e.nr);
      }
  }

  /** A frame the parser refuses leaves the endpoint as it was. */
  lemma {:induction false} RefusedFrameIsDropped(e: Endpoint, frame: seq<byte>)
    requires ParseMessages(frame).Err? && ParseMessages(frame).error != RuntimePanic
    ensures Receive(e, frame) == (Passed([]), e)
  {
    hide ParseMessages, ReceiverCloses, Receive;
    ReceiveGoesOn(e, frame);
    assert RecvFrame(e, frame) == Some([]) && e.rxQueue + [] == e.rxQueue && NrInds([]) == [];
  }

  /** A message in which, after AVPs the parser can use or skip, comes one that is mandatory
      and unknown: it is refused for that, and the receiver goes on with the endpoint as it was. */
  lemma {:induction false} UnknownMandatoryIsDropped(e: Endpoint, m: ControlMessage, chunks: seq<Chunk>, h: AvpHeader, rest: seq<byte>)
    requires AllValid(chunks) && UnknownMandatory(h) && m.flagsVer % 16 == (if m.V2? then 2 else 3)
    requires m.len == HEADER_LEN + |ChunksBytes(chunks) + (HeaderBytes(h) + rest)|
    ensures var frame := m.HeaderBytes() + (ChunksBytes(chunks) + (HeaderBytes(h) + rest));
            ParseMessages(frame) == Err(UnknownMandatoryAvp) && Receive(e, frame) == (Passed([]), e)
  {
    hide GetU16, GetU32, HeaderBytes, ControlMessage.HeaderBytes, ParseAvpList, UnknownMandatory, AllValid, Receive;
    var body := ChunksBytes(chunks) + (HeaderBytes(h) + rest);
    var frame := m.HeaderBytes() + body;
    MandatoryRefused(chunks, h, rest);
    ReadBackHeader(m, body);
    assert frame[..m.len] == frame && frame[HEADER_LEN..m.len] == body;
    assert ParseFront(frame) == Err(UnknownMandatoryAvp);
    RefusedFrameIsDropped(e, frame);
  }
}
