/** Sender to receiver through all three layers: message codec, signed envelope and framing, over
    a stream cut into arbitrary reads. */
module EndToEnd {
  import opened Common
  import opened Framing
  import opened Protocol
  import opened Security

  /** A message on its way: packet type, protocol version, replay stamp and fields. */
  datatype Outgoing = Outgoing(kind: U16, version: U16, seqNo: U32, nonce: U64, fields: Fields)

  function ToFrame(sign: Sign, key: Text, m: Outgoing): Frame {
    Frame(m.kind, m.version, Wrap(sign, key, m.seqNo, m.nonce, Encode(m.fields)))
  }

  function ToFrames(sign: Sign, key: Text, ms: seq<Outgoing>): seq<Frame> {
    seq(|ms|, i requires 0 <= i < |ms| => ToFrame(sign, key, ms[i]))
  }

  /** What the receiver makes of one frame, given the layout it expects. */
  function Receive(sign: Sign, key: Text, layout: Layout, f: Frame): Option<Outgoing> {
    match Unwrap(f.payload)
    case None => None
    case Some((header, payload)) =>
      if !Verify(sign, key, header, payload) then None
      else
        match Decode(layout, payload)
        case None => None
        case Some(fields) => Some(Outgoing(f.kind, f.version, header.seqNo, header.nonce, fields))
  }

  lemma ReceivesWhatWasSent(sign: Sign, key: Text, m: Outgoing)
    ensures Receive(sign, key, LayoutOf(m.fields), ToFrame(sign, key, m)) == Some(m.(fields := ClipAll(m.fields)))
  {
    hide Unwrap, Wrap, Decode, Encode;
    UnwrapsWhatWasWrapped(sign, key, m.seqNo, m.nonce, Encode(m.fields));
    RoundTrip(m.fields);
  }

  /** For every signature function, key and list of messages whose envelopes stay under 2^32 bytes,
      and every way of cutting the bytes into reads: the receiver sees one frame per message, in
      order, none of its bytes left over, and each frame checks and decodes to the message sent
      with strings and lists clipped to 65535. */
  lemma MessagesArrive(sign: Sign, key: Text, ms: seq<Outgoing>, chunks: seq<Buffer>)
    requires forall m :: m in ms ==> SECURITY_HEADER_SIZE + |Encode(m.fields)| < U32_SIZE
    requires Concat(chunks) == EncodeAll(ToFrames(sign, key, ms))
    ensures
      var (frames, left) := ReadAll([], chunks);
      && left == [] && |frames| == |ms|
      && (forall i :: 0 <= i < |ms| ==>
            Receive(sign, key, LayoutOf(ms[i].fields), frames[i]) == Some(ms[i].(fields := ClipAll(ms[i].fields))))
  {
    var frames := ToFrames(sign, key, ms);
    forall f | f in frames ensures |f.payload| < U32_SIZE {
      var i :| 0 <= i < |frames| && frames[i] == f;
      assert ms[i] in ms && f == ToFrame(sign, key, ms[i]);
    }
    FramesSurviveAnyCut(frames, chunks);
    forall i | 0 <= i < |ms|
      ensures Receive(sign, key, LayoutOf(ms[i].fields), frames[i]) == Some(ms[i].(fields := ClipAll(ms[i].fields)))
    {
      ReceivesWhatWasSent(sign, key, ms[i]);
    }
  }
}
