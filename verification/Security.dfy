/** The signed envelope of src/net/security.cpp. The signature is whatever deterministic function
    of key, sequence number, nonce and payload the two sides share; nothing is claimed about its
    strength. */
module Security {
  import opened Common
  import opened Framing
  import opened Protocol

  type Signature = s: Buffer | |s| == 16 witness BigEndian(0, 16)
  type Sign = (Text, U32, U64, Buffer) -> Signature

  const SECURITY_HEADER_SIZE: nat := 28

  datatype SecurityHeader = SecurityHeader(seqNo: U32, nonce: U64, signature: Signature)

  function Wrap(sign: Sign, key: Text, seqNo: U32, nonce: U64, payload: Buffer): Buffer {
    BigEndian(seqNo, 4) + BigEndian(nonce, 8) + sign(key, seqNo, nonce, payload) + payload
  }

  /** The header and the payload behind it, if the envelope is long enough for a header. */
  function Unwrap(p: Buffer): Option<(SecurityHeader, Buffer)> {
    if |p| < SECURITY_HEADER_SIZE then None
    else
      BigEndianOfValueOf(p, 4);
      BigEndianOfValueOf(p[4..], 8);
      assert p[4..][..8] == p[4..12];
      Some((SecurityHeader(Value(p[..4]), Value(p[4..12]), p[12..28]), p[28..]))
  }

  predicate Verify(sign: Sign, key: Text, header: SecurityHeader, payload: Buffer) {
    sign(key, header.seqNo, header.nonce, payload) == header.signature
  }

  /** On the wire: the sequence number in four bytes and the nonce in eight, the highest first, the
      signature of number, nonce and payload in sixteen, and the payload. */
  lemma EnvelopeBytes(sign: Sign, key: Text, seqNo: U32, nonce: U64, payload: Buffer)
    ensures
      var p := Wrap(sign, key, seqNo, nonce, payload);
      && |p| == 28 + |payload|
      && p[..4] == PutField(FU32(seqNo)) && p[4..12] == PutField(FU64(nonce))
      && p[12..28] == sign(key, seqNo, nonce, payload) && p[28..] == payload
  {
    hide BigEndian;
  }

  /** Exactly what is no shorter than 28 bytes unwraps, whatever the bytes are. */
  lemma UnwrapsExactly(p: Buffer)
    ensures Unwrap(p).Some? <==> |p| >= 28
    ensures |p| >= 28 ==>
      var (header, payload) := Unwrap(p).value;
      && PutField(FU32(header.seqNo)) == p[..4] && PutField(FU64(header.nonce)) == p[4..12]
      && header.signature == p[12..28] && payload == p[28..]
  {
    if |p| >= 28 {
      BigEndianOfValueOf(p, 4);
      BigEndianOfValueOf(p[4..], 8);
      assert p[4..][..8] == p[4..12];
    }
    hide BigEndian;
  }

  /** Unwrapping a wrapped payload gives its number, nonce and payload, and the signature checks. */
  lemma UnwrapsWhatWasWrapped(sign: Sign, key: Text, seqNo: U32, nonce: U64, payload: Buffer)
    ensures
      var u := Unwrap(Wrap(sign, key, seqNo, nonce, payload));
      && u == Some((SecurityHeader(seqNo, nonce, sign(key, seqNo, nonce, payload)), payload))
      && Verify(sign, key, u.value.0, u.value.1)
  {
    var p := Wrap(sign, key, seqNo, nonce, payload);
    Powers();
    NumberBack(seqNo, 4, p[4..]);
    NumberBack(nonce, 8, p[12..]);
    assert p[..4] == BigEndian(seqNo, 4) && p[4..12] == BigEndian(nonce, 8);
    assert p[12..28] == sign(key, seqNo, nonce, payload) && p[28..] == payload;
    assert p == BigEndian(seqNo, 4) + p[4..];
    assert p[4..] == BigEndian(nonce, 8) + p[12..];
    assert (BigEndian(nonce, 8) + p[12..])[..8] == p[4..12];
  }

  /** An envelope that unwraps and checks is the wrapping of what it carries. */
  lemma WrapsWhatWasUnwrapped(sign: Sign, key: Text, p: Buffer)
    requires Unwrap(p).Some?
    ensures
      var (header, payload) := Unwrap(p).value;
      Verify(sign, key, header, payload) <==> p == Wrap(sign, key, header.seqNo, header.nonce, payload)
  {
    var (header, payload) := Unwrap(p).value;
    BigEndianOfValueOf(p, 4);
    BigEndianOfValueOf(p[4..], 8);
    assert p[4..][..8] == p[4..12];
    assert p == p[..4] + p[4..12] + p[12..28] + p[28..];
    var q := Wrap(sign, key, header.seqNo, header.nonce, payload);
    assert q[12..28] == sign(key, header.seqNo, header.nonce, payload);
  }

  // ----- The code -----

  method WrapSecurePayload(sign: Sign, key: Text, seqNo: U32, nonce: U64, payload: Buffer) returns (out: Buffer)
    ensures out == Wrap(sign, key, seqNo, nonce, payload)
  {
    ShiftsAreBigEndian(0, seqNo);
    var signature := sign(key, seqNo, nonce, payload);
    out := BytesOfU32(seqNo);
    var nonceBytes := BytesOfU64(nonce);
    out := out + nonceBytes;
    out := out + signature;
    out := out + payload;
  }

  method UnwrapSecurePayload(p: Buffer) returns (u: Option<(SecurityHeader, Buffer)>)
    ensures u == Unwrap(p)
  {
    var offset := 0;
    if offset + 4 > |p| {
      return None;
    }
    BigEndianOfValueOf(p, 4);
    var seqNo := Value(p[..4]);
    offset := offset + 4;
    if offset + 8 > |p| {
      return None;
    }
    BigEndianOfValueOf(p[4..], 8);
    assert p[4..][..8] == p[4..12];
    var nonce := Value(p[offset..offset + 8]);
    offset := offset + 8;
    if offset + 16 > |p| {
      return None;
    }
    var signature := p[offset..offset + 16];
    offset := offset + 16;
    return Some((SecurityHeader(seqNo, nonce, signature), p[offset..]));
  }
}
