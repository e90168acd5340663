/** What the server checks before it looks at a packet's type: transport, version, envelope and
    signature; the replay check after them is in `ServerReplay`.

    Main result: when signatures are required, a packet that is not enveloped with the server's key
    changes exactly its session's clock and protocol version, and is answered, with the supported
    versions, if and only if its transport is accepted and its own version is not. */
module ServerScreen {
  import opened Common
  import opened Server
  import opened Security
  import opened Framing
  import opened Protocol
  import Session
  import ServerObject
  import ServerAnswers
  import ServerFrames

  const MIN_VERSION: U16 := 1
  const MAX_VERSION: U16 := 3

  datatype Policy = Policy(requireTls: bool, requireHmac: bool, replayProtection: bool, key: Text)
  datatype Raw = Raw(tls: bool, version: U16, payload: Buffer)

  /** Dropped without an answer, answered with the supported versions, or let through to the
      replay check with its inner payload. */
  datatype Verdict = Violation | WrongVersion | Screened(stamp: Option<Session.Stamp>, payload: Buffer)

  function Screen(sign: Sign, policy: Policy, raw: Raw): Verdict {
    if policy.requireTls && !raw.tls then Violation
    else if raw.version < MIN_VERSION || MAX_VERSION < raw.version then WrongVersion
    else if !policy.requireHmac && !policy.replayProtection then Screened(None, raw.payload)
    else
      match Unwrap(raw.payload)
      case None => Violation
      case Some((header, inner)) =>
        if policy.requireHmac && !Verify(sign, policy.key, header, inner) then Violation
        else Screened(if policy.replayProtection then Some(Session.Stamp(header.seqNo, header.nonce)) else None, inner)
  }

  /** A whole packet, from its raw payload; `decode` is the message codec of its packet type. */
  ghost function HandleRaw(sign: Sign, policy: Policy, decode: Buffer -> Request, s: State, sid: SessionId, raw: Raw,
                           now: Time)
    : (State, Reply)
    requires sid in s.sessions
  {
    match Screen(sign, policy, raw)
    case Violation => (Receive(s, sid, raw.version, now), Nothing)
    case WrongVersion =>
      (Receive(s, sid, raw.version, now), VersionRejected(MIN_VERSION, MAX_VERSION, raw.version))
    case Screened(stamp, payload) => Packet(s, sid, raw.version, stamp, decode(payload), now)
  }

  /** The payload is an envelope made with the key. */
  ghost predicate Signed(sign: Sign, key: Text, payload: Buffer) {
    exists seqNo: U32, nonce: U64, inner: Buffer :: payload == Wrap(sign, key, seqNo, nonce, inner)
  }

  /** Only the clock and the protocol version of session `sid` changed, to these values. */
  ghost predicate OnlyRefreshed(s: State, t: State, sid: SessionId, version: U16, now: Time) {
    && sid in s.sessions
    && t == s.(sessions := t.sessions) && t.sessions.Keys == s.sessions.Keys
    && t.sessions[sid] == s.sessions[sid].(lastReceive := now, version := version)
    && forall k :: k in s.sessions && k != sid ==> t.sessions[k] == s.sessions[k]
  }

  lemma SignedIsVerified(sign: Sign, key: Text, payload: Buffer)
    requires |payload| >= 28
    ensures Unwrap(payload).Some?
    ensures Verify(sign, key, Unwrap(payload).value.0, Unwrap(payload).value.1) <==> Signed(sign, key, payload)
  {
    UnwrapsExactly(payload);
    WrapsWhatWasUnwrapped(sign, key, payload);
    var (header, inner) := Unwrap(payload).value;
    hide Unwrap, Wrap, Verify;
    if Signed(sign, key, payload) {
      var seqNo: U32, nonce: U64, body: Buffer :| payload == Wrap(sign, key, seqNo, nonce, body);
      UnwrapsWhatWasWrapped(sign, key, seqNo, nonce, body);
    }
  }

  /** What passes the checks before the replay check: an accepted transport and version, and where the
      policy wants envelopes at least 28 bytes, which it signs where it wants signatures. The stamp is
      what the first twelve bytes say, taken only under replay protection. */
  lemma ScreensExactly(sign: Sign, policy: Policy, raw: Raw)
    ensures
      var (v, wrapped) := (Screen(sign, policy, raw), policy.requireHmac || policy.replayProtection);
      && (v.Screened?
          <==> && (policy.requireTls ==> raw.tls) && 1 <= raw.version <= 3
               && (wrapped ==> |raw.payload| >= 28) && (policy.requireHmac ==> Signed(sign, policy.key, raw.payload)))
      && (v.Screened? ==> v.payload == if wrapped then raw.payload[28..] else raw.payload)
      && (v.Screened? ==> (v.stamp.Some? <==> policy.replayProtection))
      && (v.Screened? && v.stamp.Some? ==>
            PutField(FU32(v.stamp.value.seqNo)) + PutField(FU64(v.stamp.value.nonce)) == raw.payload[..12])
  {
    UnwrapsExactly(raw.payload);
    if |raw.payload| >= 28 {
      SignedIsVerified(sign, policy.key, raw.payload);
      assert raw.payload[..4] + raw.payload[4..12] == raw.payload[..12];
    } else {
      ShortIsUnsigned(sign, policy.key, raw.payload);
    }
    hide Unwrap, Verify, Signed, PutField;
  }

  lemma ShortIsUnsigned(sign: Sign, key: Text, payload: Buffer)
    requires |payload| < 28
    ensures !Signed(sign, key, payload)
  {
    forall seqNo: U32, nonce: U64, inner: Buffer ensures payload != Wrap(sign, key, seqNo, nonce, inner) {
      EnvelopeBytes(sign, key, seqNo, nonce, inner);
    }
    hide Wrap;
  }

  /** With signatures required, whatever the server's key did not envelope changes exactly its
      session's clock and protocol version, and is answered, by a version rejection, if and only if
      its transport is accepted and its version is not. */
  lemma OnlySignedPacketsAct(sign: Sign, policy: Policy, decode: Buffer -> Request, s: State, sid: SessionId, raw: Raw,
                             now: Time)
    requires sid in s.sessions && policy.requireHmac && !Signed(sign, policy.key, raw.payload)
    ensures
      var (t, reply) := HandleRaw(sign, policy, decode, s, sid, raw, now);
      && OnlyRefreshed(s, t, sid, raw.version, now)
      && reply == if (policy.requireTls ==> raw.tls) && !(1 <= raw.version <= 3)
                  then VersionRejected(1, 3, raw.version) else Nothing
  {
    hide Packet, Unwrap, Wrap, Verify;
    if Unwrap(raw.payload).Some? {
      var (header, inner) := Unwrap(raw.payload).value;
      WrapsWhatWasUnwrapped(sign, policy.key, raw.payload);
      assert raw.payload != Wrap(sign, policy.key, header.seqNo, header.nonce, inner);
    }
  }

  /** Past the version check no packet is answered by a version rejection. */
  lemma NoRejectionFromPackets(s: State, sid: SessionId, v: U16, stamp: Option<Session.Stamp>, r: Request, now: Time)
    requires sid in s.sessions
    ensures !Packet(s, sid, v, stamp, r, now).1.VersionRejected?
  {
    ServerFrames.PacketIs(s, sid, v, stamp, r, now);
    hide Packet, Handle, Admit, Receive;
    ServerAnswers.HandleAnswers(Admit(Receive(s, sid, v, now), sid, stamp).0, sid, r, now);
  }

  /** Under every policy a version rejection goes out exactly for an accepted transport and a version
      outside 1..3, signed or not, and then only clock and version change. */
  lemma VersionRejectedExactly(sign: Sign, policy: Policy, decode: Buffer -> Request, s: State, sid: SessionId, raw: Raw,
                               now: Time)
    requires sid in s.sessions
    ensures
      var (t, reply) := HandleRaw(sign, policy, decode, s, sid, raw, now);
      && (reply.VersionRejected? <==> (policy.requireTls ==> raw.tls) && !(1 <= raw.version <= 3))
      && (reply.VersionRejected? ==>
            reply == VersionRejected(1, 3, raw.version) && OnlyRefreshed(s, t, sid, raw.version, now))
  {
    var verdict := Screen(sign, policy, raw);
    if verdict.Screened? {
      NoRejectionFromPackets(s, sid, raw.version, verdict.stamp, decode(verdict.payload), now);
    }
    hide Packet, Unwrap, Verify;
  }

  /** An empty payload of version 7 under a policy that requires signatures: no envelope, yet it is
      answered, and it leaves 7 on the session as the version its event frames will carry. */
  lemma UnsignedVersionSeven(sign: Sign, key: Text, decode: Buffer -> Request, s: State, sid: SessionId, now: Time)
    requires sid in s.sessions
    ensures
      var policy, raw := Policy(false, true, true, key), Raw(false, 7, []);
      var (t, reply) := HandleRaw(sign, policy, decode, s, sid, raw, now);
      && !Signed(sign, key, raw.payload)
      && reply == VersionRejected(1, 3, 7)
      && sid in t.sessions && t.sessions[sid].version == 7
  {
    forall seqNo: U32, nonce: U64, inner: Buffer ensures [] != Wrap(sign, key, seqNo, nonce, inner) {
      assert |Wrap(sign, key, seqNo, nonce, inner)| >= |sign(key, seqNo, nonce, inner)| == 16;
    }
    hide Packet, Wrap;
  }

  /** What a sender wraps under the policy's key passes the screen with its own stamp and payload,
      whatever the policy, on an accepted transport and version. */
  lemma WrappedPacketsPass(sign: Sign, policy: Policy, tls: bool, version: U16, seqNo: U32, nonce: U64, inner: Buffer)
    requires policy.requireTls ==> tls
    requires 1 <= version <= 3 && (policy.requireHmac || policy.replayProtection)
    ensures Screen(sign, policy, Raw(tls, version, Wrap(sign, policy.key, seqNo, nonce, inner)))
         == Screened(if policy.replayProtection then Some(Session.Stamp(seqNo, nonce)) else None, inner)
  {
    UnwrapsWhatWasWrapped(sign, policy.key, seqNo, nonce, inner);
    hide Unwrap, Wrap, Verify;
  }

  // ----- The code -----

  method ScreenPacket(sign: Sign, policy: Policy, raw: Raw) returns (verdict: Verdict)
    ensures verdict == Screen(sign, policy, raw)
  {
    if policy.requireTls && !raw.tls {
      return Violation;
    }
    if raw.version < MIN_VERSION || raw.version > MAX_VERSION {
      return WrongVersion;
    }
    if !policy.requireHmac && !policy.replayProtection {
      return Screened(None, raw.payload);
    }
    var unwrapped := UnwrapSecurePayload(raw.payload);
    if unwrapped.None? {
      return Violation;
    }
    var (header, inner) := unwrapped.value;
    if policy.requireHmac && !Verify(sign, policy.key, header, inner) {
      return Violation;
    }
    var stamp := if policy.replayProtection then Some(Session.Stamp(header.seqNo, header.nonce)) else None;
    return Screened(stamp, inner);
  }

  /** A packet from its raw payload, on the server object. */
  method HandleRawPacket(server: ServerObject.GameServer, session: Session.ClientSession, sign: Sign, policy: Policy,
                         decode: Buffer -> Request, raw: Raw, now: Time)
    returns (reply: Reply)
    requires server.Valid() && server.Owns(session) && session.id in server.State().sessions
    modifies server, server.sessions.Values, server.registry, server.tokens, server.parties, server.guilds
    modifies server.matches, server.instances, server.storage, server.storage.persistent, server.storage.cache
    ensures server.Valid()
    ensures (server.State(), reply) == HandleRaw(sign, policy, decode, old(server.State()), session.id, raw, now)
  {
    hide Screen, ServerObject.GameServer.Valid, ServerObject.GameServer.State, Receive, Packet;
    var verdict := ScreenPacket(sign, policy, raw);
    if verdict.Screened? {
      reply := server.HandlePacket(session, raw.version, verdict.stamp, decode(verdict.payload), now);
    } else {
      server.Arrive(session, raw.version, now);
      reply := if verdict.WrongVersion? then VersionRejected(MIN_VERSION, MAX_VERSION, raw.version) else Nothing;
    }
  }
}
