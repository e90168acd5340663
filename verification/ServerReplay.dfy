/** The replay check in front of every packet, over runs of the server.

    Main results: no envelope is handled twice on a session that has not reconnected in between; a
    reconnect can take a session's sequence number back, and after it a stamp passes exactly when
    its number is above the restored one and its nonce has left the session's window. */
module ServerReplay {
  import opened Common
  import opened Server
  import Session
  import ServerFrames
  import Party
  import Guild
  import Registry
  import Tokens
  import Instances

  // ----- No envelope is handled twice -----

  lemma ReconnectGates(s: State, sid: SessionId, token: string, lastSeq: U32, now: Time, k: SessionId)
    requires sid in s.sessions
    ensures
      var t := Reconnect(s, sid, token, lastSeq, now).0;
      k in t.sessions ==> k in s.sessions && (k != sid ==> t.sessions[k].gate == s.sessions[k].gate)
  {
    var (tokens, user) := Tokens.Validate(s.tokens, token, now);
    if user.Some? {
      ServerFrames.DisplaceFrame(s.(tokens := tokens), sid, user.value);
    }
    ServerFrames.ReconnectAttaches(s, sid, token, lastSeq, now);
    hide Reconnect, Displace, Tokens.Validate, ServerFrames.Elsewhere, PreviousSeq, Restored;
  }

  /** Handling a request that is not a reconnect of session `k` leaves `k`'s replay gate alone. */
  lemma HandleGates(s: State, sid: SessionId, r: Request, now: Time, k: SessionId)
    requires sid in s.sessions && !(r.ReconnectReq? && k == sid)
    ensures
      var t := Handle(s, sid, r, now).0;
      && t.nextId == s.nextId
      && (k in t.sessions ==> k in s.sessions && t.sessions[k].gate == s.sessions[k].gate)
  {
    ServerFrames.HandleFrame(s, sid, r, now);
    hide Login, Logout, Reconnect, Match, Enter, Result, Update, CreateGuild, JoinGuild, LeaveGuild, Tokens.Issue,
         Registry.Remove;
    match r
    case LoginReq(user, password, token) => ServerFrames.LoginFrame(s, sid, user, password, token, now);
    case LogoutReq => ServerFrames.LogoutFrame(s, sid);
    case ReconnectReq(token, lastSeq) => ReconnectGates(s, sid, token, lastSeq, now, k);
    case _ => hide Handle;
  }

  /** The last sequence number of session `k` does not fall. */
  ghost predicate SeqHolds(s: State, t: State, k: SessionId) {
    k in t.sessions ==> k in s.sessions && s.sessions[k].gate.lastSeq <= t.sessions[k].gate.lastSeq
  }

  lemma AdmitRaises(s: State, sid: SessionId, v: U16, stamp: Option<Session.Stamp>, now: Time, k: SessionId)
    requires sid in s.sessions
    ensures
      var (t, ok) := Admit(Receive(s, sid, v, now), sid, stamp);
      && SeqHolds(s, t, k) && t.sessions.Keys == s.sessions.Keys && t.nextId == s.nextId
      && (stamp.Some? && ok ==> s.sessions[sid].gate.lastSeq < stamp.value.seqNo == t.sessions[sid].gate.lastSeq)
  {
    hide Session.RecordNonce;
  }

  lemma PacketSeq(s: State, sid: SessionId, v: U16, stamp: Option<Session.Stamp>, r: Request, now: Time, k: SessionId)
    requires sid in s.sessions && !(r.ReconnectReq? && k == sid)
    ensures SeqHolds(s, Packet(s, sid, v, stamp, r, now).0, k) && Packet(s, sid, v, stamp, r, now).0.nextId == s.nextId
  {
    AdmitRaises(s, sid, v, stamp, now, k);
    var (admitted, ok) := Admit(Receive(s, sid, v, now), sid, stamp);
    if ok {
      HandleGates(admitted, sid, r, now, k);
    }
    hide Handle, Admit, Receive;
  }

  /** Event `e` is not a reconnect from session `k`. */
  predicate NoReconnect(e: Event, k: SessionId) {
    !(e.Deliver? && e.id == k && e.request.ReconnectReq?)
  }

  lemma StepSeq(s: State, e: Event, k: SessionId)
    requires Enabled(s, e) && NoReconnect(e, k) && k < s.nextId
    ensures SeqHolds(s, Next(s, e), k) && s.nextId <= Next(s, e).nextId
  {
    if e.Deliver? {
      PacketSeq(s, e.id, e.version, e.stamp, e.request, e.now, k);
      hide Packet;
    } else {
      hide Party.RemoveMember, Guild.RemoveMember, Party.Without, Guild.Without, Registry.Without, Registry.Remove, Party.Step,
           Instances.Create, Instances.TerminateInstance, Instances.RequestTransition;
    }
  }

  lemma {:induction false} RunSeq(s: State, es: seq<Event>, k: SessionId)
    requires Runs(s, es) && k < s.nextId && forall e :: e in es ==> NoReconnect(e, k)
    ensures SeqHolds(s, After(s, es), k)
    decreases |es|
  {
    hide Next, Enabled, NoReconnect;
    if es != [] {
      assert es[0] in es && forall e :: e in es[1..] ==> e in es;
      StepSeq(s, es[0], k);
      RunSeq(Next(s, es[0]), es[1..], k);
    }
  }

  lemma HandledRaises(s: State, sid: SessionId, v: U16, stamp: Session.Stamp, r: Request, now: Time)
    requires sid in s.sessions && !r.ReconnectReq?
    requires Admit(Receive(s, sid, v, now), sid, Some(stamp)).1
    ensures
      var t := Packet(s, sid, v, Some(stamp), r, now).0;
      && t.nextId == s.nextId
      && (sid in t.sessions ==> stamp.seqNo <= t.sessions[sid].gate.lastSeq)
  {
    AdmitRaises(s, sid, v, Some(stamp), now, sid);
    HandleGates(Admit(Receive(s, sid, v, now), sid, Some(stamp)).0, sid, r, now, sid);
    hide Handle, Admit, Receive;
  }

  lemma StaleIsIgnored(s: State, sid: SessionId, v: U16, stamp: Session.Stamp, r: Request, now: Time)
    requires sid in s.sessions && stamp.seqNo <= s.sessions[sid].gate.lastSeq
    ensures Packet(s, sid, v, Some(stamp), r, now) == (Receive(s, sid, v, now), Nothing)
  {
    hide Session.RecordNonce, Handle;
    var received := Receive(s, sid, v, now);
    assert received.sessions[sid := received.sessions[sid]] == received.sessions;
  }

  /** Once a packet's stamp has passed the replay check of a session, no packet with a stamp of that
      number or a lower one does more on it than refresh its clock and store its header's version,
      after any events but a reconnect from that session. */
  lemma NeverHandledTwice(s: State, sid: SessionId, v: U16, stamp: Session.Stamp, r: Request, now: Time,
                          es: seq<Event>, w: U16, again: Session.Stamp, r1: Request, later: Time)
    requires sid in s.sessions && sid < s.nextId && !r.ReconnectReq?
    requires Admit(Receive(s, sid, v, now), sid, Some(stamp)).1
    requires
      var t := Packet(s, sid, v, Some(stamp), r, now).0;
      && Runs(t, es) && (forall e :: e in es ==> NoReconnect(e, sid))
      && sid in After(t, es).sessions
    requires again.seqNo <= stamp.seqNo
    ensures
      var u := After(Packet(s, sid, v, Some(stamp), r, now).0, es);
      Packet(u, sid, w, Some(again), r1, later) == (Receive(u, sid, w, later), Nothing)
  {
    HandledRaises(s, sid, v, stamp, r, now);
    var t := Packet(s, sid, v, Some(stamp), r, now).0;
    hide Packet, Admit, Receive, Runs, After;
    RunSeq(t, es, sid);
    StaleIsIgnored(After(t, es), sid, w, again, r1, later);
  }

  /** A reconnect, and only it, can take a session's sequence number back: exactly when both the
      client's number and the displaced session's are below it. */
  lemma ReconnectMayLowerSeq(s: State, sid: SessionId, token: string, lastSeq: U32, now: Time)
    requires sid in s.sessions
    ensures
      var (t, reply) := Reconnect(s, sid, token, lastSeq, now);
      reply.Reconnected? ==>
        && sid in t.sessions
        && (t.sessions[sid].gate.lastSeq < s.sessions[sid].gate.lastSeq
            <==> lastSeq < s.sessions[sid].gate.lastSeq
                 && PreviousSeq(s, sid, s.tokens[token].user) < s.sessions[sid].gate.lastSeq)
  {
    hide Displace, Registry.Register, PreviousSeq;
  }

  lemma ReconnectGate(s: State, sid: SessionId, token: string, lastSeq: U32, now: Time)
    requires sid in s.sessions
    ensures
      var (t, reply) := Reconnect(s, sid, token, lastSeq, now);
      reply.Reconnected? ==>
        && token in s.tokens && sid in t.sessions
        && t.sessions[sid].gate
           == s.sessions[sid].gate.(lastSeq := Restored(lastSeq, PreviousSeq(s, sid, s.tokens[token].user)))
  {
    var (tokens, user) := Tokens.Validate(s.tokens, token, now);
    if user.Some? {
      ServerFrames.DisplaceFrame(s.(tokens := tokens), sid, user.value);
    }
    ServerFrames.ReconnectAttaches(s, sid, token, lastSeq, now);
    hide Reconnect, Displace, ServerFrames.Elsewhere, PreviousSeq, Restored;
  }

  /** Right after an accepted reconnect a stamp passes the session's replay check, whether or not it
      passed before, exactly when its number is above the restored one and its nonce is not among
      the nonces the session still remembers. */
  lemma PassesAfterReconnect(s: State, sid: SessionId, token: string, lastSeq: U32, now: Time, v: U16,
                             stamp: Session.Stamp, later: Time)
    requires sid in s.sessions
    ensures
      var (t, reply) := Reconnect(s, sid, token, lastSeq, now);
      reply.Reconnected? ==>
        && token in s.tokens && sid in t.sessions
        && (Admit(Receive(t, sid, v, later), sid, Some(stamp)).1
            <==> Restored(lastSeq, PreviousSeq(s, sid, s.tokens[token].user)) < stamp.seqNo
                 && stamp.nonce !in s.sessions[sid].gate.window)
  {
    ReconnectGate(s, sid, token, lastSeq, now);
    hide Reconnect, PreviousSeq, Restored;
  }

  /** A session that remembers one nonce logs in with number 5, sends number 6, and reconnects to
      itself with client number 0: the very stamp of its login passes again. */
  lemma LoginStampPassesAgain(user: string, token: string) returns (s: State)
    ensures
      var first, second, third := Session.Stamp(5, 50), Session.Stamp(6, 60), Session.Stamp(7, 70);
      Leads([Connect(10, 1, 0), Deliver(1, 1, Some(first), LoginReq(user, PASSWORD, token), 0),
             Deliver(1, 1, Some(second), MalformedReq, 0), Deliver(1, 1, Some(third), ReconnectReq(token, 0), 0)], s)
    ensures 1 in s.sessions && Admit(Receive(s, 1, 1, 0), 1, Some(Session.Stamp(5, 50))).1
  {
    var connect, login := Connect(10, 1, 0), Deliver(1, 1, Some(Session.Stamp(5, 50)), LoginReq(user, PASSWORD, token), 0);
    var malformed := Deliver(1, 1, Some(Session.Stamp(6, 60)), MalformedReq, 0);
    var again := Deliver(1, 1, Some(Session.Stamp(7, 70)), ReconnectReq(token, 0), 0);
    var s2 := FirstStampPassed(user, token);
    SecondStampPasses(s2, user, token);
    var s3 := Next(s2, malformed);
    ReconnectsToItself(s3, user, token);
    s := Next(s3, again);
    hide Leads, Next, Admit, Receive;
    LeadsOn([connect, login], s2, malformed);
    LeadsOn([connect, login] + [malformed], s3, again);
    assert [connect, login] + [malformed] + [again] == [connect, login, malformed, again];
  }

  lemma GateSteps()
    ensures Session.PassGate(Session.Gate(0, [], 1), 5, 50) == (Session.Gate(5, [50], 1), true)
    ensures Session.PassGate(Session.Gate(5, [50], 1), 6, 60) == (Session.Gate(6, [60], 1), true)
    ensures Session.PassGate(Session.Gate(6, [60], 1), 7, 70) == (Session.Gate(7, [70], 1), true)
    ensures Session.PassGate(Session.Gate(0, [70], 1), 5, 50).1
  {
    assert [] + [50] == [50] && [50] + [60] == [50, 60] && [60] + [70] == [60, 70];
    assert [50, 60][1..] == [60] && [60, 70][1..] == [70];
  }

  /** Session 1 is the only one, the user is active on it, the token is good and the gate is this. */
  ghost predicate LoggedInAlone(s: State, user: string, token: string, gate: Session.Gate) {
    && s.sessions.Keys == {1} && s.sessions[1].gate == gate
    && s.registry == Registry.State(map[1 := Session.UserContext(user, token)], map[user := 1])
    && s.tokens == map[token := Tokens.TokenRecord(user, Tokens.TTL)]
  }

  lemma FirstStampPassed(user: string, token: string) returns (s: State)
    ensures Leads([Connect(10, 1, 0), Deliver(1, 1, Some(Session.Stamp(5, 50)), LoginReq(user, PASSWORD, token), 0)], s)
    ensures LoggedInAlone(s, user, token, Session.Gate(5, [50], 1))
  {
    var connect, login := Connect(10, 1, 0), Deliver(1, 1, Some(Session.Stamp(5, 50)), LoginReq(user, PASSWORD, token), 0);
    var s1 := START.(nextId := 2, sessions := map[1 := Client(None, Session.Gate(0, [], 1), true, 0, 10, 0)]);
    assert Next(START, connect) == s1;
    s := Next(s1, login);
    FirstLogin(s1, user, token);
    LeadsNowhere();
    hide Leads, Next;
    LeadsOn([], START, connect);
    LeadsOn([] + [connect], s1, login);
    assert [] + [connect] + [login] == [connect, login];
  }

  /** A packet whose stamp passes is handled with the gate moved on, and nothing else changed but the
      session's clock and version. */
  lemma StampPasses(s: State, stamp: Session.Stamp, r: Request, gate: Session.Gate, later: Session.Gate)
    requires 1 in s.sessions && s.sessions[1].gate == gate
    requires Session.PassGate(gate, stamp.seqNo, stamp.nonce) == (later, true)
    ensures
      var c := s.sessions[1].(lastReceive := 0, version := 1, gate := later);
      Next(s, Deliver(1, 1, Some(stamp), r, 0)) == Handle(s.(sessions := s.sessions[1 := c]), 1, r, 0).0
  {
    ServerFrames.AdmitIs(s, 1, 1, stamp, 0);
    ServerFrames.PacketIs(s, 1, 1, Some(stamp), r, 0);
    hide Session.PassGate, Admit, Receive, Handle, Packet;
  }

  lemma FirstLogin(s: State, user: string, token: string)
    requires s.sessions == map[1 := Client(None, Session.Gate(0, [], 1), true, 0, 10, 0)]
    requires s.registry == Registry.EMPTY && s.tokens == map[]
    ensures
      var login := Deliver(1, 1, Some(Session.Stamp(5, 50)), LoginReq(user, PASSWORD, token), 0);
      LoggedInAlone(Next(s, login), user, token, Session.Gate(5, [50], 1))
  {
    GateSteps();
    hide Session.PassGate;
    StampPasses(s, Session.Stamp(5, 50), LoginReq(user, PASSWORD, token), s.sessions[1].gate, Session.Gate(5, [50], 1));
    hide Next;
  }

  lemma SecondStampPasses(s: State, user: string, token: string)
    requires LoggedInAlone(s, user, token, Session.Gate(5, [50], 1))
    ensures LoggedInAlone(Next(s, Deliver(1, 1, Some(Session.Stamp(6, 60)), MalformedReq, 0)), user, token,
                          Session.Gate(6, [60], 1))
  {
    GateSteps();
    StampPasses(s, Session.Stamp(6, 60), MalformedReq, s.sessions[1].gate, Session.Gate(6, [60], 1));
    hide Session.PassGate, Next;
  }

  lemma ReconnectAlone(s: State, user: string, token: string, gate: Session.Gate)
    requires LoggedInAlone(s, user, token, gate)
    ensures
      var t := Reconnect(s, 1, token, 0, 0).0;
      1 in t.sessions && t.sessions[1].gate == gate.(lastSeq := 0)
  {
    ReconnectGate(s, 1, token, 0, 0);
    assert Reconnect(s, 1, token, 0, 0).1.Reconnected?;
    assert PreviousSeq(s, 1, user) == 0;
    hide Reconnect;
  }

  lemma ReconnectsToItself(s: State, user: string, token: string)
    requires LoggedInAlone(s, user, token, Session.Gate(6, [60], 1))
    ensures
      var t := Next(s, Deliver(1, 1, Some(Session.Stamp(7, 70)), ReconnectReq(token, 0), 0));
      1 in t.sessions && Admit(Receive(t, 1, 1, 0), 1, Some(Session.Stamp(5, 50))).1
  {
    var e := Deliver(1, 1, Some(Session.Stamp(7, 70)), ReconnectReq(token, 0), 0);
    GateSteps();
    hide Session.PassGate;
    StampPasses(s, e.stamp.value, e.request, s.sessions[1].gate, Session.Gate(7, [70], 1));
    var c := s.sessions[1].(lastReceive := 0, version := 1, gate := Session.Gate(7, [70], 1));
    var admitted := s.(sessions := s.sessions[1 := c]);
    ReconnectAlone(admitted, user, token, Session.Gate(7, [70], 1));
    hide Next, Reconnect;
    ServerFrames.AdmitIs(Next(s, e), 1, 1, Session.Stamp(5, 50), 0);
    hide Admit, Receive;
  }
}
