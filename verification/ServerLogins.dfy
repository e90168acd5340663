/** Who is logged in, and how a session got there.

    Main results: a login is answered exactly for the password and a user active on no other session,
    and changes nothing otherwise; in every run, whoever a session is logged in as, an earlier login
    request for that user, issued the session's token, carried the password; an accepted reconnect
    answers the least sequence number that passes from then on. */
module ServerLogins {
  import opened Common
  import opened Server
  import ServerFrames
  import ServerAnswers
  import Session
  import Registry
  import Tokens
  import Party

  // ----- One login -----

  /** A login is answered exactly for the password and a user active on no other session; a wrong
      password is what it is refused for first, and a refused one changes nothing. */
  lemma LoginExactly(s: State, sid: SessionId, user: string, password: string, token: string, now: Time)
    requires sid in s.sessions
    ensures
      var (t, reply) := Login(s, sid, user, password, token, now);
      var elsewhere := user in s.registry.active && s.registry.active[user] != sid;
      && (reply == LoggedIn(token) <==> password == "letmein" && !elsewhere)
      && (reply == Refused(InvalidCredentials) <==> password != "letmein")
      && (reply == Refused(AlreadyLoggedIn) <==> password == "letmein" && elsewhere)
      && (reply != LoggedIn(token) ==> t == s)
  {
    hide Tokens.Issue;
  }

  /** An answered login attaches the user to the session, files the token for 300 seconds, and makes
      the user active on this session in place of any other the session was logged in as. */
  lemma LoginAttaches(s: State, sid: SessionId, user: string, password: string, token: string, now: Time)
    requires sid in s.sessions && Login(s, sid, user, password, token, now).1 == LoggedIn(token)
    ensures
      var (t, context) := (Login(s, sid, user, password, token, now).0, Session.UserContext(user, token));
      && t == s.(sessions := s.sessions[sid := s.sessions[sid].(user := Some(context))], registry := t.registry,
                 tokens := s.tokens[token := Tokens.TokenRecord(user, now + 300_000)])
      && t.registry.records == s.registry.records[sid := context]
      && user in t.registry.active && t.registry.active[user] == sid
      && forall u :: u != user ==>
           && (u in t.registry.active
               <==> u in s.registry.active && !(sid in s.registry.records && s.registry.records[sid].user == u))
           && (u in t.registry.active ==> t.registry.active[u] == s.registry.active[u])
  {
    assert password == PASSWORD && !TakenElsewhere(s, sid, user);
    ServerFrames.LoginIs(s, sid, user, token, now);
    hide Login;
  }

  /** What a handled login answers, and whom it leaves the session logged in as. */
  lemma LoginHandled(s: State, sid: SessionId, user: string, password: string, token: string, now: Time)
    requires sid in s.sessions
    ensures
      var (t, reply) := Handle(s, sid, LoginReq(user, password, token), now);
      && reply == (if password != "letmein" then Refused(InvalidCredentials)
                   else if user in s.registry.active && s.registry.active[user] != sid then Refused(AlreadyLoggedIn)
                   else LoggedIn(token))
      && sid in t.sessions
      && t.sessions[sid].user == if reply == LoggedIn(token) then Some(Session.UserContext(user, token))
                                 else s.sessions[sid].user
  {
    assert Handle(s, sid, LoginReq(user, password, token), now) == Login(s, sid, user, password, token, now) by {
      hide Login;
    }
    hide Handle, Login;
    LoginExactly(s, sid, user, password, token, now);
    if Login(s, sid, user, password, token, now).1 == LoggedIn(token) {
      LoginAttaches(s, sid, user, password, token, now);
    }
  }

  /** The same through a packet: a login that does not pass the replay check is not answered. */
  lemma LoginPacketExactly(s: State, sid: SessionId, v: U16, stamp: Option<Session.Stamp>, user: string,
                           password: string, token: string, now: Time)
    requires sid in s.sessions
    ensures
      var (t, reply) := Packet(s, sid, v, stamp, LoginReq(user, password, token), now);
      var gate := s.sessions[sid].gate;
      var passes := stamp.Some? ==> gate.lastSeq < stamp.value.seqNo && stamp.value.nonce !in gate.window;
      var elsewhere := user in s.registry.active && s.registry.active[user] != sid;
      && reply == (if !passes then Nothing
                   else if password != "letmein" then Refused(InvalidCredentials)
                   else if elsewhere then Refused(AlreadyLoggedIn)
                   else LoggedIn(token))
      && sid in t.sessions
      && t.sessions[sid].user == if reply == LoggedIn(token) then Some(Session.UserContext(user, token))
                                 else s.sessions[sid].user
  {
    var u := ServerAnswers.PacketExactly(s, sid, v, stamp, LoginReq(user, password, token), now);
    hide Packet, Handle;
    LoginHandled(u, sid, user, password, token, now);
  }

  // ----- Where a reconnected session goes on -----

  /** A reconnect with a token that is unknown or has expired is refused, and such a token is forgotten;
      nothing else changes. */
  lemma ReconnectRefuses(s: State, sid: SessionId, token: string, lastSeq: U32, now: Time)
    requires sid in s.sessions && !(token in s.tokens && now < s.tokens[token].expiresAt)
    ensures Reconnect(s, sid, token, lastSeq, now) == (s.(tokens := s.tokens - {token}), Refused(InvalidToken))
  {
    assert token !in s.tokens ==> s.tokens - {token} == s.tokens;
    hide Displace, Registry.Register;
  }

  /** An accepted reconnect logs the session in, and registers it, as the token's user; every session but
      the one the user was active on stays as it was, and so do the tokens. */
  lemma ReconnectRegisters(s: State, sid: SessionId, token: string, lastSeq: U32, now: Time)
    requires sid in s.sessions
    ensures
      var (t, reply) := Reconnect(s, sid, token, lastSeq, now);
      reply.Reconnected? ==>
        && token in s.tokens && t.tokens == s.tokens
        && var user := s.tokens[token].user;
           && sid in t.sessions && t.sessions[sid].user == Some(Session.UserContext(user, token))
           && sid in t.registry.records && t.registry.records[sid] == Session.UserContext(user, token)
           && user in t.registry.active && t.registry.active[user] == sid
           && (forall k :: k in t.sessions
                 <==> k in s.sessions && !(k != sid && user in s.registry.active && s.registry.active[user] == k))
           && forall k :: k in t.sessions && k != sid ==> t.sessions[k] == s.sessions[k]
  {
    var (tokens, user) := Tokens.Validate(s.tokens, token, now);
    if user.Some? {
      var free := Displace(s.(tokens := tokens), sid, user.value);
      ServerFrames.DisplaceFrame(s.(tokens := tokens), sid, user.value);
      ServerFrames.ReconnectIs(s, sid, token, lastSeq, now, user.value);
      Registry.RegistersExactly(free.registry, sid, Session.UserContext(user.value, token));
    }
    assert user.None? ==> !Reconnect(s, sid, token, lastSeq, now).1.Reconnected? by { hide Displace; }
    hide Reconnect, Displace, Registry.Register, PreviousSeq, Restored, ResumeFrom;
  }

  /** An accepted reconnect goes on from the client's number or that of the session the token's user is
      active on elsewhere, 0 without one, whichever is larger, and answers one more. */
  lemma ReconnectNumbers(s: State, sid: SessionId, token: string, lastSeq: U32, now: Time)
    requires sid in s.sessions
    ensures
      var (t, reply) := Reconnect(s, sid, token, lastSeq, now);
      reply.Reconnected? ==>
        && token in s.tokens && sid in t.sessions
        && var user := s.tokens[token].user;
           var displaced := if user in s.registry.active && s.registry.active[user] != sid
                               && s.registry.active[user] in s.sessions
                            then s.sessions[s.registry.active[user]].gate.lastSeq else 0;
           var restored := if lastSeq < displaced then displaced else lastSeq;
           && t.sessions[sid].gate == s.sessions[sid].gate.(lastSeq := restored)
           && reply == Reconnected(sid, (restored + 1) % 0x1_0000_0000)
  {
    var (tokens, user) := Tokens.Validate(s.tokens, token, now);
    if user.Some? {
      ServerFrames.DisplaceFrame(s.(tokens := tokens), sid, user.value);
      ServerFrames.ReconnectIs(s, sid, token, lastSeq, now, user.value);
    }
    assert user.None? ==> !Reconnect(s, sid, token, lastSeq, now).1.Reconnected? by { hide Displace; }
    hide Reconnect, Displace, Registry.Register, ServerFrames.Elsewhere;
  }

  /** A packet of session `sid` with this number and nonce passes the replay check. */
  ghost predicate Passes(s: State, sid: SessionId, n: U32, nonce: U64, v: U16, now: Time)
    requires sid in s.sessions
  {
    Admit(Receive(s, sid, v, now), sid, Some(Session.Stamp(n, nonce))).1
  }

  lemma PassesAbove(s: State, sid: SessionId, n: U32, nonce: U64, v: U16, now: Time)
    requires sid in s.sessions
    ensures Passes(s, sid, n, nonce, v, now)
      <==> s.sessions[sid].gate.lastSeq < n && nonce !in s.sessions[sid].gate.window
  {
    ServerFrames.AdmitIs(s, sid, v, Session.Stamp(n, nonce), now);
    Session.PassesExactly(s.sessions[sid].gate, n, nonce);
    hide Admit, Receive, Session.PassGate;
  }

  /** `n` is the first number that passes on session `sid`: a stamp with it and a nonce outside the
      window passes, and none with a smaller number does. After the last 32-bit number it is 0, and
      nothing passes any more. */
  ghost predicate FirstThatPasses(s: State, sid: SessionId, n: U32, v: U16, now: Time)
    requires sid in s.sessions
  {
    var gate := s.sessions[sid].gate;
    && (gate.lastSeq < 0xFFFF_FFFF ==>
          && n == gate.lastSeq + 1
          && (forall nonce: U64 :: nonce !in gate.window ==> Passes(s, sid, n, nonce, v, now))
          && (forall m: U32, nonce: U64 :: m < n ==> !Passes(s, sid, m, nonce, v, now)))
    && (gate.lastSeq == 0xFFFF_FFFF ==> n == 0)
    && (gate.lastSeq >= 0xFFFF_FFFF ==> forall m: U32, nonce: U64 :: !Passes(s, sid, m, nonce, v, now))
  }

  lemma NextNumberPasses(s: State, sid: SessionId, v: U16, now: Time)
    requires sid in s.sessions
    ensures FirstThatPasses(s, sid, (s.sessions[sid].gate.lastSeq + 1) % 0x1_0000_0000, v, now)
  {
    hide Passes;
    forall m: U32, nonce: U64
      ensures Passes(s, sid, m, nonce, v, now)
        <==> s.sessions[sid].gate.lastSeq < m && nonce !in s.sessions[sid].gate.window
    {
      PassesAbove(s, sid, m, nonce, v, now);
    }
  }

  lemma AnswersOneMore(s: State, sid: SessionId, token: string, lastSeq: U32, now: Time)
    requires sid in s.sessions && Reconnect(s, sid, token, lastSeq, now).1.Reconnected?
    ensures
      var (t, reply) := Reconnect(s, sid, token, lastSeq, now);
      sid in t.sessions && reply.resumeFrom == (t.sessions[sid].gate.lastSeq + 1) % 0x1_0000_0000
  {
    ReconnectNumbers(s, sid, token, lastSeq, now);
    hide Reconnect;
  }

  /** An accepted reconnect answers the first number that passes the replay check from then on. */
  lemma ResumesAtTheFirstThatPasses(s: State, sid: SessionId, token: string, lastSeq: U32, now: Time, v: U16, later: Time)
    requires sid in s.sessions && Reconnect(s, sid, token, lastSeq, now).1.Reconnected?
    ensures
      var (t, reply) := Reconnect(s, sid, token, lastSeq, now);
      sid in t.sessions && FirstThatPasses(t, sid, reply.resumeFrom, v, later)
  {
    AnswersOneMore(s, sid, token, lastSeq, now);
    hide Reconnect, FirstThatPasses;
    NextNumberPasses(Reconnect(s, sid, token, lastSeq, now).0, sid, v, later);
  }

  // ----- How a session comes by a user -----

  /** The request logs session `k` in as this user: it carries the password, or a token of that user
      that has not expired. */
  predicate LogsIn(s: State, r: Request, context: Session.UserContext, now: Time) {
    || r == LoginReq(context.user, "letmein", context.token)
    || (r.ReconnectReq? && r.token == context.token && context.token in s.tokens
        && s.tokens[context.token].user == context.user && now < s.tokens[context.token].expiresAt)
  }

  /** The request is what brings the token its record. */
  predicate Issues(r: Request, record: Tokens.TokenRecord, token: string, now: Time) {
    r == LoginReq(record.user, "letmein", token) && record.expiresAt == now + 300_000
  }

  /** Every user and token of `t` was there before, or comes from request `r` of session `sid`. */
  ghost predicate FromRequest(s: State, t: State, sid: SessionId, r: Request, now: Time) {
    && (forall k :: k in t.sessions && t.sessions[k].user.Some? ==>
          || (k in s.sessions && t.sessions[k].user == s.sessions[k].user)
          || (k == sid && LogsIn(s, r, t.sessions[k].user.value, now)))
    && (forall k :: k in t.tokens ==>
          || (k in s.tokens && t.tokens[k] == s.tokens[k])
          || Issues(r, t.tokens[k], k, now))
  }

  lemma LoginFrom(s: State, sid: SessionId, user: string, password: string, token: string, now: Time)
    requires sid in s.sessions
    ensures FromRequest(s, Login(s, sid, user, password, token, now).0, sid, LoginReq(user, password, token), now)
  {
    LoginExactly(s, sid, user, password, token, now);
    if Login(s, sid, user, password, token, now).1 == LoggedIn(token) {
      LoginAttaches(s, sid, user, password, token, now);
    }
    hide Login;
  }

  lemma ReconnectFrom(s: State, sid: SessionId, token: string, lastSeq: U32, now: Time)
    requires sid in s.sessions
    ensures FromRequest(s, Reconnect(s, sid, token, lastSeq, now).0, sid, ReconnectReq(token, lastSeq), now)
  {
    var (tokens, user) := Tokens.Validate(s.tokens, token, now);
    if user.Some? {
      ServerFrames.DisplaceFrame(s.(tokens := tokens), sid, user.value);
    }
    ServerFrames.ReconnectAttaches(s, sid, token, lastSeq, now);
    hide Reconnect, Displace, ServerFrames.Elsewhere, PreviousSeq, Restored;
  }

  lemma HandleFrom(s: State, sid: SessionId, r: Request, now: Time)
    requires sid in s.sessions
    ensures FromRequest(s, Handle(s, sid, r, now).0, sid, r, now)
  {
    hide Login, Logout, Reconnect, Match, Enter, Result, Update, CreateGuild, JoinGuild, LeaveGuild;
    match r
    case LoginReq(user, password, token) =>
      hide FromRequest;
      LoginFrom(s, sid, user, password, token, now);
    case ReconnectReq(token, lastSeq) =>
      hide FromRequest;
      ReconnectFrom(s, sid, token, lastSeq, now);
    case LogoutReq => ServerFrames.LogoutFrame(s, sid);
    case _ =>
      hide FromRequest, Handle;
      OthersFrom(s, sid, r, now);
  }

  lemma OthersFrom(s: State, sid: SessionId, r: Request, now: Time)
    requires sid in s.sessions && !r.LoginReq? && !r.LogoutReq? && !r.ReconnectReq?
    ensures FromRequest(s, Handle(s, sid, r, now).0, sid, r, now)
  {
    ServerFrames.HandleFrame(s, sid, r, now);
    hide Handle;
  }

  /** In any step a session gains a user only by its own request, a login with the password or a
      reconnect with an unexpired token, and a token comes only from a login with the password. */
  lemma StepFrom(s: State, e: Event)
    requires Enabled(s, e)
    ensures e.Deliver? ==> FromRequest(s, Next(s, e), e.id, e.request, e.now)
    ensures !e.Deliver? ==> FromRequest(s, Next(s, e), 0, MalformedReq, 0)
  {
    if e.Deliver? {
      var u := ServerAnswers.PacketExactly(s, e.id, e.version, e.stamp, e.request, e.now);
      HandleFrom(u, e.id, e.request, e.now);
      hide Packet, Handle;
    } else {
      ServerFrames.QuietFrame(s, e);
      QuietUsers(s, e);
      hide Next;
    }
  }

  lemma QuietUsers(s: State, e: Event)
    requires Enabled(s, e) && !e.Deliver?
    ensures forall k :: k in Next(s, e).sessions && Next(s, e).sessions[k].user.Some? ==>
              k in s.sessions && Next(s, e).sessions[k].user == s.sessions[k].user
  {
    hide Party.RemoveMember, Party.Without, Registry.Without, Registry.Remove, Party.Step, DeadAt;
  }

  // ----- Over runs -----

  /** Some event is a login request for this user that carries the password and is issued this token. */
  ghost predicate Presented(es: seq<Event>, user: string, token: string) {
    exists e :: e in es && e.Deliver? && e.request == LoginReq(user, "letmein", token)
  }

  /** Every logged-in session's user and token, and every token's user, were presented. */
  ghost predicate Accounted(s: State, es: seq<Event>) {
    && (forall k :: k in s.sessions && s.sessions[k].user.Some? ==>
          Presented(es, s.sessions[k].user.value.user, s.sessions[k].user.value.token))
    && (forall k :: k in s.tokens ==> Presented(es, s.tokens[k].user, k))
  }

  lemma PresentedBefore(es: seq<Event>, e: Event, user: string, token: string)
    requires Presented(es, user, token)
    ensures Presented(es + [e], user, token)
  {
    var e0 :| e0 in es && e0.Deliver? && e0.request == LoginReq(user, "letmein", token);
    assert e0 in es + [e];
  }

  lemma PresentedNow(es: seq<Event>, e: Event, user: string, token: string)
    requires e.Deliver? && e.request == LoginReq(user, "letmein", token)
    ensures Presented(es + [e], user, token)
  {
    assert e in es + [e];
  }

  lemma StepAccounts(s: State, es: seq<Event>, e: Event)
    requires Accounted(s, es) && Enabled(s, e)
    ensures Accounted(Next(s, e), es + [e])
  {
    StepFrom(s, e);
    hide Next, Enabled, Presented;
    var t := Next(s, e);
    forall k | k in t.sessions && t.sessions[k].user.Some?
      ensures Presented(es + [e], t.sessions[k].user.value.user, t.sessions[k].user.value.token)
    {
      var c := t.sessions[k].user.value;
      if e.Deliver? && e.request == LoginReq(c.user, "letmein", c.token) {
        PresentedNow(es, e, c.user, c.token);
      } else {
        PresentedBefore(es, e, c.user, c.token);
      }
    }
    forall k | k in t.tokens ensures Presented(es + [e], t.tokens[k].user, k) {
      if e.Deliver? && e.request == LoginReq(t.tokens[k].user, "letmein", k) {
        PresentedNow(es, e, t.tokens[k].user, k);
      } else {
        PresentedBefore(es, e, t.tokens[k].user, k);
      }
    }
  }

  lemma {:induction false} RunAccounts(s: State, past: seq<Event>, es: seq<Event>)
    requires Accounted(s, past) && Runs(s, es)
    ensures Accounted(After(s, es), past + es)
    decreases |es|
  {
    hide Next, Enabled, Accounted;
    if es == [] {
      assert past + es == past;
    } else {
      StepAccounts(s, past, es[0]);
      RunAccounts(Next(s, es[0]), past + [es[0]], es[1..]);
      assert past + [es[0]] + es[1..] == past + es;
    }
  }

  /** In every run, whoever a session is logged in as, some login request of the run for that user
      carried the password, and was issued the token the session holds; and so it is for the user of
      every token the server knows. */
  lemma EveryUserGaveThePassword(es: seq<Event>)
    requires Runs(START, es)
    ensures Accounted(After(START, es), es)
  {
    assert Accounted(START, []);
    hide Runs, After, Accounted;
    RunAccounts(START, [], es);
    assert [] + es == es;
  }
}
