/** Login tokens over runs of the server.

    Main result: the token of a login reconnects any live session to its user exactly until its
    lifetime is over, whatever happens in between, the user's own logout included, unless a later
    login is issued the same token. */
module ServerTokens {
  import opened Common
  import opened Server
  import ServerInvariant
  import ServerFrames
  import Session
  import Registry
  import Tokens
  import Party

  // ----- What a step does to one token -----

  /** The token keeps its record, or is forgotten for good; after `now` it may be forgotten only if
      it has expired. */
  ghost predicate TokenKept(before: Tokens.State, after: Tokens.State, token: string, now: Time) {
    && (token in after ==> token in before && after[token] == before[token])
    && (token in before && token !in after ==> before[token].expiresAt <= now)
  }

  /** This event does not issue the token again. */
  predicate NotIssuedBy(e: Event, token: string) {
    !(e.Deliver? && e.request.LoginReq? && e.request.token == token)
  }

  lemma IssueKeeps(s: Tokens.State, user: string, issued: string, now: Time, token: string)
    requires issued != token
    ensures TokenKept(s, s, token, now) && TokenKept(s, Tokens.Issue(s, user, issued, now), token, now)
  {
  }

  lemma ValidateKeeps(s: Tokens.State, presented: string, now: Time, token: string)
    ensures TokenKept(s, Tokens.Validate(s, presented, now).0, token, now)
  {
  }

  lemma HandleTokens(s: State, sid: SessionId, r: Request, now: Time, token: string)
    requires sid in s.sessions && !(r.LoginReq? && r.token == token)
    ensures TokenKept(s.tokens, Handle(s, sid, r, now).0.tokens, token, now)
  {
    assert TokenKept(s.tokens, s.tokens, token, now);
    ServerFrames.HandleFrame(s, sid, r, now);
    hide TokenKept, Login, Logout, Reconnect, Match, Enter, Result, Update, CreateGuild, JoinGuild, LeaveGuild,
         Tokens.Validate, Tokens.Issue;
    match r
    case LoginReq(user, password, issued) =>
      ServerFrames.LoginFrame(s, sid, user, password, issued, now);
      IssueKeeps(s.tokens, user, issued, now, token);
    case ReconnectReq(presented, lastSeq) =>
      ServerFrames.ReconnectFrame(s, sid, presented, lastSeq, now);
      ValidateKeeps(s.tokens, presented, now, token);
    case _ => hide Handle;
  }

  /** The time of a packet; nothing else looks at tokens. */
  function Clock(e: Event): Time {
    if e.Deliver? then e.now else 0
  }

  lemma StepTokens(s: State, e: Event, token: string)
    requires Enabled(s, e) && NotIssuedBy(e, token)
    ensures TokenKept(s.tokens, Next(s, e).tokens, token, Clock(e))
  {
    assert TokenKept(s.tokens, s.tokens, token, Clock(e));
    if e.Deliver? {
      ServerFrames.AdmitFrame(s, e.id, e.version, e.stamp, e.now);
      var (admitted, ok) := Admit(Receive(s, e.id, e.version, e.now), e.id, e.stamp);
      if ok {
        HandleTokens(admitted, e.id, e.request, e.now, token);
      }
      hide TokenKept, Handle, Admit, Receive;
    } else {
      ServerFrames.QuietFrame(s, e);
      hide TokenKept, Next, Party.Step;
    }
  }

  // ----- Over runs -----

  /** No event issues the token, and none is later than `now`. */
  ghost predicate Until(es: seq<Event>, token: string, now: Time) {
    forall e :: e in es ==> NotIssuedBy(e, token) && Clock(e) <= now
  }

  lemma {:induction false} RunTokens(s: State, es: seq<Event>, token: string, now: Time)
    requires Runs(s, es) && Until(es, token, now)
    ensures TokenKept(s.tokens, After(s, es).tokens, token, now)
    decreases |es|
  {
    if es != [] {
      assert es[0] in es && forall e :: e in es[1..] ==> e in es;
      StepTokens(s, es[0], token);
      hide Next, Enabled, NotIssuedBy;
      RunTokens(Next(s, es[0]), es[1..], token, now);
    }
  }

  /** In a reachable state a reconnect is accepted, and logs the session in as the token's user,
      exactly when the token is known and unexpired. */
  lemma ReconnectAccepted(s: State, sid: SessionId, token: string, lastSeq: U32, now: Time)
    requires ServerInvariant.Core(s) && sid in s.sessions
    ensures
      var (t, reply) := Reconnect(s, sid, token, lastSeq, now);
      && (reply.Reconnected? <==> token in s.tokens && now < s.tokens[token].expiresAt)
      && (reply.Reconnected? ==>
            sid in t.sessions && t.sessions[sid].user == Some(Session.UserContext(s.tokens[token].user, token)))
  {
    ServerInvariant.ReconnectKeepsExactly(s, sid, token, lastSeq, now);
    assert Reconnect(s, sid, token, lastSeq, now).1.Reconnected?
      <==> token in s.tokens && now < s.tokens[token].expiresAt by {
      hide ServerInvariant.Core, ServerInvariant.Live, Displace, Registry.Register, PreviousSeq, Restored, ResumeFrom;
    }
    ServerFrames.ReconnectAttaches(s, sid, token, lastSeq, now);
    hide ServerInvariant.Core, ServerInvariant.Live, Reconnect, Displace;
  }

  /** A logout takes no token back: with an unexpired one the very session that has logged out is
      logged in again. */
  lemma LogoutIsUndone(s: State, sid: SessionId, token: string, lastSeq: U32, now: Time)
    requires ServerInvariant.Core(s) && sid in s.sessions
    requires token in s.tokens && now < s.tokens[token].expiresAt
    ensures
      var out := Logout(s, sid).0;
      && out.sessions[sid].user == None
      && var (t, reply) := Reconnect(out, sid, token, lastSeq, now);
         && reply.Reconnected? && sid in t.sessions
         && t.sessions[sid].user == Some(Session.UserContext(s.tokens[token].user, token))
  {
    ServerInvariant.LogoutKeeps(s, sid);
    ServerFrames.LogoutFrame(s, sid);
    assert sid in Logout(s, sid).0.sessions && Logout(s, sid).0.sessions[sid].user == None by { hide Registry.Remove; }
    hide ServerInvariant.Core, ServerInvariant.Live, Logout, Reconnect;
    ReconnectAccepted(Logout(s, sid).0, sid, token, lastSeq, now);
  }

  /** A run, then a login that is answered, then any run that does not issue its token again: from
      any live session that token reconnects, to the user of the login, exactly while it is younger
      than its lifetime. */
  lemma LoginTokenLasts(before: seq<Event>, sid: SessionId, v: U16, stamp: Option<Session.Stamp>, user: string,
                        token: string, issued: Time, es: seq<Event>, other: SessionId, lastSeq: U32, now: Time)
    requires Runs(START, before) && sid in After(START, before).sessions
    requires
      var s, login := After(START, before), Deliver(sid, v, stamp, LoginReq(user, PASSWORD, token), issued);
      && Step(s, login).1 == LoggedIn(token)
      && Runs(Next(s, login), es) && Until(es, token, now)
      && other in After(Next(s, login), es).sessions
    ensures
      var s, login := After(START, before), Deliver(sid, v, stamp, LoginReq(user, PASSWORD, token), issued);
      var (t, reply) := Reconnect(After(Next(s, login), es), other, token, lastSeq, now);
      && (reply.Reconnected? <==> now < issued + 300_000)
      && (reply.Reconnected? ==>
            other in t.sessions && t.sessions[other].user == Some(Session.UserContext(user, token)))
  {
    var s, login := After(START, before), Deliver(sid, v, stamp, LoginReq(user, PASSWORD, token), issued);
    var t := Next(s, login);
    LoginIssues(s, sid, v, stamp, user, token, issued);
    ServerInvariant.StartsWell();
    ServerInvariant.RunKeeps(START, before);
    ServerInvariant.StepKeepsCore(s, login);
    hide Next, Step, Reconnect, ServerInvariant.Core, ServerInvariant.Live;
    ServerInvariant.RunKeeps(t, es);
    RunTokens(t, es, token, now);
    hide Runs, After;
    ReconnectAccepted(After(t, es), other, token, lastSeq, now);
  }

  lemma LoginIssues(s: State, sid: SessionId, v: U16, stamp: Option<Session.Stamp>, user: string, token: string,
                    issued: Time)
    requires sid in s.sessions
    requires Step(s, Deliver(sid, v, stamp, LoginReq(user, PASSWORD, token), issued)).1 == LoggedIn(token)
    ensures
      var t := Next(s, Deliver(sid, v, stamp, LoginReq(user, PASSWORD, token), issued));
      token in t.tokens && t.tokens[token] == Tokens.TokenRecord(user, issued + 300_000)
  {
    hide Admit, Receive, Registry.Register;
  }
}
