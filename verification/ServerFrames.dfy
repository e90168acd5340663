/** What each call and packet type of the server leaves alone. */
module ServerFrames {
  import opened Common
  import opened Server
  import Session
  import Registry
  import Tokens
  import Party
  import Guild
  import Instances
  import MatchQueue
  import Reward

  lemma AdmitFrame(s: State, sid: SessionId, v: U16, stamp: Option<Session.Stamp>, now: Time)
    requires sid in s.sessions
    ensures
      var t := Admit(Receive(s, sid, v, now), sid, stamp).0;
      && t == s.(sessions := t.sessions) && t.sessions.Keys == s.sessions.Keys
      && t.sessions[sid].user == s.sessions[sid].user
      && forall k :: k in s.sessions && k != sid ==> t.sessions[k] == s.sessions[k]
  {
    hide Session.PassGate;
  }

  lemma AdmitIs(s: State, sid: SessionId, v: U16, stamp: Session.Stamp, now: Time)
    requires sid in s.sessions
    ensures
      var c := s.sessions[sid];
      var (gate, ok) := Session.PassGate(c.gate, stamp.seqNo, stamp.nonce);
      Admit(Receive(s, sid, v, now), sid, Some(stamp))
      == (s.(sessions := s.sessions[sid := c.(lastReceive := now, version := v, gate := gate)]), ok)
  {
    hide Session.PassGate;
    var c := s.sessions[sid].(lastReceive := now, version := v);
    var c1 := c.(gate := Session.PassGate(c.gate, stamp.seqNo, stamp.nonce).0);
    assert s.sessions[sid := c][sid := c1] == s.sessions[sid := c1];
  }

  /** A packet that is admitted is handled in the state after its admission. */
  lemma PacketIs(s: State, sid: SessionId, v: U16, stamp: Option<Session.Stamp>, r: Request, now: Time)
    requires sid in s.sessions
    ensures
      var (admitted, ok) := Admit(Receive(s, sid, v, now), sid, stamp);
      && sid in admitted.sessions
      && Packet(s, sid, v, stamp, r, now) == if ok then Handle(admitted, sid, r, now) else (admitted, Nothing)
  {
    hide Handle, Session.PassGate;
  }

  /** A packet without stamp is handled in the state with its session refreshed. */
  lemma UnstampedIs(s: State, sid: SessionId, v: U16, r: Request, now: Time)
    requires sid in s.sessions
    ensures
      var received := Receive(s, sid, v, now);
      && sid in received.sessions
      && Step(s, Deliver(sid, v, None, r, now)) == Handle(received, sid, r, now)
      && Next(s, Deliver(sid, v, None, r, now)) == Handle(received, sid, r, now).0
  {
    hide Handle;
  }

  lemma LoginIs(s: State, sid: SessionId, user: string, token: string, now: Time)
    requires sid in s.sessions && !TakenElsewhere(s, sid, user)
    ensures
      var context := Session.UserContext(user, token);
      var (registry, ok) := Registry.Register(s.registry, sid, context);
      Login(s, sid, user, PASSWORD, token, now)
      == (s.(sessions := s.sessions[sid := s.sessions[sid].(user := Some(context))], registry := registry,
             tokens := Tokens.Issue(s.tokens, user, token, now)),
          if ok then LoggedIn(token) else Refused(AlreadyLoggedInLate))
  {
    hide Registry.Register, Tokens.Issue, TakenElsewhere;
  }

  lemma LoginFrame(s: State, sid: SessionId, user: string, password: string, token: string, now: Time)
    requires sid in s.sessions
    ensures
      var t := Login(s, sid, user, password, token, now).0;
      || t == s
      || t == s.(sessions := s.sessions[sid := s.sessions[sid].(user := Some(Session.UserContext(user, token)))],
                 registry := t.registry, tokens := Tokens.Issue(s.tokens, user, token, now))
  {
    hide Registry.Register, Tokens.Issue, TakenElsewhere;
  }

  lemma LogoutFrame(s: State, sid: SessionId)
    requires sid in s.sessions
    ensures
      Logout(s, sid).0 == s.(sessions := s.sessions[sid := s.sessions[sid].(user := None)],
                             registry := Registry.Remove(s.registry, sid))
  {
    hide Registry.Remove;
  }

  lemma TakeOverFrame(s: State, from: SessionId, to: SessionId)
    ensures
      var t := TakeOver(s, from, to);
      t == s.(sessions := s.sessions - {from}, parties := t.parties, guilds := t.guilds, playing := t.playing,
              characters := t.characters)
  {
    hide Party.ReplaceMember, Guild.ReplaceMember, Move;
  }

  /** The state after the old session has been displaced. */
  lemma DisplaceTakesOver(s: State, sid: SessionId, user: string)
    requires TakenElsewhere(s, sid, user) && s.registry.active[user] in s.sessions
    ensures
      var from := s.registry.active[user];
      Displace(s, sid, user) == TakeOver(s, from, sid).(registry := Registry.Remove(s.registry, from))
  {
    hide TakeOver, Registry.Remove;
  }

  /** The session the user is active on elsewhere, as a set of at most one. */
  function Elsewhere(s: State, sid: SessionId, user: string): set<SessionId> {
    if TakenElsewhere(s, sid, user) then {s.registry.active[user]} else {}
  }

  lemma DisplaceFrame(s: State, sid: SessionId, user: string)
    ensures
      var t := Displace(s, sid, user);
      && sid !in Elsewhere(s, sid, user)
      && t == s.(sessions := s.sessions - Elsewhere(s, sid, user), registry := t.registry, parties := t.parties,
                 guilds := t.guilds, playing := t.playing, characters := t.characters)
  {
    if !TakenElsewhere(s, sid, user) {
      assert s.sessions - {} == s.sessions;
    } else if s.registry.active[user] in s.sessions {
      DisplaceTakesOver(s, sid, user);
      TakeOverFrame(s, s.registry.active[user], sid);
      hide Displace, TakeOver, Registry.Remove;
    } else {
      assert s.sessions - {s.registry.active[user]} == s.sessions;
      hide TakeOver, Registry.Remove;
    }
  }

  /** A reconnect with a good token: the displaced session leaves, the session is attached and
      registered, and if that goes through its sequence number is restored. */
  lemma ReconnectIs(s: State, sid: SessionId, token: string, lastSeq: U32, now: Time, user: string)
    requires sid in s.sessions && Tokens.Validate(s.tokens, token, now).1 == Some(user)
    requires sid in Displace(s.(tokens := Tokens.Validate(s.tokens, token, now).0), sid, user).sessions
    ensures
      var free := Displace(s.(tokens := Tokens.Validate(s.tokens, token, now).0), sid, user);
      var (context, restored) := (Session.UserContext(user, token), Restored(lastSeq, PreviousSeq(s, sid, user)));
      var (registry, ok) := Registry.Register(free.registry, sid, context);
      var c := free.sessions[sid].(user := Some(context));
      var c1 := if ok then c.(gate := c.gate.(lastSeq := restored)) else c;
      Reconnect(s, sid, token, lastSeq, now)
      == (free.(sessions := free.sessions[sid := c1], registry := registry),
          if ok then Reconnected(sid, ResumeFrom(restored)) else Refused(AlreadyLoggedInLate))
  {
    hide Displace, Tokens.Validate, Registry.Register, PreviousSeq, Restored, ResumeFrom;
    var free := Displace(s.(tokens := Tokens.Validate(s.tokens, token, now).0), sid, user);
    var c := free.sessions[sid].(user := Some(Session.UserContext(user, token)));
    var c1 := c.(gate := c.gate.(lastSeq := Restored(lastSeq, PreviousSeq(s, sid, user))));
    assert free.sessions[sid := c][sid := c1] == free.sessions[sid := c1];
  }

  /** Right after the displaced session has left, a reconnect changes the registry and the session
      itself, which is attached to the token's user; if it is accepted the number is restored. */
  lemma ReconnectAttaches(s: State, sid: SessionId, token: string, lastSeq: U32, now: Time)
    requires sid in s.sessions
    ensures
      var ((t, reply), (tokens, user)) := (Reconnect(s, sid, token, lastSeq, now), Tokens.Validate(s.tokens, token, now));
      if user.None? then t == s.(tokens := tokens) && reply == Refused(InvalidToken)
      else
        var free := Displace(s.(tokens := tokens), sid, user.value);
        && sid in free.sessions && sid in t.sessions
        && t == free.(sessions := free.sessions[sid := t.sessions[sid]], registry := t.registry)
        && t.sessions[sid].user == Some(Session.UserContext(user.value, token))
        && (reply.Reconnected? ==>
              t.sessions[sid].gate
              == free.sessions[sid].gate.(lastSeq := Restored(lastSeq, PreviousSeq(s, sid, user.value))))
  {
    var (tokens, user) := Tokens.Validate(s.tokens, token, now);
    if user.Some? {
      DisplaceFrame(s.(tokens := tokens), sid, user.value);
      assert sid in Displace(s.(tokens := tokens), sid, user.value).sessions;
      ReconnectIs(s, sid, token, lastSeq, now, user.value);
      hide Reconnect, Displace, Registry.Register, Tokens.Validate, PreviousSeq, Restored, ResumeFrom;
    } else {
      hide Displace, Tokens.Validate;
    }
  }

  lemma ReconnectFrame(s: State, sid: SessionId, token: string, lastSeq: U32, now: Time)
    requires sid in s.sessions
    ensures
      var t := Reconnect(s, sid, token, lastSeq, now).0;
      && t == s.(sessions := t.sessions, registry := t.registry, tokens := Tokens.Validate(s.tokens, token, now).0,
                 parties := t.parties, guilds := t.guilds, playing := t.playing, characters := t.characters)
  {
    var (tokens, user) := Tokens.Validate(s.tokens, token, now);
    if user.Some? {
      DisplaceFrame(s.(tokens := tokens), sid, user.value);
    }
    ReconnectAttaches(s, sid, token, lastSeq, now);
    hide Reconnect, Displace, Tokens.Validate;
  }

  lemma PlaceFrame(s: State, p: Party.PartyId, draw: Draw)
    ensures
      var (t, created) := Place(s, p, draw);
      && t == s.(instances := Instances.Create(s.instances, p, s.parties).0, partyInstances := t.partyInstances,
                 tickets := t.tickets, seeds := t.seeds, playing := t.playing)
      && created == Instances.Create(s.instances, p, s.parties).1
  {
    hide MemberSessions, AllAt, Instances.Create;
  }

  lemma {:induction false} PlaceAllFrame(s: State, asking: Party.PartyId, ps: seq<(Party.PartyId, Draw)>, reply: Reply)
    ensures
      var t := PlaceAll(s, asking, ps, reply).0;
      t == s.(instances := t.instances, partyInstances := t.partyInstances, tickets := t.tickets, seeds := t.seeds,
              playing := t.playing)
    decreases |ps|
  {
    hide Place;
    if ps != [] {
      var (p, draw) := ps[0];
      PlaceFrame(s, p, draw);
      var (placed, created) := Place(s, p, draw);
      if created.Some? {
        PlaceAllFrame(placed, asking, ps[1..], if p == asking then Matched(p, created.value, draw.ticket) else reply);
      }
    }
  }

  lemma MatchFrame(s: State, sid: SessionId, asked: Party.PartyId, first: Draw, second: Draw, now: Time)
    ensures
      var t := Match(s, sid, asked, first, second, now).0;
      t == s.(queue := t.queue, instances := t.instances, partyInstances := t.partyInstances, tickets := t.tickets,
              seeds := t.seeds, playing := t.playing)
  {
    var p := if asked == 0 && sid in s.parties.index then s.parties.index[sid] else asked;
    if p in s.parties.parties {
      MatchPartyFrame(s, p, |s.parties.parties[p].members|, first, second, now);
    }
    hide MatchParty, MemberSessions;
  }

  /** A match request that is queued ends in placements from some queue. */
  lemma MatchPartyPlaces(s: State, p: Party.PartyId, size: nat, first: Draw, second: Draw, now: Time)
    returns (queue: MatchQueue.Queue, ps: seq<(Party.PartyId, Draw)>)
    ensures MatchParty(s, p, size, first, second, now) == (s, Refused(QueueRejected))
         || MatchParty(s, p, size, first, second, now) == PlaceAll(s.(queue := queue), p, ps, Refused(MatchNotFound))
  {
    var rule := MatchQueue.DEFAULT_RULE;
    var (queued, ok) := MatchQueue.Enqueue(rule, s.queue, MatchQueue.Candidate(p, 0, size, Seconds(now)));
    queue, ps := [], [];
    if ok {
      var found := MatchQueue.FindPair(rule, queued, Seconds(now));
      if found.None? {
        queue, ps := MatchQueue.Cancel(queued, p).0, [(p, first)];
      } else {
        var (i, j) := found.value;
        queue, ps := MatchQueue.RemoveAt(MatchQueue.RemoveAt(queued, j), i),
                     [(queued[i].party, first), (queued[j].party, second)];
      }
    }
    hide PlaceAll, MatchQueue.Enqueue, MatchQueue.FindPair, MatchQueue.Cancel, MatchQueue.RemoveAt, Seconds;
  }

  lemma MatchPartyFrame(s: State, p: Party.PartyId, size: nat, first: Draw, second: Draw, now: Time)
    ensures
      var t := MatchParty(s, p, size, first, second, now).0;
      t == s.(queue := t.queue, instances := t.instances, partyInstances := t.partyInstances, tickets := t.tickets,
              seeds := t.seeds, playing := t.playing)
  {
    var queue, ps := MatchPartyPlaces(s, p, size, first, second, now);
    PlaceAllFrame(s.(queue := queue), p, ps, Refused(MatchNotFound));
    hide MatchParty, PlaceAll;
  }

  lemma EnterFrame(s: State, sid: SessionId, i: Instances.InstanceId, ticket: string, character: nat)
    ensures
      var (t, reply) := Enter(s, sid, i, ticket, character);
      if reply.Entered? then
        t == s.(instances := Instances.RequestTransition(s.instances, i, Instances.Ready, s.parties).0,
                seeds := s.seeds[i := SeedOf(s, i)], characters := s.characters[sid := character],
                playing := s.playing[sid := i])
      else t == s
  {
    hide MemberSessions, Instances.RequestTransition, SeedOf;
  }

  lemma ConcludeFrame(s: State, sid: SessionId, i: Instances.InstanceId, to: Instances.Phase, rewards: Items)
    ensures
      var t := Conclude(s, sid, i, to, rewards).0;
      t == s.(instances := Instances.RequestTransition(s.instances, i, to, s.parties).0, storage := t.storage,
              nextGrant := t.nextGrant, grants := t.grants)
  {
    var ended := s.(instances := Instances.RequestTransition(s.instances, i, to, s.parties).0);
    if sid in s.characters {
      PayOutShape(ended, i, s.characters[sid], rewards);
    }
    hide PayOut, Deposit, Reward.Grant;
  }

  /** A result is refused at once, or concludes the session's instance. */
  lemma ResultIs(s: State, sid: SessionId, cleared: bool, rewards: Items)
    ensures
      var r := Result(s, sid, cleared, rewards);
      || r == (s, Refused(NoInstance)) || r == (s, Refused(InstanceNotFound)) || r == (s, Refused(RewardDuplicate))
      || (sid in s.playing
          && r == Conclude(s, sid, s.playing[sid], if cleared then Instances.Clear else Instances.Fail, rewards))
  {
    hide Conclude;
  }

  lemma ResultFrame(s: State, sid: SessionId, cleared: bool, rewards: Items)
    ensures
      var t := Result(s, sid, cleared, rewards).0;
      t == s.(instances := t.instances, storage := t.storage, nextGrant := t.nextGrant, grants := t.grants)
  {
    if sid in s.playing {
      ConcludeFrame(s, sid, s.playing[sid], if cleared then Instances.Clear else Instances.Fail, rewards);
    }
    ResultIs(s, sid, cleared, rewards);
    hide Result, Conclude, Instances.RequestTransition;
  }

  lemma UpdateFrame(s: State, character: nat, items: Items)
    ensures
      var t := Update(s, character, items).0;
      t == s.(storage := t.storage)
  {
    hide Deposit;
  }

  lemma GuildFrames(s: State, sid: SessionId, user: string, name: string, g: Guild.GuildId)
    ensures CreateGuild(s, sid, user, name).0 == s.(guilds := CreateGuild(s, sid, user, name).0.guilds)
    ensures JoinGuild(s, sid, user, g).0 == s.(guilds := JoinGuild(s, sid, user, g).0.guilds)
    ensures LeaveGuild(s, sid, g).0 == s.(guilds := LeaveGuild(s, sid, g).0.guilds)
  {
    hide Guild.Create, Guild.Join, Guild.Leave;
  }

  // ----- Any packet, and any other event -----

  /** What a request may change. */
  ghost predicate Framed(s: State, t: State, r: Request) {
    match r
    case LoginReq(_, _, _) => t == s.(sessions := t.sessions, registry := t.registry, tokens := t.tokens)
    case LogoutReq => t == s.(sessions := t.sessions, registry := t.registry)
    case ReconnectReq(_, _) =>
      t == s.(sessions := t.sessions, registry := t.registry, tokens := t.tokens, parties := t.parties,
              guilds := t.guilds, playing := t.playing, characters := t.characters)
    case MatchReq(_, _, _) =>
      t == s.(queue := t.queue, instances := t.instances, partyInstances := t.partyInstances, tickets := t.tickets,
              seeds := t.seeds, playing := t.playing)
    case EnterReq(_, _, _) =>
      t == s.(instances := t.instances, seeds := t.seeds, characters := t.characters, playing := t.playing)
    case ResultReq(_, _) =>
      t == s.(instances := t.instances, storage := t.storage, nextGrant := t.nextGrant, grants := t.grants)
    case UpdateReq(_, _) => t == s.(storage := t.storage)
    case GuildCreateReq(_) => t == s.(guilds := t.guilds)
    case GuildJoinReq(_) => t == s.(guilds := t.guilds)
    case GuildLeaveReq(_) => t == s.(guilds := t.guilds)
    case MalformedReq => t == s
  }

  lemma HandleFrame(s: State, sid: SessionId, r: Request, now: Time)
    requires sid in s.sessions
    ensures Framed(s, Handle(s, sid, r, now).0, r)
  {
    hide Login, Logout, Reconnect, Match, Enter, Result, Update, CreateGuild, JoinGuild, LeaveGuild, Tokens.Validate;
    match r
    case LoginReq(user, password, token) => LoginFrame(s, sid, user, password, token, now);
    case LogoutReq => LogoutFrame(s, sid);
    case ReconnectReq(token, lastSeq) => ReconnectFrame(s, sid, token, lastSeq, now);
    case MatchReq(party, first, second) => MatchFrame(s, sid, party, first, second, now);
    case EnterReq(i, ticket, character) => EnterFrame(s, sid, i, ticket, character);
    case ResultReq(cleared, rewards) => ResultFrame(s, sid, cleared, rewards);
    case UpdateReq(character, items) => UpdateFrame(s, character, items);
    case GuildCreateReq(name) =>
      if s.sessions[sid].user.Some? {
        GuildFrames(s, sid, s.sessions[sid].user.value.user, name, 0);
      }
    case GuildJoinReq(g) =>
      if s.sessions[sid].user.Some? {
        GuildFrames(s, sid, s.sessions[sid].user.value.user, "", g);
      }
    case GuildLeaveReq(g) => GuildFrames(s, sid, "", "", g);
    case MalformedReq =>
  }

  /** What an event that is no handled packet may change. */
  ghost predicate QuietlyFramed(s: State, t: State, e: Event)
    requires !e.Deliver?
  {
    match e
    case Connect(_, _, _) => t == s.(nextId := s.nextId + 1, sessions := t.sessions)
    case Remove(_) =>
      t == s.(sessions := t.sessions, registry := t.registry, parties := t.parties, guilds := t.guilds,
              playing := t.playing, characters := t.characters)
    case TickAt(_) =>
      t == s.(sessions := t.sessions, registry := t.registry, parties := t.parties, guilds := t.guilds,
              playing := t.playing, characters := t.characters)
    case LoseConnection(_) => t == s.(sessions := t.sessions)
    case Drop(_, _, _) => t == s.(sessions := t.sessions)
    case PartyCall(op) => t == s.(parties := Party.Step(s.parties, op))
    case CreateInstance(_) => t == s.(instances := t.instances)
    case TerminateInstance(_) => t == s.(instances := t.instances)
    case RequestTransition(_, _) => t == s.(instances := t.instances)
  }

  lemma QuietFrame(s: State, e: Event)
    requires Enabled(s, e) && !e.Deliver?
    ensures QuietlyFramed(s, Next(s, e), e)
    ensures
      var t := Next(s, e);
      t == s.(nextId := t.nextId, sessions := t.sessions, registry := t.registry, parties := t.parties, guilds := t.guilds,
              instances := t.instances, playing := t.playing, characters := t.characters)
  {
    hide Party.RemoveMember, Guild.RemoveMember, Party.Without, Guild.Without, Registry.Without, Registry.Remove, Party.Step,
         Instances.Create, Instances.TerminateInstance, Instances.RequestTransition, DeadAt;
  }
}
