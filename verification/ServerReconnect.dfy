/** A reconnect is a renaming: from a session that carries nothing, it leaves sessions, logins,
    memberships, instances and characters as the image of what they were with the old session's id
    replaced by the new one's. Pending party invites follow if and only if the old session is in a
    party or has none. */
module ServerReconnect {
  import opened Common
  import opened Server
  import opened ServerInvariant
  import ServerFrames
  import Session
  import Registry
  import Tokens
  import Party
  import Guild

  /** A session that is logged in nowhere and in no party, guild, instance or character. */
  predicate CarriesNothing(s: State, sid: SessionId) {
    && sid in s.sessions && s.sessions[sid].user.None?
    && sid !in s.parties.index && sid !in s.guilds.index
    && sid !in s.playing && sid !in s.characters
  }

  /** Which user each registered session is logged in as. */
  function Users(r: Registry.State): map<SessionId, string> {
    map id | id in r.records :: r.records[id].user
  }

  /** Parties, their leaders and members, and the member index are the image under the renaming,
      and none of them names `from`. Pending invites are, and none is addressed to `from`, if and
      only if `from` was in a party or had no invite; next id and timeout are as before. */
  ghost predicate PartiesRenamed(before: Party.State, after: Party.State, from: SessionId, to: SessionId) {
    && to !in before.index
    && after.parties.Keys == before.parties.Keys
    && (forall p :: p in before.parties ==>
          && to !in before.parties[p].members
          && after.parties[p] == Party.RenameParty(before.parties[p], from, to)
          && from !in after.parties[p].members && after.parties[p].leader != from)
    && after.index == RenameKey(before.index, from, to)
    && from !in after.index
    && after.nextId == before.nextId && after.timeout == before.timeout
    && InvitesHandled(before, after, from, to)
  }

  ghost predicate InvitesHandled(before: Party.State, after: Party.State, from: SessionId, to: SessionId) {
    var moved := from in before.index || Party.Uninvited(before.invites, from);
    && (Party.InvitesFollow(before.invites, after.invites, from, to) <==> moved)
    && (Party.Uninvited(after.invites, from) <==> moved)
    && (from !in before.index ==> after.invites == before.invites)
  }

  ghost predicate GuildsRenamed(before: Guild.State, after: Guild.State, from: SessionId, to: SessionId) {
    && to !in before.index
    && after.guilds.Keys == before.guilds.Keys
    && (forall g :: g in before.guilds ==>
          && to !in before.guilds[g].members
          && after.guilds[g] == Guild.RenameGuild(before.guilds[g], from, to)
          && from !in after.guilds[g].members && after.guilds[g].leader != from)
    && after.index == RenameKey(before.index, from, to)
    && from !in after.index
    && after.nextId == before.nextId
  }

  ghost predicate LoginsRenamed(before: Registry.State, after: Registry.State, from: SessionId, to: SessionId,
                                context: Session.UserContext)
  {
    && to !in before.records
    && Users(after) == RenameKey(Users(before), from, to)
    && from !in after.records && from !in after.active.Values
    && after.active == before.active[context.user := to]
    && to in after.records && after.records[to] == context
    && forall id :: id in before.records && id != from ==> id in after.records && after.records[id] == before.records[id]
  }

  /** The old session is gone, the new one is the user's with the larger sequence number, and the
      others are as they were. */
  ghost predicate SessionsRenamed(before: Clients, after: Clients, from: SessionId, to: SessionId,
                                  context: Session.UserContext, lastSeq: U32)
  {
    && from in before && to in before
    && after.Keys == before.Keys - {from}
    && to in after
    && after[to] == before[to].(user := Some(context),
                                gate := before[to].gate.(lastSeq := Restored(lastSeq, before[from].gate.lastSeq)))
    && forall id :: id in after && id != to ==> after[id] == before[id]
  }

  /** Party, guild, instance and character of `from` are `to`'s now, and nothing else changed but
      sessions and registry. */
  ghost predicate HandedOver(s: State, t: State, from: SessionId, to: SessionId) {
    && PartiesRenamed(s.parties, t.parties, from, to)
    && GuildsRenamed(s.guilds, t.guilds, from, to)
    && to !in s.playing && t.playing == RenameKey(s.playing, from, to) && from !in t.playing
    && to !in s.characters && t.characters == RenameKey(s.characters, from, to) && from !in t.characters
    && t == s.(sessions := t.sessions, registry := t.registry, parties := t.parties, guilds := t.guilds,
               playing := t.playing, characters := t.characters)
  }

  ghost predicate IsRenaming(s: State, t: State, from: SessionId, to: SessionId, context: Session.UserContext,
                             lastSeq: U32)
  {
    && SessionsRenamed(s.sessions, t.sessions, from, to, context, lastSeq)
    && LoginsRenamed(s.registry, t.registry, from, to, context)
    && HandedOver(s, t, from, to)
  }

  lemma MoveRenames<V>(m: map<SessionId, V>, from: SessionId, to: SessionId)
    requires to !in m && from != to
    ensures Move(m, from, to) == RenameKey(m, from, to) && from !in Move(m, from, to)
  {
    RenameKeyIs(m, from, to);
  }

  lemma LoginMoves(r: Registry.State, from: SessionId, to: SessionId, context: Session.UserContext)
    requires Registry.Inverse(r) && to !in r.records && from != to
    requires context.user in r.active && r.active[context.user] == from
    ensures LoginsRenamed(r, Registry.Register(Registry.Remove(r, from), to, context).0, from, to, context)
  {
    var after := Registry.Register(Registry.Remove(r, from), to, context).0;
    assert after.records == (r.records - {from})[to := context];
    assert after.active == r.active[context.user := to];
    Registry.RemoveKeepsInverse(r, from);
    Registry.RegisterKeepsInverse(Registry.Remove(r, from), to, context);
    RenameKeyIs(Users(r), from, to);
    assert Users(after) == (Users(r) - {from})[to := Users(r)[from]];
  }

  lemma PartyRenames(s: Party.State, from: SessionId, to: SessionId)
    requires Party.Agree(s) && from != to && to !in s.index
    ensures PartiesRenamed(s, Party.ReplaceMember(s, from, to).0, from, to)
  {
    Party.ReplaceRenames(s, from, to);
    Party.InvitesFollowExactly(s, from, to);
    hide Party.Agree, Party.ReplaceMember, Party.RenameParty, RenameKey, Party.InvitesFollow, Party.Uninvited;
  }

  lemma GuildRenames(s: Guild.State, from: SessionId, to: SessionId)
    requires Guild.Agree(s) && from != to && to !in s.index
    ensures GuildsRenamed(s, Guild.ReplaceMember(s, from, to).0, from, to)
  {
    Guild.ReplaceRenames(s, from, to);
    hide Guild.Agree, Guild.ReplaceMember, Guild.RenameGuild, RenameKey;
  }

  lemma TakeOverRenames(s: State, from: SessionId, to: SessionId, context: Session.UserContext)
    requires Core(s) && CarriesNothing(s, to) && from != to
    requires context.user in s.registry.active && s.registry.active[context.user] == from
    ensures
      var t := TakeOver(s, from, to).(registry := Registry.Remove(s.registry, from));
      && LoginsRenamed(s.registry, Registry.Register(t.registry, to, context).0, from, to, context)
      && HandedOver(s, t, from, to)
  {
    assert to !in s.registry.records && Registry.Inverse(s.registry);
    LoginMoves(s.registry, from, to, context);
    PartyRenames(s.parties, from, to);
    GuildRenames(s.guilds, from, to);
    MoveRenames(s.playing, from, to);
    MoveRenames(s.characters, from, to);
    hide Core, LoginsRenamed, PartiesRenamed, GuildsRenamed, Party.ReplaceMember, Guild.ReplaceMember, Move, RenameKey,
         Registry.Register, Registry.Remove;
  }

  lemma SessionMoves(before: Clients, from: SessionId, to: SessionId, context: Session.UserContext, lastSeq: U32, c: Client)
    requires from in before && to in before && from != to
    requires c == before[to].(user := Some(context),
                              gate := before[to].gate.(lastSeq := Restored(lastSeq, before[from].gate.lastSeq)))
    ensures SessionsRenamed(before, (before - {from})[to := c], from, to, context, lastSeq)
  {
  }

  lemma JoinsRenamed(s: State, free: State, from: SessionId, to: SessionId, context: Session.UserContext, lastSeq: U32,
                     c: Client)
    requires HandedOver(s, free, from, to) && free.sessions == s.sessions - {from}
    requires SessionsRenamed(s.sessions, free.sessions[to := c], from, to, context, lastSeq)
    requires LoginsRenamed(s.registry, Registry.Register(free.registry, to, context).0, from, to, context)
    ensures IsRenaming(s, SetClient(free, to, c).(registry := Registry.Register(free.registry, to, context).0),
                       from, to, context, lastSeq)
  {
    hide SessionsRenamed, LoginsRenamed, PartiesRenamed, GuildsRenamed, RenameKey, Registry.Register;
  }

  /** The token is still valid and names a user who is active on another live session, `from`. */
  predicate TakesOver(s: State, sid: SessionId, token: string, now: Time, user: string, from: SessionId) {
    && token in s.tokens && s.tokens[token].user == user && now < s.tokens[token].expiresAt
    && user in s.registry.active && s.registry.active[user] == from
    && from != sid && from in s.sessions && sid in s.sessions
  }

  lemma OldSessionLeaves(s: State, sid: SessionId, token: string, now: Time, user: string, from: SessionId)
    requires Core(s) && CarriesNothing(s, sid) && TakesOver(s, sid, token, now, user, from)
    ensures
      var context, free := Session.UserContext(user, token), Displace(s, sid, user);
      && Tokens.Validate(s.tokens, token, now) == (s.tokens, Some(user)) && s.(tokens := s.tokens) == s
      && PreviousSeq(s, sid, user) == s.sessions[from].gate.lastSeq
      && free.sessions == s.sessions - {from} && HandedOver(s, free, from, sid)
      && Registry.Register(free.registry, sid, context).1
      && LoginsRenamed(s.registry, Registry.Register(free.registry, sid, context).0, from, sid, context)
  {
    ServerFrames.DisplaceTakesOver(s, sid, user);
    Registry.RemoveFrees(s.registry, user);
    assert from in s.registry.records && s.registry.records[from].user == user;
    TakeOverRenames(s, from, sid, Session.UserContext(user, token));
    assert TakeOver(s, from, sid).sessions == s.sessions - {from};
    hide Core, CarriesNothing, Displace, TakeOver, HandedOver, LoginsRenamed, Registry.Remove;
  }

  /** A reconnect that takes over a live session, from one that carries nothing, is accepted and
      renames the old session to the new in sessions, registry, parties, guilds, instances and
      characters, none of which names the old id any more; the new last sequence number is the
      larger of the client's and the old session's. Pending party invites are renamed, and none is
      left addressed to the old id, if and only if the old session is in a party or had none.
      Everything else stays as it was. */
  lemma ReconnectRenames(s: State, sid: SessionId, token: string, lastSeq: U32, now: Time, user: string, from: SessionId)
    requires Core(s) && CarriesNothing(s, sid) && TakesOver(s, sid, token, now, user, from)
    ensures
      var (t, reply) := Reconnect(s, sid, token, lastSeq, now);
      && IsRenaming(s, t, from, sid, Session.UserContext(user, token), lastSeq)
      && reply == Reconnected(sid, ResumeFrom(Restored(lastSeq, s.sessions[from].gate.lastSeq)))
  {
    var context := Session.UserContext(user, token);
    OldSessionLeaves(s, sid, token, now, user, from);
    var free := Displace(s, sid, user);
    hide Core, CarriesNothing, Displace, PreviousSeq, Registry.Register, Tokens.Validate, Reconnect, IsRenaming,
         HandedOver, LoginsRenamed, SessionsRenamed, SetClient;
    ServerFrames.ReconnectIs(s, sid, token, lastSeq, now, user);
    var restored := Restored(lastSeq, s.sessions[from].gate.lastSeq);
    var client := s.sessions[sid].(user := Some(context), gate := s.sessions[sid].gate.(lastSeq := restored));
    SessionMoves(s.sessions, from, sid, context, lastSeq, client);
    JoinsRenamed(s, free, from, sid, context, lastSeq, client);
  }

  // ----- What a takeover leaves behind -----

  const CONNECT := Connect(10, 0, 0)

  function LoginOf(user: string, token: string): Event {
    Deliver(1, 1, None, LoginReq(user, PASSWORD, token), 0)
  }

  function TakeoverOf(token: string): Event {
    Deliver(2, 1, None, ReconnectReq(token, 0), 0)
  }

  /** Two new sessions, the first of them logged in. */
  lemma FirstLoggedIn(user: string, token: string) returns (s: State)
    ensures Leads([CONNECT, CONNECT, LoginOf(user, token)], s)
    ensures s.nextId == 3 && s.parties == Party.EMPTY && s.guilds == Guild.EMPTY
    ensures ReadyToTakeOver(s, user, token) && s.sessions[1].user.Some?
    ensures s.registry.active.Keys == {user} && s.registry.records.Keys == {1}
  {
    var c := Client(None, Session.Gate(0, [], 0), true, 0, 10, 0);
    var s1, s2 := Next(START, CONNECT), START.(nextId := 3, sessions := map[1 := c, 2 := c]);
    assert Next(s1, CONNECT) == s2;
    s := Next(s2, LoginOf(user, token));
    LogsInFirst(s2, user, token);
    LeadsNowhere();
    hide Leads, Next, LoginOf;
    LeadsOn([], START, CONNECT);
    LeadsOn([] + [CONNECT], s1, CONNECT);
    LeadsOn([] + [CONNECT] + [CONNECT], s2, LoginOf(user, token));
    assert [] + [CONNECT] + [CONNECT] + [LoginOf(user, token)] == [CONNECT, CONNECT, LoginOf(user, token)];
  }

  lemma LogsInFirst(s: State, user: string, token: string)
    requires 1 in s.sessions && s.registry == Registry.EMPTY
    ensures Enabled(s, LoginOf(user, token))
    ensures
      var (t, context) := (Next(s, LoginOf(user, token)), Session.UserContext(user, token));
      && t == s.(sessions := t.sessions, registry := Registry.State(map[1 := context], map[user := 1]),
                 tokens := Tokens.Issue(s.tokens, user, token, 0))
      && t.sessions.Keys == s.sessions.Keys && t.sessions[1].user == Some(context)
  {
    var received, context := Receive(s, 1, 1, 0), Session.UserContext(user, token);
    ServerFrames.UnstampedIs(s, 1, 1, LoginReq(user, PASSWORD, token), 0);
    ServerFrames.LoginIs(received, 1, user, token, 0);
    assert received == s.(sessions := received.sessions) && received.sessions.Keys == s.sessions.Keys;
    assert Registry.Register(Registry.EMPTY, 1, context) == (Registry.State(map[1 := context], map[user := 1]), true);
    hide Next, Login, Receive, Registry.Register, Tokens.Issue;
  }

  /** Session 1 has the user, session 2 is live, and the token is good at time 0. */
  ghost predicate ReadyToTakeOver(s: State, user: string, token: string) {
    && 1 in s.sessions && 2 in s.sessions
    && user in s.registry.active && s.registry.active[user] == 1
    && token in s.tokens && s.tokens[token] == Tokens.TokenRecord(user, Tokens.TTL)
  }

  /** Accepted or not, it drops the displaced session; parties and guilds change as their services say. */
  lemma ReconnectDrops(s: State, sid: SessionId, token: string, lastSeq: U32, now: Time, user: string)
    requires sid in s.sessions && Tokens.Validate(s.tokens, token, now).1 == Some(user)
    requires TakenElsewhere(s, sid, user) && s.registry.active[user] in s.sessions
    ensures
      var from, t := s.registry.active[user], Reconnect(s, sid, token, lastSeq, now).0;
      && from !in t.sessions
      && t.parties == Party.ReplaceMember(s.parties, from, sid).0
      && t.guilds == Guild.ReplaceMember(s.guilds, from, sid).0
  {
    var checked := s.(tokens := Tokens.Validate(s.tokens, token, now).0);
    var from, free := s.registry.active[user], Displace(checked, sid, user);
    assert from != sid && free.sessions == s.sessions - {from}
      && free.parties == Party.ReplaceMember(s.parties, from, sid).0
      && free.guilds == Guild.ReplaceMember(s.guilds, from, sid).0 by {
      hide Party.ReplaceMember, Guild.ReplaceMember, Move, Registry.Remove, Tokens.Validate;
    }
    hide Displace, Party.ReplaceMember, Guild.ReplaceMember, Registry.Register, Tokens.Validate, PreviousSeq, Restored,
         ResumeFrom;
  }

  /** The takeover drops session 1; parties and guilds change as their services say. */
  lemma TakeoverDrops(s: State, user: string, token: string)
    requires ReadyToTakeOver(s, user, token)
    ensures
      var t := Next(s, TakeoverOf(token));
      && 1 !in t.sessions
      && t.parties == Party.ReplaceMember(s.parties, 1, 2).0
      && t.guilds == Guild.ReplaceMember(s.guilds, 1, 2).0
  {
    var received := Receive(s, 2, 1, 0);
    assert Next(s, TakeoverOf(token)) == Reconnect(received, 2, token, 0, 0).0 by { hide Reconnect; }
    hide Reconnect, Next, Party.ReplaceMember, Guild.ReplaceMember;
    ReconnectDrops(received, 2, token, 0, 0, user);
  }

  /** Both sessions in a party: the takeover strands the first one's membership. */
  lemma TakeoverStrands(s: State, user: string, token: string)
    requires ReadyToTakeOver(s, user, token) && 1 in s.parties.index && 2 in s.parties.index
    ensures
      var t := Next(s, TakeoverOf(token));
      1 in t.parties.index && 1 !in t.sessions && !Inv(t)
  {
    TakeoverDrops(s, user, token);
    assert Party.ReplaceMember(s.parties, 1, 2).0 == s.parties;
    hide Next, Core;
  }

  lemma BothCreate(s: State, user: string, token: string, other: string)
    requires ReadyToTakeOver(s, user, token) && s.parties == Party.EMPTY
    ensures
      var t := Next(Next(s, PartyCall(Party.CreateOp(1, user))), PartyCall(Party.CreateOp(2, other)));
      ReadyToTakeOver(t, user, token) && 1 in t.parties.index && 2 in t.parties.index
  {
  }

  /** Two sessions that each lead a party; the second takes over the user of the first. The party
      index then still names the first session, which is gone. */
  lemma StrandsMember(user: string, token: string, other: string) returns (s: State)
    ensures Leads([CONNECT, CONNECT, LoginOf(user, token), PartyCall(Party.CreateOp(1, user)),
                   PartyCall(Party.CreateOp(2, other)), TakeoverOf(token)], s)
    ensures 1 in s.parties.index && 1 !in s.sessions && !Inv(s)
  {
    var create1, create2 := PartyCall(Party.CreateOp(1, user)), PartyCall(Party.CreateOp(2, other));
    var login, again := LoginOf(user, token), TakeoverOf(token);
    var s3 := FirstLoggedIn(user, token);
    BothCreate(s3, user, token, other);
    var s4 := Next(s3, create1);
    var s5 := Next(s4, create2);
    TakeoverStrands(s5, user, token);
    assert Enabled(s5, again);
    hide Leads, Next, LoginOf, TakeoverOf, Inv;
    LeadsOn([CONNECT, CONNECT, login], s3, create1);
    assert [CONNECT, CONNECT, login] + [create1] == [CONNECT, CONNECT, login, create1];
    LeadsOn([CONNECT, CONNECT, login, create1], s4, create2);
    assert [CONNECT, CONNECT, login, create1] + [create2] == [CONNECT, CONNECT, login, create1, create2];
    LeadsOn([CONNECT, CONNECT, login, create1, create2], s5, again);
    assert [CONNECT, CONNECT, login, create1, create2] + [again]
        == [CONNECT, CONNECT, login, create1, create2, again];
    s := Next(s5, again);
  }

  /** Session 1 has the user and session 2 another one; both can act as theirs. */
  ghost predicate BothActive(s: State, user: string, token: string) {
    && ReadyToTakeOver(s, user, token) && s.sessions[1].user.Some? && s.sessions[2].user.Some?
  }

  lemma SecondLogsIn(s: State, user: string, token: string, other: string, token2: string)
    requires ReadyToTakeOver(s, user, token) && s.sessions[1].user.Some?
    requires s.registry.active.Keys == {user} && s.registry.records.Keys == {1}
    requires other != user && token2 != token
    ensures
      var login := Deliver(2, 1, None, LoginReq(other, PASSWORD, token2), 0);
      BothActive(Next(s, login), user, token) && Next(s, login).guilds == s.guilds
  {
    var context := Session.UserContext(other, token2);
    var active := Registry.Register(s.registry, 2, context).0.active;
    assert user in active && active[user] == 1;
    ServerFrames.UnstampedIs(s, 2, 1, LoginReq(other, PASSWORD, token2), 0);
    hide Registry.Register, Next;
  }

  function Founding(id: SessionId, name: string): Event {
    Deliver(id, 1, None, GuildCreateReq(name), 0)
  }

  lemma Founds(s: State, user: string, token: string, id: SessionId, name: string)
    requires BothActive(s, user, token) && id in {1, 2} && name != "" && id !in s.guilds.index
    ensures
      var t := Next(s, Founding(id, name));
      BothActive(t, user, token) && t.guilds.index == s.guilds.index[id := s.guilds.nextId]
  {
    ServerFrames.UnstampedIs(s, id, 1, GuildCreateReq(name), 0);
    hide Next;
  }

  /** Seven events after which the guild index names a session that is gone. */
  function TwoGuilds(user: string, token: string, other: string, token2: string, name: string): seq<Event> {
    [CONNECT, CONNECT, LoginOf(user, token)] + [Deliver(2, 1, None, LoginReq(other, PASSWORD, token2), 0)]
    + [Founding(1, name)] + [Founding(2, name)] + [TakeoverOf(token)]
  }

  /** Two sessions that each lead a guild; the second takes over the user of the first. The guild
      index then still names the first session, which is gone. */
  lemma StrandsGuildMember(user: string, token: string, other: string, token2: string, name: string) returns (s: State)
    requires other != user && token2 != token && name != ""
    ensures Leads(TwoGuilds(user, token, other, token2, name), s)
    ensures 1 in s.guilds.index && 1 !in s.sessions && !Inv(s)
  {
    var es, login2 := [CONNECT, CONNECT, LoginOf(user, token)], Deliver(2, 1, None, LoginReq(other, PASSWORD, token2), 0);
    var s3 := FirstLoggedIn(user, token);
    SecondLogsIn(s3, user, token, other, token2);
    var s4 := Next(s3, login2);
    hide Leads, Next, ReadyToTakeOver, LoginOf;
    Founds(s4, user, token, 1, name);
    var s5 := Next(s4, Founding(1, name));
    Founds(s5, user, token, 2, name);
    var s6 := Next(s5, Founding(2, name));
    TakeoverDrops(s6, user, token);
    assert Guild.ReplaceMember(s6.guilds, 1, 2).0 == s6.guilds;
    s := Next(s6, TakeoverOf(token));
    LeadsOn(es, s3, login2);
    LeadsOn(es + [login2], s4, Founding(1, name));
    LeadsOn(es + [login2] + [Founding(1, name)], s5, Founding(2, name));
    LeadsOn(es + [login2] + [Founding(1, name)] + [Founding(2, name)], s6, TakeoverOf(token));
    hide Core;
  }

  /** Session 3 leads a party and has invited session 1, which is in none. */
  function Asking(user: string, token: string, other: string): seq<Event> {
    [CONNECT, CONNECT, LoginOf(user, token)] + [CONNECT] + [PartyCall(Party.CreateOp(3, other))]
    + [PartyCall(Party.InviteOp(1, 3, 1, user, 0))]
  }

  function PartiesAsking(user: string, other: string): Party.State {
    Party.Step(Party.Step(Party.EMPTY, Party.CreateOp(3, other)), Party.InviteOp(1, 3, 1, user, 0))
  }

  lemma ThirdConnects(user: string, token: string) returns (s: State)
    ensures Leads([CONNECT, CONNECT, LoginOf(user, token)] + [CONNECT], s)
    ensures ReadyToTakeOver(s, user, token) && s.parties == Party.EMPTY
  {
    var s3 := FirstLoggedIn(user, token);
    s := Next(s3, CONNECT);
    hide Leads, Next, LoginOf;
    LeadsOn([CONNECT, CONNECT, LoginOf(user, token)], s3, CONNECT);
  }

  lemma PartyCallIs(s: State, user: string, token: string, op: Party.Op)
    requires ReadyToTakeOver(s, user, token)
    ensures ReadyToTakeOver(Next(s, PartyCall(op)), user, token)
    ensures Next(s, PartyCall(op)).parties == Party.Step(s.parties, op)
  {
    hide Party.Step;
  }

  lemma AsksFirst(user: string, token: string, other: string) returns (s: State)
    ensures Leads(Asking(user, token, other), s)
    ensures ReadyToTakeOver(s, user, token) && s.parties == PartiesAsking(user, other)
  {
    var create, invite := Party.CreateOp(3, other), Party.InviteOp(1, 3, 1, user, 0);
    var es := [CONNECT, CONNECT, LoginOf(user, token)] + [CONNECT];
    var s4 := ThirdConnects(user, token);
    PartyCallIs(s4, user, token, create);
    var s5 := Next(s4, PartyCall(create));
    assert Enabled(s4, PartyCall(create)) && Enabled(s5, PartyCall(invite));
    hide Leads, Next, Enabled, LoginOf, Party.Step, ReadyToTakeOver;
    PartyCallIs(s5, user, token, invite);
    s := Next(s5, PartyCall(invite));
    LeadsOn(es, s4, PartyCall(create));
    LeadsOn(es + [PartyCall(create)], s5, PartyCall(invite));
  }

  /** Session 3 has invited session 1, then session 2 takes over the user of session 1. Before,
      session 1 could accept; after, the invite still waits for the session that is gone, and
      session 2 cannot accept it. */
  lemma StrandsInvite(user: string, token: string, other: string) returns (asked: State, s: State)
    ensures Leads(Asking(user, token, other), asked)
    ensures Leads(Asking(user, token, other) + [TakeoverOf(token)], s)
    ensures Party.AcceptInvite(asked.parties, 1, 1, 0).1
    ensures 1 !in s.sessions && 1 in s.parties.invites && 1 in s.parties.invites[1]
    ensures !Party.AcceptInvite(s.parties, 1, 2, 0).1
  {
    asked := AsksFirst(user, token, other);
    InviteWaits(user, other);
    TakeoverDrops(asked, user, token);
    assert Enabled(asked, TakeoverOf(token));
    s := Next(asked, TakeoverOf(token));
    hide Leads, Next, TakeoverOf, Asking, PartiesAsking, Party.ReplaceMember, Party.AcceptInvite;
    LeadsOn(Asking(user, token, other), asked, TakeoverOf(token));
  }

  lemma InviteWaits(user: string, other: string)
    ensures
      var s := PartiesAsking(user, other);
      && Party.AcceptInvite(s, 1, 1, 0).1 && Party.ReplaceMember(s, 1, 2).0 == s
      && 1 in s.invites && 1 in s.invites[1] && !Party.AcceptInvite(s, 1, 2, 0).1
  {
  }
}
