/** The global session invariant of the server.

    Main results: in every state reached by any run a user is logged in on at most one session, the
    registry and the sessions' own user contexts agree, no pair of parties ever meets in the
    server's match queue, and a tick removes exactly the dead sessions in whatever order; and as
    long as party calls name live sessions and no reconnect merges two memberships, every index is
    keyed by live sessions. A reconnect keeps that if and only if the two sessions are not both in
    a party and not both in a guild. */
module ServerInvariant {
  import opened Common
  import opened Server
  import ServerFrames
  import Session
  import Registry
  import Tokens
  import Party
  import Guild
  import Instances
  import MatchQueue
  import InventoryStore
  import CachedInventory
  import Reward

  // ----- The invariant -----

  type Clients = map<SessionId, Client>

  /** The registry's maps are each other's inverse, and a session has a user context exactly when
      it has a record, and the same one. */
  ghost predicate LoginsAgree(sessions: Clients, registry: Registry.State) {
    && Registry.Inverse(registry)
    && (forall id :: id in registry.records ==> id in sessions && sessions[id].user == Some(registry.records[id]))
    && (forall id :: id in sessions && sessions[id].user.Some? ==> id in registry.records)
  }

  ghost predicate IdsBelow(nextId: nat, sessions: Clients) {
    forall id :: id in sessions ==> id < nextId
  }

  /** Every id that an index is keyed by is a live session. */
  ghost predicate IndexesLive(live: set<SessionId>, parties: set<SessionId>, guilds: set<SessionId>,
                              playing: set<SessionId>, characters: set<SessionId>)
  {
    parties <= live && guilds <= live && playing <= live && characters <= live
  }

  ghost predicate InstancesKnown(instances: Instances.State, playing: map<SessionId, Instances.InstanceId>,
                                 tickets: map<Instances.InstanceId, string>, seeds: map<Instances.InstanceId, U32>)
  {
    && (forall i :: i in instances.instances ==> i < instances.nextId)
    && (forall id :: id in playing ==> playing[id] in instances.instances)
    && seeds.Keys == tickets.Keys <= instances.instances.Keys
  }

  /** What every run keeps. */
  ghost predicate Core(s: State) {
    LoginsAgree(s.sessions, s.registry) && RestKept(s)
  }

  /** Everything in it but the logins. */
  ghost predicate RestKept(s: State) {
    && IdsBelow(s.nextId, s.sessions)
    && Party.Agree(s.parties)
    && Guild.Agree(s.guilds)
    && InstancesKnown(s.instances, s.playing, s.tickets, s.seeds)
    && CachedInventory.Coupled(s.storage)
    && s.queue == []
  }

  ghost predicate Live(s: State) {
    IndexesLive(s.sessions.Keys, s.parties.index.Keys, s.guilds.index.Keys, s.playing.Keys, s.characters.Keys)
  }

  /** What runs keep in which party calls name live sessions and no reconnect merges memberships. */
  ghost predicate Inv(s: State) {
    Core(s) && Live(s)
  }

  /** A step from `s` to `t` that keeps both. */
  ghost predicate Keeps(s: State, t: State) {
    Core(t) && (Live(s) ==> Live(t))
  }

  predicate SameUser(s: State, a: SessionId, b: SessionId) {
    && a in s.sessions && s.sessions[a].user.Some?
    && b in s.sessions && s.sessions[b].user.Some?
    && s.sessions[a].user.value.user == s.sessions[b].user.value.user
  }

  /** A user is logged in on one session at most. */
  lemma OneSessionPerUser(s: State, a: SessionId, b: SessionId)
    requires Core(s) && SameUser(s, a, b)
    ensures a == b
  {
    assert a in s.registry.records && b in s.registry.records;
  }

  // ----- What a step may do -----

  /** The live session a valid token takes over, if any. */
  function Displaced(s: State, sid: SessionId, token: string, now: Time): Option<SessionId> {
    var user := Tokens.Validate(s.tokens, token, now).1;
    if user.Some? && TakenElsewhere(s, sid, user.value) && s.registry.active[user.value] in s.sessions
    then Some(s.registry.active[user.value])
    else None
  }

  /** Both sessions are in a party, or both in a guild. */
  predicate Clash(s: State, from: SessionId, to: SessionId) {
    (from in s.parties.index && to in s.parties.index) || (from in s.guilds.index && to in s.guilds.index)
  }

  predicate ReconnectClashes(s: State, sid: SessionId, token: string, now: Time) {
    Displaced(s, sid, token, now).Some? && Clash(s, Displaced(s, sid, token, now).value, sid)
  }

  /** Party calls that enter a session into a party name a live one, and a reconnect does not come
      from a session in a party, or guild, while the old session is in one too. */
  predicate Allowed(s: State, e: Event) {
    && Enabled(s, e)
    && match e
       case PartyCall(CreateOp(leader, _)) => leader in s.sessions
       case PartyCall(AcceptOp(_, invitee, _)) => invitee in s.sessions
       case PartyCall(ReplaceOp(_, to)) => to in s.sessions
       case Deliver(id, _, _, ReconnectReq(token, _), now) => !ReconnectClashes(s, id, token, now)
       case _ => true
  }

  // ----- Sessions come and go -----

  lemma ConnectKeeps(s: State, timeout: Time, nonceLimit: nat, now: Time)
    requires Core(s)
    ensures Keeps(s, CreateSession(s, timeout, nonceLimit, now))
  {
    hide Party.Agree, Guild.Agree, InstancesKnown, CachedInventory.Coupled, Registry.Inverse;
    assert s.nextId !in s.sessions;
  }

  /** Replacing a client by one with the same user context. */
  lemma SameUserKeeps(s: State, sid: SessionId, c: Client)
    requires Core(s) && sid in s.sessions && c.user == s.sessions[sid].user
    ensures Keeps(s, SetClient(s, sid, c))
  {
    hide Party.Agree, Guild.Agree, InstancesKnown, CachedInventory.Coupled, Registry.Inverse, IndexesLive;
    assert SetClient(s, sid, c).sessions.Keys == s.sessions.Keys;
  }

  lemma PartyRemovalShrinks(s: Party.State, id: SessionId)
    requires Party.Agree(s)
    ensures Party.RemoveMember(s, id).0.index.Keys <= s.index.Keys - {id}
  {
    Party.RemoveAgrees(s, id);
    hide Party.Agree;
  }

  lemma GuildRemovalShrinks(s: Guild.State, id: SessionId)
    requires Guild.Agree(s)
    ensures Guild.RemoveMember(s, id).0.index.Keys <= s.index.Keys - {id}
  {
    Guild.RemoveAgrees(s, id);
    hide Guild.Agree;
  }

  lemma DropLogin(sessions: Clients, registry: Registry.State, from: SessionId)
    requires LoginsAgree(sessions, registry)
    ensures LoginsAgree(sessions - {from}, Registry.Remove(registry, from))
  {
    Registry.RemoveKeepsInverse(registry, from);
    hide Registry.Inverse;
  }

  lemma RemoveKeeps(s: State, id: SessionId)
    requires Core(s)
    ensures Keeps(s, RemoveSession(s, id))
  {
    DropLogin(s.sessions, s.registry, id);
    PartyRemovalShrinks(s.parties, id);
    GuildRemovalShrinks(s.guilds, id);
    Party.RemoveAgrees(s.parties, id);
    Guild.RemoveAgrees(s.guilds, id);
    hide LoginsAgree, Party.Agree, Guild.Agree, CachedInventory.Coupled, Registry.Remove, Party.RemoveMember,
         Guild.RemoveMember;
  }

  lemma RemoveNobody(s: State)
    requires Core(s)
    ensures RemoveAll(s, {}) == s
  {
    Party.WithoutNobody(s.parties);
    Guild.WithoutNobody(s.guilds);
    assert s.sessions - {} == s.sessions && s.playing - {} == s.playing && s.characters - {} == s.characters;
    assert Registry.Without(s.registry, {}) == s.registry;
    hide Party.Without, Guild.Without;
  }

  /** Removing the sessions of a set one at a time, in any order, is removing them all at once. */
  lemma RemoveOneMore(s: State, dead: set<SessionId>, id: SessionId)
    requires Core(s)
    ensures RemoveSession(RemoveAll(s, dead), id) == RemoveAll(s, dead + {id})
  {
    Party.WithoutOneMore(s.parties, dead, id);
    Guild.WithoutOneMore(s.guilds, dead, id);
    Registry.WithoutOneMore(s.registry, dead, id);
    hide Party.Without, Guild.Without, Registry.Without, Party.RemoveMember, Guild.RemoveMember, Registry.Remove;
    assert s.sessions - dead - {id} == s.sessions - (dead + {id});
    assert s.playing - dead - {id} == s.playing - (dead + {id});
    assert s.characters - dead - {id} == s.characters - (dead + {id});
  }

  lemma {:induction false} RemoveAllKeeps(s: State, dead: set<SessionId>)
    requires Core(s)
    ensures Keeps(s, RemoveAll(s, dead))
    decreases |dead|
  {
    hide Core;
    if dead == {} {
      RemoveNobody(s);
    } else {
      var id :| id in dead;
      RemoveAllKeeps(s, dead - {id});
      RemoveOneMore(s, dead - {id}, id);
      assert dead - {id} + {id} == dead;
      RemoveKeeps(RemoveAll(s, dead - {id}), id);
    }
  }

  function RemoveEach(s: State, order: seq<SessionId>): State
    decreases |order|
  {
    if order == [] then s else RemoveEach(RemoveSession(s, order[0]), order[1..])
  }

  function Visited(order: seq<SessionId>): set<SessionId> {
    set id | id in order
  }

  lemma {:induction false} RemoveEachFrom(s: State, dead: set<SessionId>, order: seq<SessionId>)
    requires Core(s)
    ensures RemoveEach(RemoveAll(s, dead), order) == RemoveAll(s, dead + Visited(order))
    decreases |order|
  {
    hide Core, RemoveAll, RemoveSession;
    if order == [] {
      assert dead + Visited(order) == dead;
    } else {
      RemoveOneMore(s, dead, order[0]);
      RemoveEachFrom(s, dead + {order[0]}, order[1..]);
      assert forall id :: id in order <==> id == order[0] || id in order[1..];
      assert dead + Visited(order) == dead + {order[0]} + Visited(order[1..]);
    }
  }

  /** In whatever order a tick visits the dead sessions, and however often, it ends in the same
      state, in which exactly those that are alive are left. */
  lemma TickInAnyOrder(s: State, now: Time, order: seq<SessionId>)
    requires Core(s) && Visited(order) == DeadAt(s, now)
    ensures RemoveEach(s, order) == Tick(s, now)
    ensures forall id :: id in Tick(s, now).sessions <==> id in s.sessions && Alive(s.sessions[id], now)
  {
    hide Core;
    RemoveNobody(s);
    RemoveEachFrom(s, {}, order);
    assert {} + DeadAt(s, now) == DeadAt(s, now);
    hide Registry.Without, Party.Without, Guild.Without, RemoveEach;
  }

  // ----- Login and logout -----

  lemma AttachRegisters(sessions: Clients, registry: Registry.State, sid: SessionId, c: Client, context: Session.UserContext)
    requires LoginsAgree(sessions, registry) && sid in sessions
    requires c.user == Some(context) && Registry.Register(registry, sid, context).1
    ensures LoginsAgree(sessions[sid := c], Registry.Register(registry, sid, context).0)
  {
    Registry.RegisterKeepsInverse(registry, sid, context);
    hide Registry.Inverse;
  }

  lemma LoginKeeps(s: State, sid: SessionId, user: string, password: string, token: string, now: Time)
    requires Core(s) && sid in s.sessions
    ensures Keeps(s, Login(s, sid, user, password, token, now).0)
    ensures Login(s, sid, user, password, token, now).1 != Refused(AlreadyLoggedInLate)
  {
    if password == PASSWORD && !TakenElsewhere(s, sid, user) {
      var context := Session.UserContext(user, token);
      AttachRegisters(s.sessions, s.registry, sid, s.sessions[sid].(user := Some(context)), context);
      hide Party.Agree, Guild.Agree, InstancesKnown, CachedInventory.Coupled, LoginsAgree;
      assert s.sessions[sid := s.sessions[sid].(user := Some(context))].Keys == s.sessions.Keys;
    }
  }

  lemma LogoutKeeps(s: State, sid: SessionId)
    requires Core(s) && sid in s.sessions
    ensures Keeps(s, Logout(s, sid).0)
  {
    Registry.RemoveKeepsInverse(s.registry, sid);
    hide Party.Agree, Guild.Agree, InstancesKnown, CachedInventory.Coupled, Registry.Inverse;
    assert Logout(s, sid).0.sessions.Keys == s.sessions.Keys;
  }

  /** A login's second "already logged in" answer is never given, in any state at all. */
  lemma LoginNeverRefusedLate(s: State, sid: SessionId, user: string, password: string, token: string, now: Time)
    requires sid in s.sessions
    ensures Login(s, sid, user, password, token, now).1 != Refused(AlreadyLoggedInLate)
  {
  }

  // ----- Reconnect -----

  lemma PartyHandsOver(s: Party.State, from: SessionId, to: SessionId)
    requires Party.Agree(s) && from != to
    ensures
      var after := Party.ReplaceMember(s, from, to).0;
      && after.index.Keys <= s.index.Keys + {to}
      && (from in after.index <==> from in s.index && to in s.index)
  {
    if from in s.index {
      assert s.index[from] in s.parties && from in s.parties[s.index[from]].members;
    }
  }

  lemma GuildHandsOver(s: Guild.State, from: SessionId, to: SessionId)
    requires Guild.Agree(s) && from != to
    ensures
      var after := Guild.ReplaceMember(s, from, to).0;
      && after.index.Keys <= s.index.Keys + {to}
      && (from in after.index <==> from in s.index && to in s.index)
  {
    if from in s.index {
      assert s.index[from] in s.guilds && from in s.guilds[s.index[from]].members;
    }
  }

  lemma TakeOverKeepsRest(s: State, from: SessionId, to: SessionId)
    requires Core(s)
    ensures RestKept(TakeOver(s, from, to))
  {
    Party.ReplaceAgrees(s.parties, from, to);
    Guild.ReplaceAgrees(s.guilds, from, to);
    hide Party.Agree, Guild.Agree, CachedInventory.Coupled, LoginsAgree, IndexesLive, Party.ReplaceMember, Guild.ReplaceMember;
  }

  lemma HandedOverLive(live: set<SessionId>, from: SessionId, to: SessionId,
                       p: set<SessionId>, g: set<SessionId>, p1: set<SessionId>, g1: set<SessionId>,
                       i1: set<SessionId>, c1: set<SessionId>)
    requires from != to && from in live && to in live && p <= live && g <= live
    requires p1 <= p + {to} && (from in p1 <==> from in p && to in p)
    requires g1 <= g + {to} && (from in g1 <==> from in g && to in g)
    requires i1 <= live && from !in i1 && c1 <= live && from !in c1
    ensures IndexesLive(live - {from}, p1, g1, i1, c1)
       <==> !((from in p && to in p) || (from in g && to in g))
  {
    if from in p1 || from in g1 {
      assert from !in live - {from};
    }
  }

  lemma MoveHandsOver<V>(m: map<SessionId, V>, live: set<SessionId>, from: SessionId, to: SessionId)
    requires from != to && to in live && m.Keys <= live
    ensures from !in Move(m, from, to) && Move(m, from, to).Keys <= live
  {
  }

  lemma TakeOverStaysLive(s: State, from: SessionId, to: SessionId)
    requires Core(s) && Live(s) && from != to && from in s.sessions && to in s.sessions
    ensures Live(TakeOver(s, from, to)) <==> !Clash(s, from, to)
  {
    var t := TakeOver(s, from, to);
    PartyHandsOver(s.parties, from, to);
    GuildHandsOver(s.guilds, from, to);
    MoveHandsOver(s.playing, s.sessions.Keys, from, to);
    MoveHandsOver(s.characters, s.sessions.Keys, from, to);
    hide Party.Agree, Guild.Agree, CachedInventory.Coupled, LoginsAgree, InstancesKnown, Party.ReplaceMember,
         Guild.ReplaceMember, Move;
    HandedOverLive(s.sessions.Keys, from, to, s.parties.index.Keys, s.guilds.index.Keys, t.parties.index.Keys,
                   t.guilds.index.Keys, t.playing.Keys, t.characters.Keys);
    assert t.sessions.Keys == s.sessions.Keys - {from};
    hide IndexesLive;
  }

  /** After the old session is displaced the user is free for the new one. */
  lemma NewRegistry(t: State, registry: Registry.State)
    requires RestKept(t) && LoginsAgree(t.sessions, registry)
    ensures Core(t.(registry := registry)) && (Live(t.(registry := registry)) <==> Live(t))
  {
    hide LoginsAgree, IdsBelow, Party.Agree, Guild.Agree, CachedInventory.Coupled, InstancesKnown;
  }

  /** A user who is active elsewhere is so on a live session, and on none once that is removed. */
  lemma FreedUser(s: State, sid: SessionId, user: string)
    requires LoginsAgree(s.sessions, s.registry) && TakenElsewhere(s, sid, user)
    ensures
      var existing := s.registry.active[user];
      existing in s.sessions && existing != sid && user !in Registry.Remove(s.registry, existing).active
  {
    Registry.RemoveFrees(s.registry, user);
  }

  lemma TakeOverKeeps(s: State, sid: SessionId, user: string)
    requires Core(s) && sid in s.sessions && TakenElsewhere(s, sid, user) && s.registry.active[user] in s.sessions
    ensures
      var (existing, after) := (s.registry.active[user], Displace(s, sid, user));
      && Core(after) && after.sessions == s.sessions - {existing}
      && after.registry == Registry.Remove(s.registry, existing)
      && (Live(s) ==> (Live(after) <==> !Clash(s, existing, sid)))
  {
    var existing := s.registry.active[user];
    DropLogin(s.sessions, s.registry, existing);
    TakeOverKeepsRest(s, existing, sid);
    if Live(s) {
      TakeOverStaysLive(s, existing, sid);
    }
    ServerFrames.DisplaceTakesOver(s, sid, user);
    ServerFrames.TakeOverFrame(s, existing, sid);
    hide Displace, TakeOver, LoginsAgree, Live, Clash, Core, RestKept, Registry.Remove;
    NewRegistry(TakeOver(s, existing, sid), Registry.Remove(s.registry, existing));
  }

  lemma DisplaceFrees(s: State, sid: SessionId, user: string)
    requires Core(s) && sid in s.sessions
    ensures
      var after := Displace(s, sid, user);
      && Core(after)
      && sid in after.sessions && !TakenElsewhere(after, sid, user)
      && (TakenElsewhere(s, sid, user) ==> s.registry.active[user] in s.sessions)
      && (Live(s) ==> (Live(after) <==> !(TakenElsewhere(s, sid, user) && Clash(s, s.registry.active[user], sid))))
  {
    if TakenElsewhere(s, sid, user) {
      FreedUser(s, sid, user);
      TakeOverKeeps(s, sid, user);
      hide Displace, LoginsAgree, Live, Clash, Core, Registry.Remove;
    } else {
      hide LoginsAgree, Live, Clash;
    }
  }

  /** The state in which a reconnect with a valid token attaches the user. */
  lemma AttachAfterDisplace(s: State, sid: SessionId, user: string, token: string, c: Client)
    requires Core(s) && sid in s.sessions
    requires !TakenElsewhere(s, sid, user) && c.user == Some(Session.UserContext(user, token))
    ensures
      var (registry, ok) := Registry.Register(s.registry, sid, Session.UserContext(user, token));
      var t := SetClient(s, sid, c).(registry := registry);
      ok && Core(t) && (Live(t) <==> Live(s))
  {
    AttachRegisters(s.sessions, s.registry, sid, c, Session.UserContext(user, token));
    hide LoginsAgree, Party.Agree, Guild.Agree, CachedInventory.Coupled, InstancesKnown;
    assert SetClient(s, sid, c).sessions.Keys == s.sessions.Keys;
  }

  /** A forgotten token is the only change a refused reconnect makes. */
  lemma TokensDoNotMatter(s: State, tokens: Tokens.State)
    requires Core(s)
    ensures Keeps(s, s.(tokens := tokens)) && (Live(s.(tokens := tokens)) <==> Live(s))
  {
    hide LoginsAgree, Party.Agree, Guild.Agree, CachedInventory.Coupled, InstancesKnown, IdsBelow, IndexesLive;
  }

  lemma ClashMeans(s: State, sid: SessionId, token: string, now: Time)
    requires Tokens.Validate(s.tokens, token, now).1.Some?
    requires
      var user := Tokens.Validate(s.tokens, token, now).1.value;
      TakenElsewhere(s, sid, user) ==> s.registry.active[user] in s.sessions
    ensures
      var user := Tokens.Validate(s.tokens, token, now).1.value;
      var checked := s.(tokens := Tokens.Validate(s.tokens, token, now).0);
      ReconnectClashes(s, sid, token, now)
      <==> TakenElsewhere(checked, sid, user) && Clash(checked, checked.registry.active[user], sid)
  {
  }

  /** A reconnect keeps the core in any case, and live indexes exactly when it does not merge two
      memberships. Its second "already logged in" answer is not given. */
  lemma ReconnectKeepsExactly(s: State, sid: SessionId, token: string, lastSeq: U32, now: Time)
    requires Core(s) && sid in s.sessions
    ensures Core(Reconnect(s, sid, token, lastSeq, now).0)
    ensures Live(s) ==> (Inv(Reconnect(s, sid, token, lastSeq, now).0) <==> !ReconnectClashes(s, sid, token, now))
    ensures Reconnect(s, sid, token, lastSeq, now).1 != Refused(AlreadyLoggedInLate)
  {
    var (tokens, found) := Tokens.Validate(s.tokens, token, now);
    var checked := s.(tokens := tokens);
    TokensDoNotMatter(s, tokens);
    if found.Some? {
      var u := found.value;
      var free := Displace(checked, sid, u);
      DisplaceFrees(checked, sid, u);
      var restored := Restored(lastSeq, PreviousSeq(s, sid, u));
      var joining := free.sessions[sid];
      var client := joining.(user := Some(Session.UserContext(u, token)), gate := joining.gate.(lastSeq := restored));
      AttachAfterDisplace(free, sid, u, token, client);
      ServerFrames.ReconnectIs(s, sid, token, lastSeq, now, u);
      ClashMeans(s, sid, token, now);
      hide Reconnect, Displace, Core, LoginsAgree, RestKept, Live, ReconnectClashes, Clash, TakenElsewhere, Tokens.Validate,
           Registry.Register;
    }
  }

  /** In any state, also one that breaks the invariant, a reconnect with a valid token gets the
      second "already logged in" answer exactly when the user's active session does not hold the
      user's record: when the registry's maps are not each other's inverse there. */
  lemma ReconnectRefusedLateExactly(s: State, sid: SessionId, token: string, lastSeq: U32, now: Time)
    requires sid in s.sessions && Tokens.Validate(s.tokens, token, now).1.Some?
    ensures
      var user := Tokens.Validate(s.tokens, token, now).1.value;
      Reconnect(s, sid, token, lastSeq, now).1 == Refused(AlreadyLoggedInLate)
      <==> TakenElsewhere(s, sid, user)
           && var existing := s.registry.active[user];
              !(existing in s.registry.records && s.registry.records[existing].user == user)
  {
    var user := Tokens.Validate(s.tokens, token, now).1.value;
    hide Party.ReplaceMember, Guild.ReplaceMember, Move, PreviousSeq;
    if TakenElsewhere(s, sid, user) {
      Registry.RemoveFrees(s.registry, user);
    }
  }

  // ----- Matchmaking -----

  /** A queue that holds one party holds no pair, so the party leaves it again. */
  lemma AloneInQueue(c: MatchQueue.Candidate, now: real)
    ensures MatchQueue.FindPair(MatchQueue.DEFAULT_RULE, [c], now) == None
    ensures MatchQueue.Cancel([c], c.party).0 == []
  {
    MatchQueue.FindsWhenThereIs(MatchQueue.DEFAULT_RULE, [c], now);
    assert MatchQueue.Without([c], c.party) == MatchQueue.Without([], c.party);
  }

  lemma PlaceKeeps(s: State, p: Party.PartyId, draw: Draw)
    requires Core(s)
    ensures Keeps(s, Place(s, p, draw).0)
    ensures p in s.parties.parties ==> Place(s, p, draw).1.Some?
  {
    hide LoginsAgree, IdsBelow, Party.Agree, Guild.Agree, CachedInventory.Coupled;
  }

  /** In a reachable state a queued party is matched with itself, whatever it asked for. */
  lemma MatchesAlone(s: State, p: Party.PartyId, size: nat, first: Draw, second: Draw, now: Time)
    requires s.queue == [] && p in s.parties.parties && p != 0 && MatchQueue.SizeOk(MatchQueue.DEFAULT_RULE, size)
    ensures MatchParty(s, p, size, first, second, now)
         == (Place(s, p, first).0, Matched(p, s.instances.nextId, first.ticket))
  {
    var c := MatchQueue.Candidate(p, 0, size, Seconds(now));
    assert MatchQueue.Find([], p) == 0;
    assert [] + [c] == [c];
    AloneInQueue(c, Seconds(now));
    hide MatchQueue.FindPair, MatchQueue.Cancel, Seconds;
    var one := [(p, first)];
    assert one[1..] == [];
    assert s.(queue := []) == s;
    hide Place;
    PlaceAnswers(s, p, first);
    assert PlaceAll(s, p, one, Refused(MatchNotFound))
        == PlaceAll(Place(s, p, first).0, p, [], Matched(p, s.instances.nextId, first.ticket));
  }

  lemma PlaceAnswers(s: State, p: Party.PartyId, draw: Draw)
    ensures Place(s, p, draw).1 == if p in s.parties.parties then Some(s.instances.nextId) else None
  {
  }

  lemma MatchKeeps(s: State, sid: SessionId, asked: Party.PartyId, first: Draw, second: Draw, now: Time)
    requires Core(s)
    ensures Keeps(s, Match(s, sid, asked, first, second, now).0)
  {
    var p := if asked == 0 && sid in s.parties.index then s.parties.index[sid] else asked;
    if p in s.parties.parties {
      var size := |s.parties.parties[p].members|;
      if p != 0 && MatchQueue.SizeOk(MatchQueue.DEFAULT_RULE, size) {
        MatchesAlone(s, p, size, first, second, now);
        PlaceKeeps(s, p, first);
      }
    }
    hide Core, Place, MemberSessions;
  }

  // ----- Dungeons, storage and guilds -----

  lemma EnterKeeps(s: State, sid: SessionId, i: Instances.InstanceId, ticket: string, character: nat)
    requires Core(s) && sid in s.sessions
    ensures Keeps(s, Enter(s, sid, i, ticket, character).0)
  {
    hide LoginsAgree, IdsBelow, Party.Agree, Guild.Agree, CachedInventory.Coupled, MemberSessions, Instances.Grants;
  }

  lemma {:induction false} AddAllCouples(c: CachedInventory.Cached, inventory: nat, items: Items, reason: string)
    requires CachedInventory.Coupled(c)
    ensures CachedInventory.Coupled(AddAll(c, inventory, items, reason).0)
    decreases |items|
  {
    if items != [] {
      var add := InventoryStore.AddItem(inventory, items[0].item, items[0].quantity, reason);
      CachedInventory.StepRefines(c, add);
      hide CachedInventory.CachedStep, CachedInventory.Coupled;
      AddAllCouples(CachedInventory.CachedStep(c, add).0, inventory, items[1..], reason);
    }
  }

  lemma DepositCouples(c: CachedInventory.Cached, inventory: nat, items: Items, reason: string)
    requires CachedInventory.Coupled(c)
    ensures CachedInventory.Coupled(Deposit(c, inventory, items, reason).0)
  {
    var begun := CachedInventory.CachedStep(c, InventoryStore.BeginTransaction).0;
    var (added, ok) := AddAll(begun, inventory, items, reason);
    CachedInventory.StepRefines(c, InventoryStore.BeginTransaction);
    AddAllCouples(begun, inventory, items, reason);
    CachedInventory.StepRefines(added, InventoryStore.CommitTransaction(c.nextTransaction));
    CachedInventory.StepRefines(added, InventoryStore.RollbackTransaction(c.nextTransaction));
    hide CachedInventory.CachedStep, CachedInventory.Coupled;
  }

  /** Storage and grants may change on their own, as long as cache and store stay coupled. */
  lemma StorageKeeps(s: State, storage: CachedInventory.Cached, nextGrant: nat,
                     grants: map<Instances.InstanceId, Reward.GrantId>)
    requires Core(s) && CachedInventory.Coupled(storage)
    ensures Keeps(s, s.(storage := storage, nextGrant := nextGrant, grants := grants))
  {
    hide LoginsAgree, IdsBelow, IndexesLive, Party.Agree, Guild.Agree, InstancesKnown, CachedInventory.Coupled;
  }

  lemma UpdateKeeps(s: State, character: nat, items: Items)
    requires Core(s)
    ensures Keeps(s, Update(s, character, items).0)
  {
    DepositCouples(s.storage, character, items, "inventory_update");
    hide Core, CachedInventory.Coupled, Deposit;
    StorageKeeps(s, Deposit(s.storage, character, items, "inventory_update").0, s.nextGrant, s.grants);
    assert s.(nextGrant := s.nextGrant, grants := s.grants) == s;
  }

  lemma PayOutKeeps(s: State, i: Instances.InstanceId, character: nat, rewards: Items)
    requires Core(s)
    ensures Keeps(s, PayOut(s, i, character, rewards).0)
  {
    DepositCouples(s.storage, character, rewards, "dungeon_reward");
    PayOutShape(s, i, character, rewards);
    var after := PayOut(s, i, character, rewards).0;
    assert CachedInventory.Coupled(s.storage);
    hide Core, Live, PayOut, Deposit, Reward.Grant, CachedInventory.Coupled;
    StorageKeeps(s, after.storage, after.nextGrant, after.grants);
  }

  lemma RequestKeeps(s: State, i: Instances.InstanceId, to: Instances.Phase)
    requires Core(s)
    ensures Keeps(s, s.(instances := Instances.RequestTransition(s.instances, i, to, s.parties).0))
    ensures Keeps(s, s.(instances := Instances.TerminateInstance(s.instances, i).0))
  {
    hide LoginsAgree, IdsBelow, IndexesLive, Party.Agree, Guild.Agree, CachedInventory.Coupled;
    hide Instances.IsPartyReady, Instances.TransitionAllowed;
  }

  lemma ConcludeKeeps(s: State, sid: SessionId, i: Instances.InstanceId, to: Instances.Phase, rewards: Items)
    requires Core(s)
    ensures Keeps(s, Conclude(s, sid, i, to, rewards).0)
  {
    var ended := s.(instances := Instances.RequestTransition(s.instances, i, to, s.parties).0);
    RequestKeeps(s, i, to);
    if sid in s.characters {
      PayOutKeeps(ended, i, s.characters[sid], rewards);
    }
    hide Core, Live, PayOut, Instances.RequestTransition;
  }

  lemma ResultKeeps(s: State, sid: SessionId, cleared: bool, rewards: Items)
    requires Core(s)
    ensures Keeps(s, Result(s, sid, cleared, rewards).0)
  {
    if sid in s.playing {
      ConcludeKeeps(s, sid, s.playing[sid], if cleared then Instances.Clear else Instances.Fail, rewards);
    }
    hide Core, Live, Conclude;
  }

  /** A guild service that agrees with itself and enters no dead session keeps the invariant. */
  lemma GuildsKeep(s: State, guilds: Guild.State)
    requires Core(s) && Guild.Agree(guilds) && (Live(s) ==> guilds.index.Keys <= s.sessions.Keys)
    ensures Keeps(s, s.(guilds := guilds))
  {
    hide LoginsAgree, IdsBelow, Party.Agree, Guild.Agree, InstancesKnown, CachedInventory.Coupled;
  }

  lemma GuildStepLive(s: Guild.State, op: Guild.Op, live: set<SessionId>)
    requires op.LeaveOp? || (op.CreateOp? && op.leader in live) || (op.JoinOp? && op.session in live)
    requires s.index.Keys <= live
    ensures Guild.Step(s, op).index.Keys <= live
  {
  }

  lemma GuildStepKeeps(s: State, op: Guild.Op)
    requires Core(s)
    requires op.LeaveOp? || (op.CreateOp? && op.leader in s.sessions) || (op.JoinOp? && op.session in s.sessions)
    ensures Keeps(s, s.(guilds := Guild.Step(s.guilds, op)))
  {
    Guild.StepAgrees(s.guilds, op);
    if Live(s) {
      GuildStepLive(s.guilds, op, s.sessions.Keys);
    }
    hide Guild.Agree, Guild.Step, Core;
    GuildsKeep(s, Guild.Step(s.guilds, op));
  }

  lemma PartiesKeep(s: State, parties: Party.State)
    requires Core(s) && Party.Agree(parties)
    ensures Core(s.(parties := parties))
    ensures Live(s) && parties.index.Keys <= s.sessions.Keys ==> Live(s.(parties := parties))
  {
    hide LoginsAgree, IdsBelow, Party.Agree, Guild.Agree, InstancesKnown, CachedInventory.Coupled;
  }

  lemma PartyStepLive(s: Party.State, op: Party.Op, live: set<SessionId>)
    requires s.index.Keys <= live
    requires op.CreateOp? ==> op.leader in live
    requires op.AcceptOp? ==> op.invitee in live
    requires op.ReplaceOp? ==> op.to in live
    ensures Party.Step(s, op).index.Keys <= live
  {
    hide Party.Expired, Party.MoveInvites, Party.ReplaceIn, Party.FreshOnly, Party.ExpiredPairs;
  }

  lemma PartyCallKeeps(s: State, op: Party.Op)
    requires Core(s)
    ensures Core(s.(parties := Party.Step(s.parties, op)))
    ensures Live(s) && Allowed(s, PartyCall(op)) ==> Live(s.(parties := Party.Step(s.parties, op)))
  {
    Party.StepAgrees(s.parties, op);
    if Live(s) && Allowed(s, PartyCall(op)) {
      PartyStepLive(s.parties, op, s.sessions.Keys);
    }
    hide Core, Party.Agree, Party.Step;
    PartiesKeep(s, Party.Step(s.parties, op));
  }

  // ----- One step, every run -----

  lemma HandleKeeps(s: State, sid: SessionId, r: Request, now: Time)
    requires Core(s) && sid in s.sessions
    ensures Core(Handle(s, sid, r, now).0)
    ensures Live(s) && !(r.ReconnectReq? && ReconnectClashes(s, sid, r.token, now)) ==> Live(Handle(s, sid, r, now).0)
  {
    hide Core, Login, Logout, Reconnect, Match, Enter, Result, Update, ReconnectClashes;
    match r
    case LoginReq(user, password, token) => LoginKeeps(s, sid, user, password, token, now);
    case LogoutReq => LogoutKeeps(s, sid);
    case ReconnectReq(token, lastSeq) => ReconnectKeepsExactly(s, sid, token, lastSeq, now);
    case MatchReq(party, first, second) => MatchKeeps(s, sid, party, first, second, now);
    case EnterReq(i, ticket, character) => EnterKeeps(s, sid, i, ticket, character);
    case ResultReq(cleared, rewards) => ResultKeeps(s, sid, cleared, rewards);
    case UpdateReq(character, items) => UpdateKeeps(s, character, items);
    case GuildCreateReq(name) =>
      if s.sessions[sid].user.Some? {
        GuildStepKeeps(s, Guild.CreateOp(sid, s.sessions[sid].user.value.user, name));
      }
    case GuildJoinReq(g) =>
      if s.sessions[sid].user.Some? {
        GuildStepKeeps(s, Guild.JoinOp(g, sid, s.sessions[sid].user.value.user));
      }
    case GuildLeaveReq(g) =>
      GuildStepKeeps(s, Guild.LeaveOp(g, sid));
      if sid in s.guilds.index {
        GuildStepKeeps(s, Guild.LeaveOp(s.guilds.index[sid], sid));
      }
    case MalformedReq =>
  }

  /** A packet's own bookkeeping touches no more than its session's clock and replay gate. */
  lemma AdmitKeeps(s: State, sid: SessionId, v: U16, stamp: Option<Session.Stamp>, now: Time)
    requires Core(s) && sid in s.sessions
    ensures
      var admitted := Admit(Receive(s, sid, v, now), sid, stamp).0;
      && Keeps(s, admitted) && admitted == s.(sessions := admitted.sessions)
      && admitted.sessions.Keys == s.sessions.Keys
  {
    var received := Receive(s, sid, v, now);
    SameUserKeeps(s, sid, s.sessions[sid].(lastReceive := now, version := v));
    assert received.sessions.Keys == s.sessions.Keys;
    hide Core, Session.PassGate;
    match stamp
    case None =>
    case Some(st) =>
      var gate := Session.PassGate(received.sessions[sid].gate, st.seqNo, st.nonce).0;
      SameUserKeeps(received, sid, received.sessions[sid].(gate := gate));
  }

  lemma ClashUnmoved(s: State, t: State, sid: SessionId, token: string, now: Time)
    requires t == s.(sessions := t.sessions) && t.sessions.Keys == s.sessions.Keys
    ensures ReconnectClashes(t, sid, token, now) == ReconnectClashes(s, sid, token, now)
  {
    assert forall id :: id in t.sessions <==> id in s.sessions;
  }

  lemma PacketKeeps(s: State, sid: SessionId, v: U16, stamp: Option<Session.Stamp>, r: Request, now: Time)
    requires Core(s) && sid in s.sessions
    ensures Core(Packet(s, sid, v, stamp, r, now).0)
    ensures Live(s) && !(r.ReconnectReq? && ReconnectClashes(s, sid, r.token, now)) ==>
      Live(Packet(s, sid, v, stamp, r, now).0)
  {
    AdmitKeeps(s, sid, v, stamp, now);
    var admitted := Admit(Receive(s, sid, v, now), sid, stamp).0;
    if r.ReconnectReq? {
      ClashUnmoved(s, admitted, sid, r.token, now);
    }
    ServerFrames.PacketIs(s, sid, v, stamp, r, now);
    hide Core, Live, Packet, Handle, Admit, Receive, ReconnectClashes;
    HandleKeeps(admitted, sid, r, now);
  }

  lemma CreateInstanceKeeps(s: State, p: Party.PartyId)
    requires Core(s)
    ensures Keeps(s, s.(instances := Instances.Create(s.instances, p, s.parties).0))
  {
    hide LoginsAgree, IdsBelow, IndexesLive, Party.Agree, Guild.Agree, CachedInventory.Coupled;
  }

  lemma StepKeepsCore(s: State, e: Event)
    requires Core(s) && Enabled(s, e)
    ensures Core(Next(s, e))
    ensures Live(s) && Allowed(s, e) ==> Live(Next(s, e))
  {
    hide Core, CreateSession, RemoveSession, Tick, Packet, Party.Step, Live;
    match e
    case Connect(timeout, nonceLimit, now) => ConnectKeeps(s, timeout, nonceLimit, now);
    case Remove(id) => RemoveKeeps(s, id);
    case TickAt(now) => TickKeeps(s, now);
    case LoseConnection(id) => SameUserKeeps(s, id, s.sessions[id].(connected := false));
    case Drop(id, v, now) => SameUserKeeps(s, id, s.sessions[id].(lastReceive := now, version := v));
    case Deliver(id, v, stamp, request, now) => PacketKeeps(s, id, v, stamp, request, now);
    case PartyCall(op) => PartyCallKeeps(s, op);
    case CreateInstance(p) => CreateInstanceKeeps(s, p);
    case TerminateInstance(i) => RequestKeeps(s, i, Instances.Terminate);
    case RequestTransition(i, to) => RequestKeeps(s, i, to);
  }

  lemma StepKeeps(s: State, e: Event)
    requires Inv(s) && Allowed(s, e)
    ensures Inv(Next(s, e))
  {
    StepKeepsCore(s, e);
    hide Core, Live, Next;
  }

  lemma TickKeeps(s: State, now: Time)
    requires Core(s)
    ensures Keeps(s, Tick(s, now))
  {
    RemoveAllKeeps(s, DeadAt(s, now));
  }

  /** Every event of a run is allowed where it happens. */
  ghost predicate AllowedRun(s: State, es: seq<Event>)
    decreases |es|
  {
    es != [] ==> Allowed(s, es[0]) && AllowedRun(Next(s, es[0]), es[1..])
  }

  lemma {:induction false} RunKeeps(s: State, es: seq<Event>)
    requires Core(s) && Runs(s, es)
    ensures Core(After(s, es))
    ensures Live(s) && AllowedRun(s, es) ==> Live(After(s, es))
    decreases |es|
  {
    hide Core, Live, Next, Allowed;
    if es != [] {
      StepKeepsCore(s, es[0]);
      RunKeeps(Next(s, es[0]), es[1..]);
    }
  }

  lemma StartsWell()
    ensures Inv(START)
  {
  }

  /** In every state reached by any run the registry's maps are each other's inverse, a registered
      id is a live session whose user context is its record, no user is on two sessions and the
      match queue is empty; and if every event of the run was allowed, every index is keyed by
      live sessions. */
  lemma EveryReachableState(es: seq<Event>)
    requires Runs(START, es)
    ensures
      var s := After(START, es);
      && Core(s)
      && (forall a, b :: SameUser(s, a, b) ==> a == b)
      && (AllowedRun(START, es) ==> Live(s))
  {
    StartsWell();
    RunKeeps(START, es);
    var s := After(START, es);
    forall a, b | SameUser(s, a, b) ensures a == b {
      hide Core;
      OneSessionPerUser(s, a, b);
    }
  }
}
