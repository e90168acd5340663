/** The server object of src/net/server.cpp: it holds the sessions and the services and handles
    one packet at a time in place. Every method is proved against the function of module `Server`
    that says what the call does to the whole state. */
module ServerObject {
  import opened Common
  import opened Server
  import ServerFrames
  import opened ServerInvariant
  import Session
  import Registry
  import Tokens
  import Party
  import Guild
  import Instances
  import MatchQueue
  import Reward
  import InventoryStore
  import CachedInventory

  ghost function ClientOf(c: Session.ClientSession): Client
    reads c
  {
    Client(c.userContext, c.GateView(), c.connected, c.lastReceive, c.timeout, c.protocolVersion)
  }

  class GameServer {
    var nextId: nat
    var sessions: map<SessionId, Session.ClientSession>
    const registry: Registry.SessionRegistry
    const tokens: Tokens.TokenService
    const parties: Party.PartyService
    const guilds: Guild.GuildService
    const matches: MatchQueue.MatchMaker
    const instances: Instances.InstanceManager
    const storage: CachedInventory.CachedInventoryStorage
    var partyInstances: map<Party.PartyId, Instances.InstanceId>
    var tickets: map<Instances.InstanceId, string>
    var seeds: map<Instances.InstanceId, U32>
    var grants: map<Instances.InstanceId, Reward.GrantId>
    var nextGrant: nat
    var playing: map<SessionId, Instances.InstanceId>
    var characters: map<SessionId, nat>

    ghost predicate Valid()
      reads this, sessions.Values, matches, storage, storage.persistent, storage.cache
    {
      && (forall k :: k in sessions ==> sessions[k].id == k && sessions[k].Valid())
      && matches.Valid() && matches.rule == MatchQueue.DEFAULT_RULE
      && storage.Valid()
    }

    ghost function Clients(): map<SessionId, Client>
      reads this`sessions, sessions.Values
    {
      map k | k in sessions :: ClientOf(sessions[k])
    }

    /** The values of the services, which change one at a time. */
    ghost function Services(): (Registry.State, Tokens.State, Party.State, Guild.State, MatchQueue.Queue, Instances.State,
                                CachedInventory.Cached)
      reads registry, tokens, parties, guilds, matches, instances, storage, storage.persistent, storage.cache
    {
      (registry.View(), tokens.tokens, parties.View(), guilds.View(), matches.queue, instances.View(), storage.State())
    }

    ghost function State(): Server.State
      reads this, sessions.Values, registry, tokens, parties, guilds, matches, instances
      reads storage, storage.persistent, storage.cache
    {
      var (r, t, p, g, q, i, c) := Services();
      Server.State(nextId, Clients(), r, t, p, g, q, i, c, partyInstances, tickets, seeds, grants, nextGrant, playing,
                   characters)
    }

    ghost predicate Owns(session: Session.ClientSession)
      reads this`sessions, session
    {
      session.id in sessions && sessions[session.id] == session
    }

    constructor ()
      ensures Valid() && State() == START
    {
      nextId, sessions := 1, map[];
      registry := new Registry.SessionRegistry();
      tokens := new Tokens.TokenService();
      parties := new Party.PartyService();
      guilds := new Guild.GuildService();
      matches := new MatchQueue.MatchMaker(MatchQueue.DEFAULT_RULE);
      instances := new Instances.InstanceManager();
      var persistent := new InventoryStore.InMemoryInventoryStorage();
      var cache := new InventoryStore.InMemoryInventoryStorage();
      storage := new CachedInventory.CachedInventoryStorage(persistent, cache);
      partyInstances, tickets, seeds, grants, nextGrant := map[], map[], map[], map[], 1;
      playing, characters := map[], map[];
    }

    twostate lemma Unmoved(session: Session.ClientSession)
      requires unchanged(session)
      ensures ClientOf(session) == old(ClientOf(session)) && (old(session.Valid()) ==> session.Valid())
    {
    }

    /** Where only this session has changed, so has only its entry. */
    twostate lemma OneClientMoved(session: Session.ClientSession)
      requires unchanged(this) && old(Valid()) && Owns(session) && session.Valid()
      requires forall k :: k in sessions && sessions[k] != session ==> unchanged(sessions[k])
      requires unchanged(matches, storage, storage.persistent, storage.cache)
      ensures Valid() && session.id in old(Clients())
      ensures Clients() == old(Clients())[session.id := ClientOf(session)]
    {
      forall k | k in sessions && k != session.id
        ensures ClientOf(sessions[k]) == old(ClientOf(sessions[k])) && sessions[k].Valid()
      {
        Unmoved(sessions[k]);
      }
      hide ClientOf;
    }

    /** Where no session has changed, so has none of their entries. */
    twostate lemma ClientsStay()
      requires sessions == old(sessions) && forall k :: k in sessions ==> unchanged(sessions[k])
      ensures Clients() == old(Clients())
    {
      forall k | k in sessions ensures ClientOf(sessions[k]) == old(ClientOf(sessions[k])) {
        Unmoved(sessions[k]);
      }
      hide ClientOf;
    }

    /** Where only fields of this object have changed, so have only they. */
    twostate lemma FieldsMoved()
      requires old(Valid()) && sessions == old(sessions) && forall k :: k in sessions ==> unchanged(sessions[k])
      requires unchanged(registry, tokens, parties, guilds, matches, instances, storage, storage.persistent, storage.cache)
      ensures Valid() && Clients() == old(Clients()) && Services() == old(Services())
    {
      ClientsStay();
      hide Clients, ClientOf;
    }

    /** Where one session has been dropped, and perhaps changed, so has its entry. */
    twostate lemma OneDropped(id: SessionId)
      requires old(Valid()) && sessions == old(sessions) - {id} && forall k :: k in sessions ==> unchanged(sessions[k])
      requires unchanged(registry, tokens, parties, guilds, matches, instances, storage, storage.persistent, storage.cache)
      ensures Valid() && Clients() == old(Clients()) - {id} && Services() == old(Services())
    {
      forall k | k in sessions ensures ClientOf(sessions[k]) == old(ClientOf(sessions[k])) && sessions[k].Valid() {
        Unmoved(sessions[k]);
      }
      hide ClientOf;
    }

    twostate lemma OneMoved(session: Session.ClientSession)
      requires unchanged(this) && old(Valid()) && Owns(session) && session.Valid()
      requires forall k :: k in sessions && sessions[k] != session ==> unchanged(sessions[k])
      requires unchanged(registry, tokens, parties, guilds, matches, instances, storage, storage.persistent, storage.cache)
      ensures Valid() && session.id in old(State()).sessions
      ensures State() == SetClient(old(State()), session.id, ClientOf(session))
    {
      OneClientMoved(session);
      assert Services() == old(Services());
      hide Clients, ClientOf, Valid, Services;
    }

    // ----- One field or service at a time -----

    /** Attaches or clears the user context of one session. */
    method SetUser(session: Session.ClientSession, user: Option<Session.UserContext>)
      requires Valid() && Owns(session)
      modifies session`userContext
      ensures Valid() && State() == Attach(old(State()), session.id, user)
    {
      Known(session);
      ghost var c := ClientOf(session);
      if user.Some? {
        session.AttachUserContext(user.value);
      } else {
        session.ClearUserContext();
      }
      assert ClientOf(session) == c.(user := user);
      OneMoved(session);
      hide ClientOf, Valid, State;
    }

    method ForgetLogin(id: SessionId)
      requires Valid()
      modifies registry
      ensures Valid() && State() == old(State()).(registry := Registry.Remove(old(State()).registry, id))
    {
      hide ClientOf, Registry.Remove;
      registry.RemoveSession(id);
      ClientsStay();
      hide Clients;
    }

    method RecordLogin(id: SessionId, context: Session.UserContext) returns (ok: bool)
      requires Valid()
      modifies registry
      ensures Valid() && ok == Registry.Register(old(State()).registry, id, context).1
      ensures State() == old(State()).(registry := Registry.Register(old(State()).registry, id, context).0)
    {
      hide ClientOf, Registry.Register;
      ok := registry.RegisterSession(id, context);
      ClientsStay();
      hide Clients;
    }

    method IssueToken(user: string, token: string, now: Time)
      requires Valid()
      modifies tokens
      ensures Valid() && State() == old(State()).(tokens := Tokens.Issue(old(State()).tokens, user, token, now))
    {
      hide ClientOf, Tokens.Issue;
      tokens.IssueToken(user, token, now);
    }

    ghost function HeldAt(id: SessionId): set<Session.ClientSession>
      reads this`sessions
    {
      if id in sessions then {sessions[id]} else {}
    }

    method DropSession(id: SessionId)
      requires Valid()
      modifies this`sessions, HeldAt(id)`userContext
      ensures Valid() && sessions == old(sessions) - {id}
      ensures State() == old(State()).(sessions := old(State()).sessions - {id})
    {
      if id in sessions {
        sessions[id].ClearUserContext();
      }
      sessions := sessions - {id};
      OneDropped(id);
      hide Valid, Clients, ClientOf, Services;
    }

    method LeaveParty(id: SessionId)
      requires Valid()
      modifies parties
      ensures Valid() && State() == old(State()).(parties := Party.RemoveMember(old(State()).parties, id).0)
    {
      hide ClientOf, Party.RemoveMember;
      var removed := parties.Remove(id);
    }

    method LeaveGuilds(id: SessionId)
      requires Valid()
      modifies guilds
      ensures Valid() && State() == old(State()).(guilds := Guild.RemoveMember(old(State()).guilds, id).0)
    {
      hide ClientOf, Guild.RemoveMember;
      var removed := guilds.Remove(id);
      ClientsStay();
      hide Clients;
    }

    method LeaveInstance(id: SessionId)
      requires Valid()
      modifies this`playing
      ensures Valid() && State() == old(State()).(playing := old(State()).playing - {id})
    {
      playing := playing - {id};
      FieldsMoved();
      hide Valid, Clients, ClientOf, Services;
    }

    method LeaveCharacter(id: SessionId)
      requires Valid()
      modifies this`characters
      ensures Valid() && State() == old(State()).(characters := old(State()).characters - {id})
    {
      characters := characters - {id};
      FieldsMoved();
      hide Valid, Clients, ClientOf, Services;
    }

    // ----- Sessions come and go -----

    method Connect(policy: Session.OverflowPolicy, sendLimit: nat, nonceLimit: nat, timeout: Time, capacity: real,
                   rate: real, clock: real, now: Time)
      returns (session: Session.ClientSession)
      requires Valid()
      modifies this`nextId, this`sessions
      ensures Valid() && Owns(session)
      ensures State() == CreateSession(old(State()), timeout, nonceLimit, now)
    {
      hide ClientOf, Services, State, Valid;
      var id := TakeId();
      session := NewSession(id, policy, sendLimit, nonceLimit, timeout, capacity, rate, clock, now);
      FileSession(session);
    }

    static method NewSession(id: SessionId, policy: Session.OverflowPolicy, sendLimit: nat, nonceLimit: nat, timeout: Time,
                             capacity: real, rate: real, clock: real, now: Time)
      returns (session: Session.ClientSession)
      ensures fresh(session) && session.id == id && session.Valid()
      ensures ClientOf(session) == Client(None, Session.Gate(0, [], nonceLimit), true, now, timeout, 0)
    {
      session := new Session.ClientSession(id, policy, sendLimit, nonceLimit, timeout, capacity, rate, clock, now);
    }

    method FileSession(session: Session.ClientSession)
      requires Valid() && session.Valid()
      modifies this`sessions
      ensures Valid() && Owns(session)
      ensures State() == SetClient(old(State()), session.id, ClientOf(session))
    {
      hide ClientOf, Services, Session.ClientSession.Valid;
      sessions := sessions[session.id := session];
      assert Clients() == old(Clients())[session.id := ClientOf(session)];
    }

    method TakeId() returns (id: nat)
      requires Valid()
      modifies this`nextId
      ensures Valid() && id == old(State()).nextId && State() == old(State()).(nextId := id + 1)
    {
      hide ClientOf, Services;
      id := nextId;
      nextId := nextId + 1;
    }

    method Disconnect(id: SessionId)
      requires Valid()
      modifies this`sessions, this`playing, this`characters, HeldAt(id)`userContext, registry, parties, guilds
      ensures Valid() && sessions == old(sessions) - {id}
      ensures State() == RemoveSession(old(State()), id)
    {
      hide State, Valid, Registry.Remove, Party.RemoveMember, Guild.RemoveMember;
      DropSession(id);
      ForgetLogin(id);
      LeaveParty(id);
      LeaveGuilds(id);
      LeaveInstance(id);
      LeaveCharacter(id);
    }

    // ----- Login, logout -----

    method LoginRequest(session: Session.ClientSession, user: string, password: string, token: string, now: Time)
      returns (reply: Reply)
      requires Valid() && Owns(session)
      modifies session`userContext, registry, tokens
      ensures Valid()
      ensures (State(), reply) == Login(old(State()), session.id, user, password, token, now)
    {
      hide ClientOf, Registry.Register, Tokens.Issue;
      if password != PASSWORD {
        return Refused(InvalidCredentials);
      }
      var existing := registry.HasUser(user);
      if existing.Some? && existing.value != session.id {
        return Refused(AlreadyLoggedIn);
      }
      assert !TakenElsewhere(old(State()), session.id, user);
      hide State, Valid, TakenElsewhere;
      IssueToken(user, token, now);
      var context := Session.UserContext(user, token);
      SetUser(session, Some(context));
      var ok := RecordLogin(session.id, context);
      reply := if ok then LoggedIn(token) else Refused(AlreadyLoggedInLate);
    }

    method LogoutRequest(session: Session.ClientSession) returns (reply: Reply)
      requires Valid() && Owns(session)
      modifies session`userContext, registry
      ensures Valid()
      ensures (State(), reply) == Logout(old(State()), session.id)
    {
      assert session.id in State().sessions;
      hide State, Valid, Registry.Remove;
      SetUser(session, None);
      ForgetLogin(session.id);
      reply := LoggedOut;
    }

    // ----- Reconnect -----

    method ReplaceInParty(from: SessionId, to: SessionId)
      requires Valid()
      modifies parties
      ensures Valid() && State() == old(State()).(parties := Party.ReplaceMember(old(State()).parties, from, to).0)
    {
      hide ClientOf, Party.ReplaceMember;
      var replaced := parties.ReplaceMemberSession(from, to);
      ClientsStay();
      hide Clients;
    }

    method ReplaceInGuild(from: SessionId, to: SessionId)
      requires Valid()
      modifies guilds
      ensures Valid() && State() == old(State()).(guilds := Guild.ReplaceMember(old(State()).guilds, from, to).0)
    {
      hide ClientOf, Guild.ReplaceMember;
      var replaced := guilds.ReplaceMemberSession(from, to);
      ClientsStay();
      hide Clients;
    }

    method MoveInstance(from: SessionId, to: SessionId)
      requires Valid()
      modifies this`playing
      ensures Valid() && State() == old(State()).(playing := Move(old(State()).playing, from, to))
    {
      if from in playing {
        playing := playing[to := playing[from]];
        playing := playing - {from};
      }
      FieldsMoved();
      hide Valid, Clients, ClientOf, Services;
    }

    method MoveCharacter(from: SessionId, to: SessionId)
      requires Valid()
      modifies this`characters
      ensures Valid() && State() == old(State()).(characters := Move(old(State()).characters, from, to))
    {
      if from in characters {
        characters := characters[to := characters[from]];
        characters := characters - {from};
      }
      FieldsMoved();
      hide Valid, Clients, ClientOf, Services;
    }

    /** Everything the old session holds goes to the new one, and the old session is dropped. */
    method TakeOverSession(from: SessionId, to: SessionId)
      requires Valid()
      modifies this`sessions, this`playing, this`characters, HeldAt(from)`userContext, parties, guilds
      ensures Valid() && sessions == old(sessions) - {from}
      ensures State() == TakeOver(old(State()), from, to)
    {
      hide Valid, State, Move, Party.ReplaceMember, Guild.ReplaceMember;
      ReplaceInParty(from, to);
      ReplaceInGuild(from, to);
      MoveInstance(from, to);
      MoveCharacter(from, to);
      DropSession(from);
    }

    method CheckToken(token: string, now: Time) returns (user: Option<string>)
      requires Valid()
      modifies tokens
      ensures Valid() && State() == old(State()).(tokens := State().tokens)
      ensures (State().tokens, user) == Tokens.Validate(old(State()).tokens, token, now)
    {
      hide ClientOf, Tokens.Validate;
      user := tokens.ValidateToken(token, now);
    }

    method SetLastSeq(session: Session.ClientSession, n: U64)
      requires Valid() && Owns(session)
      modifies session`lastSeq
      ensures Valid()
      ensures State() == SetSeq(old(State()), session.id, n)
    {
      Known(session);
      ghost var c := ClientOf(session);
      session.SetLastSeq(n);
      assert ClientOf(session) == c.(gate := c.gate.(lastSeq := n));
      OneMoved(session);
      hide ClientOf, Valid, State;
    }

    /** Where the user is active elsewhere, and the sequence number reached there. */
    method FindElsewhere(session: Session.ClientSession, user: string) returns (from: Option<SessionId>, previous: U64)
      requires Valid()
      ensures from.Some? <==> TakenElsewhere(State(), session.id, user)
      ensures from.Some? ==> from.value == State().registry.active[user] && from.value != session.id
      ensures previous == PreviousSeq(State(), session.id, user)
    {
      var existing := registry.HasUser(user);
      if existing.None? || existing.value == session.id {
        return None, 0;
      }
      from, previous := existing, 0;
      if existing.value in sessions {
        assert State().sessions[existing.value] == ClientOf(sessions[existing.value]);
        previous := sessions[existing.value].lastSeq;
      }
    }

    method TakeOverIfLive(from: SessionId, to: SessionId)
      requires Valid()
      modifies this`sessions, this`playing, this`characters, HeldAt(from)`userContext, parties, guilds
      ensures Valid() && sessions == old(sessions) - {from}
      ensures State() == if from in old(State()).sessions then TakeOver(old(State()), from, to) else old(State())
    {
      assert from in State().sessions <==> from in sessions;
      hide Valid, State, TakeOver;
      if from in sessions {
        TakeOverSession(from, to);
      } else {
        assert sessions - {from} == sessions;
      }
    }

    /** Removes whatever session the user is active on elsewhere. */
    method DisplaceUser(session: Session.ClientSession, user: string) returns (previous: U64)
      requires Valid() && Owns(session)
      modifies this`sessions, this`playing, this`characters, sessions.Values`userContext, registry, parties, guilds
      ensures Valid() && Owns(session)
      ensures State() == Displace(old(State()), session.id, user)
      ensures previous == PreviousSeq(old(State()), session.id, user)
    {
      hide Valid, State, Registry.Remove, PreviousSeq, TakenElsewhere, Party.ReplaceMember, Guild.ReplaceMember, Move;
      var from;
      from, previous := FindElsewhere(session, user);
      if from.Some? {
        TakeOverIfLive(from.value, session.id);
        ForgetLogin(from.value);
      }
    }

    method ReconnectRequest(session: Session.ClientSession, token: string, lastSeq: U32, now: Time) returns (reply: Reply)
      requires Valid() && Owns(session)
      modifies this`sessions, this`playing, this`characters, sessions.Values`userContext, session`lastSeq
      modifies registry, tokens, parties, guilds
      ensures Valid()
      ensures (State(), reply) == Reconnect(old(State()), session.id, token, lastSeq, now)
    {
      Known(session);
      hide Valid, State, Displace, PreviousSeq, Tokens.Validate, Registry.Register, Restored, ResumeFrom;
      var user := CheckToken(token, now);
      if user.None? {
        return Refused(InvalidToken);
      }
      PreviousUnmoved(old(State()), State(), session.id, user.value);
      var previous := DisplaceUser(session, user.value);
      Known(session);
      hide SetSeq;
      var context := Session.UserContext(user.value, token);
      SetUser(session, Some(context));
      var ok := RecordLogin(session.id, context);
      if !ok {
        return Refused(AlreadyLoggedInLate);
      }
      var restored := Restored(lastSeq, previous);
      SetLastSeq(session, restored);
      reply := Reconnected(session.id, ResumeFrom(restored));
    }

    // ----- Matchmaking -----

    /** The search through the member list. */
    static method IsMember(party: Party.PartyRecord, sid: SessionId) returns (found: bool)
      ensures found <==> sid in MemberSessions(party)
    {
      var todo := party.members.Keys;
      while todo != {}
        invariant todo <= party.members.Keys
        invariant forall k :: k in party.members && k !in todo ==> party.members[k].session != sid
        decreases todo
      {
        var k :| k in todo;
        if party.members[k].session == sid {
          return true;
        }
        todo := todo - {k};
      }
      return false;
    }

    method NewInstance(p: Party.PartyId) returns (created: Option<Instances.InstanceId>)
      requires Valid()
      modifies instances
      ensures Valid() && State() == old(State()).(instances := Instances.Create(old(State()).instances, p, old(State()).parties).0)
      ensures created == Instances.Create(old(State()).instances, p, old(State()).parties).1
    {
      hide ClientOf, Instances.Create;
      created := instances.CreateInstance(p, parties);
      ClientsStay();
      hide Clients;
    }

    /** The loop over the members of a matched party. */
    method PutMembersIn(party: Party.PartyRecord, i: Instances.InstanceId)
      modifies this`playing
      ensures playing == old(playing) + AllAt(MemberSessions(party) * sessions.Keys, i)
    {
      var todo := party.members.Keys;
      ghost var live: set<SessionId> := {};
      while todo != {}
        invariant todo <= party.members.Keys
        invariant live <= MemberSessions(party) * sessions.Keys
        invariant forall k :: k in party.members && k !in todo && party.members[k].session in sessions ==>
          party.members[k].session in live
        invariant playing == old(playing) + AllAt(live, i)
        decreases todo
      {
        var k :| k in todo;
        var sid := party.members[k].session;
        if sid in sessions {
          PutOneMore(old(playing), live, sid, i);
          playing := playing[sid := i];
          live := live + {sid};
        }
        todo := todo - {k};
      }
      assert live == MemberSessions(party) * sessions.Keys;
    }

    method PutPartyIn(party: Party.PartyRecord, i: Instances.InstanceId)
      requires Valid()
      modifies this`playing
      ensures Valid()
      ensures State() == old(State()).(playing :=
        old(State()).playing + AllAt(MemberSessions(party) * old(State()).sessions.Keys, i))
    {
      hide AllAt, MemberSessions;
      assert Clients().Keys == sessions.Keys;
      PutMembersIn(party, i);
      FieldsMoved();
      hide Valid, Clients, ClientOf, Services;
    }

    method PartyInfo(p: Party.PartyId) returns (party: Option<Party.PartyRecord>)
      requires Valid()
      ensures party == if p in State().parties.parties then Some(State().parties.parties[p]) else None
    {
      party := if p in parties.parties then Some(parties.parties[p]) else None;
    }

    method PlaceParty(p: Party.PartyId, draw: Draw) returns (created: Option<Instances.InstanceId>)
      requires Valid()
      modifies instances, this`partyInstances, this`tickets, this`seeds, this`playing
      ensures Valid() && (State(), created) == Place(old(State()), p, draw)
    {
      hide Valid, State, MemberSessions, AllAt;
      created := NewInstance(p);
      if created.Some? {
        FileParty(p, created.value);
        FileTicket(created.value, draw.ticket);
        FileSeed(created.value, draw.seed);
        var party := PartyInfo(p);
        if party.Some? {
          PutPartyIn(party.value, created.value);
        }
      }
    }

    method FileParty(p: Party.PartyId, i: Instances.InstanceId)
      requires Valid()
      modifies this`partyInstances
      ensures Valid() && State() == old(State()).(partyInstances := old(State()).partyInstances[p := i])
    {
      partyInstances := partyInstances[p := i];
      FieldsMoved();
      hide Valid, Clients, ClientOf, Services;
    }

    method FileTicket(i: Instances.InstanceId, ticket: string)
      requires Valid()
      modifies this`tickets
      ensures Valid() && State() == old(State()).(tickets := old(State()).tickets[i := ticket])
    {
      tickets := tickets[i := ticket];
      FieldsMoved();
      hide Valid, Clients, ClientOf, Services;
    }

    method FileSeed(i: Instances.InstanceId, seed: U32)
      requires Valid()
      modifies this`seeds
      ensures Valid() && State() == old(State()).(seeds := old(State()).seeds[i := seed])
    {
      seeds := seeds[i := seed];
      FieldsMoved();
      hide Valid, Clients, ClientOf, Services;
    }

    method QueueParty(c: MatchQueue.Candidate) returns (ok: bool)
      requires Valid()
      modifies matches
      ensures Valid() && ok == MatchQueue.Enqueue(MatchQueue.DEFAULT_RULE, old(State()).queue, c).1
      ensures State() == old(State()).(queue := MatchQueue.Enqueue(MatchQueue.DEFAULT_RULE, old(State()).queue, c).0)
    {
      hide ClientOf, MatchQueue.Enqueue, MatchQueue.WellFormed;
      ok := matches.Add(c);
    }

    method UnqueueParty(p: Party.PartyId)
      requires Valid()
      modifies matches
      ensures Valid() && State() == old(State()).(queue := MatchQueue.Cancel(old(State()).queue, p).0)
    {
      hide ClientOf, MatchQueue.Cancel, MatchQueue.WellFormed;
      var cancelled := matches.CancelParty(p);
    }

    method TakePair(now: real) returns (found: Option<(MatchQueue.Candidate, MatchQueue.Candidate)>)
      requires Valid()
      modifies matches
      ensures Valid()
      ensures
        var s := old(State());
        match MatchQueue.FindPair(MatchQueue.DEFAULT_RULE, s.queue, now)
        case None => found == None && State() == s
        case Some((i, j)) =>
          && found == Some((s.queue[i], s.queue[j]))
          && State() == s.(queue := MatchQueue.RemoveAt(MatchQueue.RemoveAt(s.queue, j), i))
    {
      ghost var queue := matches.queue;
      found := matches.FindMatch(now);
      FoundIsPair(queue, now, found, matches.queue);
      ClientsStay();
      hide Clients, ClientOf, MatchQueue.FindPair, MatchQueue.FirstPair, MatchQueue.NoPair,
           MatchQueue.WellFormed, MatchQueue.RemoveAt;
    }

    /** The loop over the matched parties. */
    method PlaceMatches(asking: Party.PartyId, ps: seq<(Party.PartyId, Draw)>) returns (reply: Reply)
      requires Valid()
      modifies instances, this`partyInstances, this`tickets, this`seeds, this`playing
      ensures Valid() && (State(), reply) == PlaceAll(old(State()), asking, ps, Refused(MatchNotFound))
    {
      hide Valid, State, Place;
      reply := Refused(MatchNotFound);
      assert ps[0..] == ps;
      for k := 0 to |ps|
        invariant Valid()
        invariant PlaceAll(State(), asking, ps[k..], reply) == PlaceAll(old(State()), asking, ps, Refused(MatchNotFound))
      {
        var p, draw := ps[k].0, ps[k].1;
        var created := PlaceParty(p, draw);
        assert ps[k..][1..] == ps[k + 1..];
        if created.None? {
          return Refused(InstanceFailed);
        }
        if p == asking {
          reply := Matched(p, created.value, draw.ticket);
        }
      }
    }

    method MatchFor(p: Party.PartyId, size: nat, first: Draw, second: Draw, now: Time) returns (reply: Reply)
      requires Valid()
      modifies matches, instances, this`partyInstances, this`tickets, this`seeds, this`playing
      ensures Valid() && (State(), reply) == MatchParty(old(State()), p, size, first, second, now)
    {
      hide Valid, State, PlaceAll, MatchQueue.Enqueue, MatchQueue.FindPair, MatchQueue.Cancel, MatchQueue.RemoveAt, Seconds;
      ghost var s := State();
      var queued := QueueParty(MatchQueue.Candidate(p, 0, size, Seconds(now)));
      if !queued {
        RefusedKeepsQueue(MatchQueue.DEFAULT_RULE, s.queue, MatchQueue.Candidate(p, 0, size, Seconds(now)));
        return Refused(QueueRejected);
      }
      var found := TakePair(Seconds(now));
      if found.Some? {
        reply := PlaceMatches(p, [(found.value.0.party, first), (found.value.1.party, second)]);
      } else {
        UnqueueParty(p);
        reply := PlaceMatches(p, [(p, first)]);
      }
    }

    method PartyOf(sid: SessionId) returns (p: Option<Party.PartyId>)
      requires Valid()
      ensures p == if sid in State().parties.index then Some(State().parties.index[sid]) else None
    {
      p := if sid in parties.memberIndex then Some(parties.memberIndex[sid]) else None;
    }

    method MatchRequest(session: Session.ClientSession, asked: Party.PartyId, first: Draw, second: Draw, now: Time)
      returns (reply: Reply)
      requires Valid()
      modifies matches, instances, this`partyInstances, this`tickets, this`seeds, this`playing
      ensures Valid()
      ensures (State(), reply) == Match(old(State()), session.id, asked, first, second, now)
    {
      hide Valid, State, MatchParty, MemberSessions;
      var p := asked;
      if p == 0 {
        var own := PartyOf(session.id);
        if own.None? {
          return Refused(NoParty);
        }
        p := own.value;
      }
      var party := PartyInfo(p);
      if party.None? {
        return Refused(PartyNotFound);
      }
      var member := IsMember(party.value, session.id);
      if !member {
        return Refused(NotPartyMember);
      }
      reply := MatchFor(p, |party.value.members|, first, second, now);
    }

    // ----- Dungeons -----

    method Transition(i: Instances.InstanceId, to: Instances.Phase) returns (ok: bool)
      requires Valid()
      modifies instances
      ensures Valid() && ok == Instances.RequestTransition(old(State()).instances, i, to, old(State()).parties).1
      ensures State() == old(State()).(instances :=
        Instances.RequestTransition(old(State()).instances, i, to, old(State()).parties).0)
    {
      hide ClientOf, Instances.RequestTransition;
      ok := instances.Request(i, to, parties);
      ClientsStay();
      hide Clients;
    }

    method InstanceInfo(i: Instances.InstanceId) returns (record: Option<Instances.InstanceRecord>)
      requires Valid()
      ensures record == if i in State().instances.instances then Some(State().instances.instances[i]) else None
    {
      record := if i in instances.instances then Some(instances.instances[i]) else None;
    }

    method SetCharacter(sid: SessionId, character: nat)
      requires Valid()
      modifies this`characters
      ensures Valid() && State() == old(State()).(characters := old(State()).characters[sid := character])
    {
      characters := characters[sid := character];
      FieldsMoved();
      hide Valid, Clients, ClientOf, Services;
    }

    method SetInstance(sid: SessionId, i: Instances.InstanceId)
      requires Valid()
      modifies this`playing
      ensures Valid() && State() == old(State()).(playing := old(State()).playing[sid := i])
    {
      playing := playing[sid := i];
      FieldsMoved();
      hide Valid, Clients, ClientOf, Services;
    }

    /** Reading a missing seed files the default. */
    method ReadSeed(i: Instances.InstanceId) returns (seed: U32)
      requires Valid()
      modifies this`seeds
      ensures Valid() && seed == SeedOf(old(State()), i)
      ensures State() == old(State()).(seeds := old(State()).seeds[i := seed])
    {
      hide ClientOf, Services;
      if i !in seeds {
        seeds := seeds[i := 0];
      }
      seed := seeds[i];
      assert seeds == old(seeds)[i := seed];
    }

    method CheckTicket(i: Instances.InstanceId, ticket: string) returns (ok: bool)
      requires Valid()
      ensures ok <==> i in State().tickets && State().tickets[i] == ticket
    {
      ok := i in tickets && tickets[i] == ticket;
    }

    method EnterRequest(session: Session.ClientSession, i: Instances.InstanceId, ticket: string, character: nat)
      returns (reply: Reply)
      requires Valid()
      modifies instances, this`seeds, this`playing, this`characters
      ensures Valid()
      ensures (State(), reply) == Enter(old(State()), session.id, i, ticket, character)
    {
      hide Valid, State, MemberSessions, Instances.RequestTransition;
      ghost var s := State();
      var record := InstanceInfo(i);
      if record.None? {
        return Refused(InstanceNotFound);
      }
      var ticketOk := CheckTicket(i, ticket);
      if !ticketOk {
        return Refused(InvalidTicket);
      }
      var party := PartyInfo(record.value.party);
      if party.None? {
        return Refused(PartyNotFound);
      }
      var member := IsMember(party.value, session.id);
      if !member {
        return Refused(NotPartyMember);
      }
      var ok := Transition(i, Instances.Ready);
      if !ok {
        RefusedKeepsInstances(s.instances, i, Instances.Ready, s.parties);
        return Refused(InvalidState);
      }
      SetCharacter(session.id, character);
      SetInstance(session.id, i);
      var seed := ReadSeed(i);
      reply := Entered(seed);
    }

    // ----- Storage -----

    method StoreLines(inventory: nat, items: Items, reason: string) returns (ok: bool)
      requires storage.Valid()
      modifies storage, storage.persistent, storage.cache
      ensures storage.Valid() && (storage.State(), ok) == Deposit(old(storage.State()), inventory, items, reason)
    {
      hide CachedInventory.CachedStep;
      var t := storage.Begin();
      ghost var begun := storage.State();
      ok := true;
      var k := 0;
      assert items[0..] == items;
      while ok && k < |items|
        modifies storage.persistent, storage.cache
        invariant k <= |items| && storage.Valid()
        invariant ok ==> AddAll(storage.State(), inventory, items[k..], reason) == AddAll(begun, inventory, items, reason)
        invariant !ok ==> (storage.State(), false) == AddAll(begun, inventory, items, reason)
        decreases |items| - k, ok
      {
        ok := storage.Add(inventory, items[k].item, items[k].quantity, reason);
        assert items[k..][1..] == items[k + 1..];
        k := k + 1;
      }
      assert t == old(storage.State()).nextTransaction by { BeginAnswers(old(storage.State())); }
      if ok {
        storage.Commit(t);
      } else {
        storage.Rollback(t);
      }
    }

    method DepositLines(inventory: nat, items: Items, reason: string) returns (ok: bool)
      requires Valid()
      modifies storage, storage.persistent, storage.cache
      ensures Valid() && ok == Deposit(old(State()).storage, inventory, items, reason).1
      ensures State() == old(State()).(storage := Deposit(old(State()).storage, inventory, items, reason).0)
    {
      hide ClientOf, Deposit, CachedInventory.CachedInventoryStorage.State, CachedInventory.CachedInventoryStorage.Valid;
      ok := StoreLines(inventory, items, reason);
      ClientsStay();
      hide Clients;
    }

    method NextGrant() returns (id: Reward.GrantId)
      requires Valid()
      modifies this`nextGrant
      ensures Valid() && id == old(State()).nextGrant && State() == old(State()).(nextGrant := id + 1)
    {
      id := nextGrant;
      nextGrant := nextGrant + 1;
      FieldsMoved();
      hide Valid, Clients, ClientOf, Services;
    }

    method FileGrant(i: Instances.InstanceId, id: Reward.GrantId)
      requires Valid()
      modifies this`grants
      ensures Valid() && State() == old(State()).(grants := old(State()).grants[i := id])
    {
      grants := grants[i := id];
      FieldsMoved();
      hide Valid, Clients, ClientOf, Services;
    }

    static method CountRewards(id: Reward.GrantId, rewards: Items) returns (result: Reward.GrantResult)
      ensures result == Reward.Grant(Reward.State(REWARD_CAPACITY, map[], map[]), id, rewards).1
    {
      var inventory := new Reward.Inventory(REWARD_CAPACITY);
      result := Reward.GrantRewardsDetailed(inventory, id, rewards);
    }

    method PayRewards(i: Instances.InstanceId, character: nat, rewards: Items) returns (reply: Reply)
      requires Valid()
      modifies this`nextGrant, this`grants, storage, storage.persistent, storage.cache
      ensures Valid() && (State(), reply) == PayOut(old(State()), i, character, rewards)
    {
      hide Valid, State, Reward.Grant, Deposit;
      var id := NextGrant();
      var result := CountRewards(id, rewards);
      if result != Reward.GrantCompleted {
        return Refused(if result == Reward.GrantDuplicate then RewardDuplicate else RewardFailed);
      }
      var ok := DepositLines(character, rewards, "dungeon_reward");
      if !ok {
        return Refused(InventoryFailed);
      }
      FileGrant(i, id);
      reply := Recorded;
    }

    method PlayedBy(sid: SessionId) returns (i: Option<Instances.InstanceId>, character: Option<nat>)
      requires Valid()
      ensures i == if sid in State().playing then Some(State().playing[sid]) else None
      ensures character == if sid in State().characters then Some(State().characters[sid]) else None
    {
      i := if sid in playing then Some(playing[sid]) else None;
      character := if sid in characters then Some(characters[sid]) else None;
    }

    method IsGranted(i: Instances.InstanceId) returns (granted: bool)
      requires Valid()
      ensures granted <==> i in State().grants
    {
      granted := i in grants;
    }

    /** Ends the instance, then pays. */
    method ConcludeResult(session: Session.ClientSession, i: Instances.InstanceId, to: Instances.Phase,
                          character: Option<nat>, rewards: Items)
      returns (reply: Reply)
      requires Valid()
      requires character == if session.id in State().characters then Some(State().characters[session.id]) else None
      modifies instances, this`nextGrant, this`grants, storage, storage.persistent, storage.cache
      ensures Valid()
      ensures (State(), reply) == Conclude(old(State()), session.id, i, to, rewards)
    {
      hide Valid, State, Instances.RequestTransition, PayOut;
      ghost var s := State();
      var ok := Transition(i, to);
      if !ok {
        RefusedKeepsInstances(s.instances, i, to, s.parties);
        return Refused(InvalidState);
      }
      if character.None? {
        return Refused(CharNotSet);
      }
      reply := PayRewards(i, character.value, rewards);
    }

    method ResultNotify(session: Session.ClientSession, cleared: bool, rewards: Items) returns (reply: Reply)
      requires Valid()
      modifies instances, this`nextGrant, this`grants, storage, storage.persistent, storage.cache
      ensures Valid()
      ensures (State(), reply) == Result(old(State()), session.id, cleared, rewards)
    {
      hide Valid, State, Conclude;
      var played, character := PlayedBy(session.id);
      if played.None? {
        return Refused(NoInstance);
      }
      var record := InstanceInfo(played.value);
      if record.None? {
        return Refused(InstanceNotFound);
      }
      var granted := IsGranted(played.value);
      if granted {
        return Refused(RewardDuplicate);
      }
      var to := if cleared then Instances.Clear else Instances.Fail;
      reply := ConcludeResult(session, played.value, to, character, rewards);
    }

    method LogLength(inventory: nat) returns (n: nat)
      requires Valid()
      ensures n == |InventoryStore.LogOf(State().storage.persistent.live, inventory)|
    {
      var log := storage.Log(inventory);
      n := |log|;
    }

    method UpdateNotify(character: nat, items: Items) returns (reply: Reply)
      requires Valid()
      modifies storage, storage.persistent, storage.cache
      ensures Valid() && (State(), reply) == Update(old(State()), character, items)
    {
      hide Valid, State, Deposit, InventoryStore.LogOf;
      var ok := DepositLines(character, items, "inventory_update");
      var version := LogLength(character);
      reply := Updated(ok, version);
    }

    // ----- Guilds -----

    method GuildCreateRequest(session: Session.ClientSession, user: string, name: string) returns (reply: Reply)
      requires Valid()
      modifies guilds
      ensures Valid() && (State(), reply) == CreateGuild(old(State()), session.id, user, name)
    {
      hide ClientOf, Guild.Create;
      var created := guilds.CreateGuild(session.id, user, name);
      reply := if created.Some? then GuildCreated(created.value) else Refused(GuildRefused);
    }

    method GuildJoinRequest(session: Session.ClientSession, user: string, g: Guild.GuildId) returns (reply: Reply)
      requires Valid()
      modifies guilds
      ensures Valid() && (State(), reply) == JoinGuild(old(State()), session.id, user, g)
    {
      hide ClientOf, Guild.Join;
      var ok := guilds.JoinGuild(g, session.id, user);
      reply := if ok then GuildChanged else Refused(GuildRefused);
    }

    method GuildLeaveRequest(session: Session.ClientSession, asked: Guild.GuildId) returns (reply: Reply)
      requires Valid()
      modifies guilds
      ensures Valid() && (State(), reply) == LeaveGuild(old(State()), session.id, asked)
    {
      hide ClientOf, Guild.Leave;
      var g := asked;
      if g == 0 {
        if session.id !in guilds.memberIndex {
          return Refused(NotInGuild);
        }
        g := guilds.memberIndex[session.id];
      }
      var ok := guilds.LeaveGuild(g, session.id);
      reply := if ok then GuildChanged else Refused(GuildRefused);
    }

    // ----- One packet -----

    method Arrive(session: Session.ClientSession, version: U16, now: Time)
      requires Valid() && Owns(session)
      modifies session`lastReceive, session`protocolVersion
      ensures Valid() && State() == Receive(old(State()), session.id, version, now)
    {
      Known(session);
      ghost var c := ClientOf(session);
      session.OnReceive(now);
      session.SetProtocolVersion(version);
      assert ClientOf(session) == c.(lastReceive := now, version := version);
      OneMoved(session);
      hide ClientOf, Valid, State;
    }

    method PassReplayCheck(session: Session.ClientSession, stamp: Option<Session.Stamp>) returns (ok: bool)
      requires Valid() && Owns(session)
      modifies session`nonceCache, session`nonceOrder, session`lastSeq
      ensures Valid() && (State(), ok) == Admit(old(State()), session.id, stamp)
    {
      Known(session);
      hide Session.PassGate;
      if stamp.None? {
        return true;
      }
      ghost var c := ClientOf(session);
      ok := session.Admit(stamp.value.seqNo, stamp.value.nonce);
      assert ClientOf(session) == c.(gate := Session.PassGate(c.gate, stamp.value.seqNo, stamp.value.nonce).0);
      OneMoved(session);
      hide ClientOf, Valid, State;
    }

    method UserOf(session: Session.ClientSession) returns (user: Option<Session.UserContext>)
      requires Valid() && Owns(session)
      ensures session.id in State().sessions && user == State().sessions[session.id].user
    {
      user := session.userContext;
    }

    /** The switch over the packet type. */
    method Dispatch(session: Session.ClientSession, r: Request, now: Time) returns (reply: Reply)
      requires Valid() && Owns(session)
      modifies this, sessions.Values`userContext, session`lastSeq, registry, tokens, parties, guilds, matches, instances
      modifies storage, storage.persistent, storage.cache
      ensures Valid()
      ensures (State(), reply) == Handle(old(State()), session.id, r, now)
    {
      hide Valid, State, Login, Logout, Reconnect, Match, Enter, Result, Update, CreateGuild, JoinGuild, LeaveGuild;
      var user := UserOf(session);
      if NeedsUser(r) && user.None? {
        return Refused(Unauthenticated);
      }
      match r
      case LoginReq(name, password, token) => reply := LoginRequest(session, name, password, token, now);
      case LogoutReq => reply := LogoutRequest(session);
      case ReconnectReq(token, lastSeq) => reply := ReconnectRequest(session, token, lastSeq, now);
      case MatchReq(party, first, second) => reply := MatchRequest(session, party, first, second, now);
      case EnterReq(i, ticket, character) => reply := EnterRequest(session, i, ticket, character);
      case ResultReq(cleared, rewards) => reply := ResultNotify(session, cleared, rewards);
      case UpdateReq(character, items) => reply := UpdateNotify(character, items);
      case GuildCreateReq(name) => reply := GuildCreateRequest(session, user.value.user, name);
      case GuildJoinReq(g) => reply := GuildJoinRequest(session, user.value.user, g);
      case GuildLeaveReq(g) => reply := GuildLeaveRequest(session, g);
      case MalformedReq => reply := Refused(MalformedPayload);
    }

    method HandlePacket(session: Session.ClientSession, version: U16, stamp: Option<Session.Stamp>, r: Request, now: Time)
      returns (reply: Reply)
      requires Valid() && Owns(session)
      modifies this, sessions.Values, registry, tokens, parties, guilds, matches, instances
      modifies storage, storage.persistent, storage.cache
      ensures Valid()
      ensures (State(), reply) == Packet(old(State()), session.id, version, stamp, r, now)
    {
      Known(session);
      ServerFrames.PacketIs(State(), session.id, version, stamp, r, now);
      hide Valid, State, Receive, Admit, Handle, Packet;
      Arrive(session, version, now);
      Known(session);
      var ok := PassReplayCheck(session, stamp);
      if !ok {
        return Nothing;
      }
      Known(session);
      reply := Dispatch(session, r, now);
    }

    // ----- The tick -----

    method TickOne(id: SessionId, now: Time) returns (alive: bool)
      requires Valid() && id in sessions
      modifies HeldAt(id)`connected
      ensures Valid() && id in old(State()).sessions && alive == Alive(old(State()).sessions[id], now)
      ensures State() == Ticked(old(State()), {id}, now)
    {
      Known(sessions[id]);
      ghost var before, c := State(), ClientOf(sessions[id]);
      alive := sessions[id].Tick(now);
      assert ClientOf(sessions[id]) == c.(connected := alive);
      OneMoved(sessions[id]);
      hide ClientOf, Valid, State, Ticked;
      TickedOne(before, id, now);
    }

    /** One round of the first loop of tick: `s` is the state before it and `done` the sessions
        ticked so far, of which `before` lists the dead. */
    method TickNext(id: SessionId, now: Time, before: seq<SessionId>, ghost s: Server.State, ghost done: set<SessionId>)
      returns (dead: seq<SessionId>)
      requires Valid() && id in sessions && id in s.sessions && id !in done
      requires State() == Ticked(s, done, now) && Visited(before) == DeadAmong(s, done, now)
      modifies HeldAt(id)`connected
      ensures Valid()
      ensures State() == Ticked(s, done + {id}, now) && Visited(dead) == DeadAmong(s, done + {id}, now)
    {
      hide State, Valid, Alive, DeadAmong, Ticked, Visited;
      OneMoreTicked(s, done, id, before, now);
      var alive := TickOne(id, now);
      dead := if alive then before else before + [id];
    }

    /** The first loop of tick: ticks every session and lists the dead ones. */
    method TickEach(ids: set<SessionId>, now: Time, ghost s: Server.State) returns (dead: seq<SessionId>)
      requires Valid() && State() == s && ids == sessions.Keys && ids == s.sessions.Keys
      modifies sessions.Values`connected
      ensures Valid() && Visited(dead) == DeadAmong(s, ids, now) && State() == Ticked(s, ids, now)
    {
      hide State, Valid, DeadAmong, Ticked, Visited;
      dead := [];
      NobodyTicked(s, now);
      var todo := ids;
      ghost var done: set<SessionId> := {};
      while todo != {}
        invariant Valid() && todo + done == ids && todo !! done
        invariant State() == Ticked(s, done, now) && Visited(dead) == DeadAmong(s, done, now)
        decreases todo
      {
        var id :| id in todo;
        dead := TickNext(id, now, dead, s, done);
        todo, done := todo - {id}, done + {id};
      }
      assert done == ids;
    }

    method CollectDead(now: Time) returns (dead: seq<SessionId>)
      requires Valid()
      modifies sessions.Values`connected
      ensures Valid() && Visited(dead) == DeadAt(old(State()), now)
      ensures State() == Ticked(old(State()), old(State()).sessions.Keys, now)
    {
      assert State().sessions.Keys == sessions.Keys;
      hide *;
      AllTicked(State(), now);
      dead := TickEach(sessions.Keys, now, State());
    }

    /** The second loop of tick. */
    method RemoveDead(dead: seq<SessionId>)
      requires Valid()
      modifies this`sessions, this`playing, this`characters, sessions.Values`userContext, registry, parties, guilds
      ensures Valid() && State() == RemoveEach(old(State()), dead)
    {
      hide Valid, State, RemoveSession;
      assert dead[0..] == dead;
      for k := 0 to |dead|
        invariant Valid() && sessions.Values <= old(sessions.Values)
        invariant RemoveEach(State(), dead[k..]) == RemoveEach(old(State()), dead)
      {
        assert dead[k..][1..] == dead[k + 1..];
        Disconnect(dead[k]);
      }
    }

    method TickAll(now: Time)
      requires Valid() && Core(State())
      modifies this`sessions, this`playing, this`characters, sessions.Values`userContext, sessions.Values`connected
      modifies registry, parties, guilds
      ensures Valid() && State() == Tick(old(State()), now)
    {
      ghost var s := State();
      hide Valid, State, Core, Ticked, RemoveAll, DeadAt, Tick, Visited, RemoveEach;
      var dead := CollectDead(now);
      TickedThenRemoved(s, dead, now);
      RemoveDead(dead);
    }

    lemma Known(session: Session.ClientSession)
      requires Owns(session)
      ensures session.id in State().sessions && State().sessions[session.id] == ClientOf(session)
    {
    }
  }

  /** What FindMatch promises is what FindPair says. */
  lemma FoundIsPair(q: MatchQueue.Queue, now: real, found: Option<(MatchQueue.Candidate, MatchQueue.Candidate)>,
                    rest: MatchQueue.Queue)
    requires found.None? ==> MatchQueue.NoPair(MatchQueue.DEFAULT_RULE, q, now)
    requires found.Some? ==>
      exists i: nat, j: nat ::
        && MatchQueue.FirstPair(MatchQueue.DEFAULT_RULE, q, now, i, j)
        && found.value == (q[i], q[j]) && rest == MatchQueue.RemoveAt(MatchQueue.RemoveAt(q, j), i)
    ensures
      match MatchQueue.FindPair(MatchQueue.DEFAULT_RULE, q, now)
      case None => found == None
      case Some((i, j)) => found == Some((q[i], q[j])) && rest == MatchQueue.RemoveAt(MatchQueue.RemoveAt(q, j), i)
  {
    MatchQueue.FindsWhenThereIs(MatchQueue.DEFAULT_RULE, q, now);
    if found.Some? {
      var i: nat, j: nat :| MatchQueue.FirstPair(MatchQueue.DEFAULT_RULE, q, now, i, j)
        && found.value == (q[i], q[j]) && rest == MatchQueue.RemoveAt(MatchQueue.RemoveAt(q, j), i);
      MatchQueue.FirstPairIsFound(MatchQueue.DEFAULT_RULE, q, now, i, j);
    }
  }

  lemma RefusedKeepsQueue(rule: MatchQueue.Rule, q: MatchQueue.Queue, c: MatchQueue.Candidate)
    ensures !MatchQueue.Enqueue(rule, q, c).1 ==> MatchQueue.Enqueue(rule, q, c).0 == q
  {
  }

  lemma RefusedKeepsInstances(s: Instances.State, i: Instances.InstanceId, to: Instances.Phase, parties: Party.State)
    ensures !Instances.RequestTransition(s, i, to, parties).1 ==> Instances.RequestTransition(s, i, to, parties).0 == s
  {
  }

  lemma BeginAnswers(c: CachedInventory.Cached)
    ensures CachedInventory.CachedStep(c, InventoryStore.BeginTransaction).1 == InventoryStore.Started(c.nextTransaction)
  {
  }

  /** The sessions among `ids` that are timed out are marked as disconnected. */
  function Ticked(s: Server.State, ids: set<SessionId>, now: Time): Server.State {
    s.(sessions := map k | k in s.sessions ::
         s.sessions[k].(connected := s.sessions[k].connected && (k in ids ==> Alive(s.sessions[k], now))))
  }

  function DeadAmong(s: Server.State, ids: set<SessionId>, now: Time): set<SessionId> {
    set id | id in s.sessions && id in ids && !Alive(s.sessions[id], now)
  }

  lemma TickedOne(s: Server.State, id: SessionId, now: Time)
    requires id in s.sessions
    ensures Ticked(s, {id}, now) == SetClient(s, id, s.sessions[id].(connected := Alive(s.sessions[id], now)))
  {
    assert Ticked(s, {id}, now).sessions
        == s.sessions[id := s.sessions[id].(connected := Alive(s.sessions[id], now))];
  }

  lemma NobodyTicked(s: Server.State, now: Time)
    ensures Ticked(s, {}, now) == s && DeadAmong(s, {}, now) == Visited([])
  {
    assert Ticked(s, {}, now).sessions == s.sessions;
  }

  lemma OneMoreTicked(s: Server.State, ids: set<SessionId>, id: SessionId, dead: seq<SessionId>, now: Time)
    requires id in s.sessions && id !in ids && Visited(dead) == DeadAmong(s, ids, now)
    ensures
      var t := Ticked(s, ids, now);
      && id in t.sessions && t.sessions[id] == s.sessions[id]
      && Ticked(t, {id}, now) == Ticked(s, ids + {id}, now)
    ensures DeadAmong(s, ids + {id}, now) == Visited(if Alive(s.sessions[id], now) then dead else dead + [id])
  {
    assert Ticked(Ticked(s, ids, now), {id}, now).sessions == Ticked(s, ids + {id}, now).sessions;
    assert Visited(dead + [id]) == Visited(dead) + {id};
  }

  lemma AllTicked(s: Server.State, now: Time)
    ensures DeadAmong(s, s.sessions.Keys, now) == DeadAt(s, now)
  {
  }

  lemma TickedKeeps(s: Server.State, ids: set<SessionId>, now: Time)
    requires Core(s)
    ensures Core(Ticked(s, ids, now))
  {
    hide Party.Agree, Guild.Agree, InstancesKnown, CachedInventory.Coupled, Registry.Inverse, IndexesLive;
    assert Ticked(s, ids, now).sessions.Keys == s.sessions.Keys;
  }

  /** Those marked are the ones removed, so the marks leave no trace. */
  lemma TickedThenRemoved(s: Server.State, dead: seq<SessionId>, now: Time)
    requires Core(s) && Visited(dead) == DeadAt(s, now)
    ensures RemoveEach(Ticked(s, s.sessions.Keys, now), dead) == Tick(s, now)
  {
    var ticked := Ticked(s, s.sessions.Keys, now);
    TickedKeeps(s, s.sessions.Keys, now);
    assert ticked.sessions - DeadAt(s, now) == s.sessions - DeadAt(s, now);
    hide Core, RemoveEach, Registry.Without, Party.Without, Guild.Without;
    RemoveNobody(ticked);
    RemoveEachFrom(ticked, {}, dead);
    assert {} + Visited(dead) == Visited(dead);
  }

  lemma PutOneMore(m: map<SessionId, Instances.InstanceId>, ids: set<SessionId>, id: SessionId, i: Instances.InstanceId)
    ensures (m + AllAt(ids, i))[id := i] == m + AllAt(ids + {id}, i)
  {
  }

  lemma PreviousUnmoved(s: Server.State, t: Server.State, sid: SessionId, user: string)
    requires t == s.(tokens := t.tokens)
    ensures PreviousSeq(t, sid, user) == PreviousSeq(s, sid, user)
  {
  }
}
