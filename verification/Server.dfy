/** The server of src/net/server.cpp as a machine of serial steps over its sessions, the session
    registry, tokens, parties, guilds, matchmaking, dungeon instances and the inventory store.

    `State` holds what the fields of the source's `Server` hold; each function is one public call
    or the handling of one packet type, with the source's order of checks. Frames sent to other
    sessions, log lines, metrics and message texts are left out. */
module Server {
  import opened Common
  import Session
  import Registry
  import Tokens
  import Party
  import Guild
  import Instances
  import MatchQueue
  import Reward
  import InventoryStore
  import CachedInventory

  /** What the server reads and writes of one session. */
  datatype Client = Client(
    user: Option<Session.UserContext>,
    gate: Session.Gate,
    connected: bool,
    lastReceive: Time,
    timeout: Time,
    version: U16)

  datatype State = State(
    nextId: nat,
    sessions: map<SessionId, Client>,
    registry: Registry.State,
    tokens: Tokens.State,
    parties: Party.State,
    guilds: Guild.State,
    queue: MatchQueue.Queue,
    instances: Instances.State,
    storage: CachedInventory.Cached,
    partyInstances: map<Party.PartyId, Instances.InstanceId>,
    tickets: map<Instances.InstanceId, string>,
    seeds: map<Instances.InstanceId, U32>,
    grants: map<Instances.InstanceId, Reward.GrantId>,
    nextGrant: nat,
    playing: map<SessionId, Instances.InstanceId>,
    characters: map<SessionId, nat>)

  const START: State := State(1, map[], Registry.EMPTY, map[], Party.EMPTY, Guild.EMPTY, [], Instances.EMPTY,
                              CachedInventory.EMPTY_CACHED, map[], map[], map[], map[], 1, map[], map[])

  const PASSWORD := "letmein"
  const REWARD_CAPACITY: nat := 100

  datatype Code =
    | MalformedPayload
    | InvalidCredentials
    | AlreadyLoggedIn
    | AlreadyLoggedInLate
    | InvalidToken
    | Unauthenticated
    | NoParty
    | PartyNotFound
    | NotPartyMember
    | QueueRejected
    | InstanceFailed
    | MatchNotFound
    | InstanceNotFound
    | InvalidTicket
    | InvalidState
    | NoInstance
    | RewardDuplicate
    | RewardFailed
    | CharNotSet
    | InventoryFailed
    | NotInGuild
    | GuildRefused

  datatype Reply =
    | Nothing
    | VersionRejected(min: U16, max: U16, client: U16)
    | Refused(code: Code)
    | LoggedIn(token: string)
    | LoggedOut
    | Reconnected(session: SessionId, resumeFrom: U32)
    | Matched(party: Party.PartyId, instance: Instances.InstanceId, ticket: string)
    | Entered(seed: U32)
    | Recorded
    | Updated(ok: bool, version: nat)
    | GuildCreated(guild: Guild.GuildId)
    | GuildChanged

  /** The random ticket and seed of a new instance. */
  datatype Draw = Draw(ticket: string, seed: U32)

  type Items = seq<Reward.RewardItem>

  datatype Request =
    | LoginReq(user: string, password: string, token: string)
    | LogoutReq
    | ReconnectReq(token: string, lastSeq: U32)
    | MatchReq(party: Party.PartyId, first: Draw, second: Draw)
    | EnterReq(instance: Instances.InstanceId, ticket: string, character: nat)
    | ResultReq(cleared: bool, rewards: Items)
    | UpdateReq(character: nat, items: Items)
    | GuildCreateReq(name: string)
    | GuildJoinReq(guild: Guild.GuildId)
    | GuildLeaveReq(guild: Guild.GuildId)
    | MalformedReq

  // ----- Sessions come and go -----

  function CreateSession(s: State, timeout: Time, nonceLimit: nat, now: Time): State {
    var client := Client(None, Session.Gate(0, [], nonceLimit), true, now, timeout, 0);
    s.(nextId := s.nextId + 1, sessions := s.sessions[s.nextId := client])
  }

  function RemoveSession(s: State, id: SessionId): State {
    s.(sessions := s.sessions - {id},
       registry := Registry.Remove(s.registry, id),
       parties := Party.RemoveMember(s.parties, id).0,
       guilds := Guild.RemoveMember(s.guilds, id).0,
       playing := s.playing - {id},
       characters := s.characters - {id})
  }

  predicate Alive(c: Client, now: Time) {
    c.connected && now - c.lastReceive < c.timeout
  }

  function DeadAt(s: State, now: Time): set<SessionId> {
    set id | id in s.sessions && !Alive(s.sessions[id], now)
  }

  /** The server without the sessions `dead`, all gone at once. */
  function RemoveAll(s: State, dead: set<SessionId>): State {
    s.(sessions := s.sessions - dead,
       registry := Registry.Without(s.registry, dead),
       parties := Party.Without(s.parties, dead),
       guilds := Guild.Without(s.guilds, dead),
       playing := s.playing - dead,
       characters := s.characters - dead)
  }

  function Tick(s: State, now: Time): State {
    RemoveAll(s, DeadAt(s, now))
  }

  // ----- Before a packet is dispatched -----

  function SetClient(s: State, sid: SessionId, c: Client): State {
    s.(sessions := s.sessions[sid := c])
  }

  /** Every packet refreshes its session's clock and leaves its protocol version on the session,
      also one that is dropped or rejected right after. */
  function Receive(s: State, sid: SessionId, version: U16, now: Time): State
    requires sid in s.sessions
  {
    SetClient(s, sid, s.sessions[sid].(lastReceive := now, version := version))
  }

  /** The replay check, made only under replay protection, when packets carry a stamp. */
  function Admit(s: State, sid: SessionId, stamp: Option<Session.Stamp>): (State, bool)
    requires sid in s.sessions
  {
    match stamp
    case None => (s, true)
    case Some(st) =>
      var (gate, ok) := Session.PassGate(s.sessions[sid].gate, st.seqNo, st.nonce);
      (SetClient(s, sid, s.sessions[sid].(gate := gate)), ok)
  }

  // ----- Login, logout, reconnect -----

  function Attach(s: State, sid: SessionId, user: Option<Session.UserContext>): State
    requires sid in s.sessions
  {
    SetClient(s, sid, s.sessions[sid].(user := user))
  }

  function SetSeq(s: State, sid: SessionId, n: U64): State
    requires sid in s.sessions
  {
    var c := s.sessions[sid];
    SetClient(s, sid, c.(gate := c.gate.(lastSeq := n)))
  }

  predicate TakenElsewhere(s: State, sid: SessionId, user: string) {
    user in s.registry.active && s.registry.active[user] != sid
  }

  function Login(s: State, sid: SessionId, user: string, password: string, token: string, now: Time): (State, Reply)
    requires sid in s.sessions
  {
    if password != PASSWORD then (s, Refused(InvalidCredentials))
    else if TakenElsewhere(s, sid, user) then (s, Refused(AlreadyLoggedIn))
    else
      var context := Session.UserContext(user, token);
      var issued := Attach(s.(tokens := Tokens.Issue(s.tokens, user, token, now)), sid, Some(context));
      var (registry, ok) := Registry.Register(s.registry, sid, context);
      (issued.(registry := registry), if ok then LoggedIn(token) else Refused(AlreadyLoggedInLate))
  }

  function Logout(s: State, sid: SessionId): (State, Reply)
    requires sid in s.sessions
  {
    (Attach(s, sid, None).(registry := Registry.Remove(s.registry, sid)), LoggedOut)
  }

  /** The entry of `from` becomes the entry of `to`, over any it already has. */
  function Move<V>(m: map<SessionId, V>, from: SessionId, to: SessionId): map<SessionId, V> {
    if from in m then m[to := m[from]] - {from} else m
  }

  /** Session `to` inherits party, guild, instance and character of `from`, which is dropped. */
  function TakeOver(s: State, from: SessionId, to: SessionId): State {
    s.(parties := Party.ReplaceMember(s.parties, from, to).0,
       guilds := Guild.ReplaceMember(s.guilds, from, to).0,
       playing := Move(s.playing, from, to),
       characters := Move(s.characters, from, to),
       sessions := s.sessions - {from})
  }

  function Displace(s: State, sid: SessionId, user: string): State {
    if TakenElsewhere(s, sid, user) then
      var existing := s.registry.active[user];
      var taken := if existing in s.sessions then TakeOver(s, existing, sid) else s;
      taken.(registry := Registry.Remove(s.registry, existing))
    else s
  }

  function PreviousSeq(s: State, sid: SessionId, user: string): U64 {
    if TakenElsewhere(s, sid, user) && s.registry.active[user] in s.sessions
    then s.sessions[s.registry.active[user]].gate.lastSeq
    else 0
  }

  /** The sequence number a reconnected session goes on from. */
  function Restored(client: U32, previous: U64): U64 {
    Max(client, previous)
  }

  function ResumeFrom(restored: U64): U32 {
    (restored + 1) % U32_SIZE
  }

  function Reconnect(s: State, sid: SessionId, token: string, lastSeq: U32, now: Time): (State, Reply)
    requires sid in s.sessions
  {
    var (tokens, user) := Tokens.Validate(s.tokens, token, now);
    var checked := s.(tokens := tokens);
    match user
    case None => (checked, Refused(InvalidToken))
    case Some(u) =>
      var context := Session.UserContext(u, token);
      var attached := Attach(Displace(checked, sid, u), sid, Some(context));
      var (registry, ok) := Registry.Register(attached.registry, sid, context);
      var registered := attached.(registry := registry);
      if !ok then (registered, Refused(AlreadyLoggedInLate))
      else
        var restored := Restored(lastSeq, PreviousSeq(s, sid, u));
        (SetSeq(registered, sid, restored), Reconnected(sid, ResumeFrom(restored)))
  }

  // ----- Matchmaking -----

  function MemberSessions(party: Party.PartyRecord): set<SessionId> {
    set k | k in party.members :: party.members[k].session
  }

  /** The matchmaker's clock counts seconds. */
  function Seconds(now: Time): real {
    now as real / 1000.0
  }

  function AllAt(ids: set<SessionId>, i: Instances.InstanceId): map<SessionId, Instances.InstanceId> {
    map k | k in ids :: i
  }

  /** One matched party gets a new instance, ticket and seed, and its live members are put in. */
  function Place(s: State, p: Party.PartyId, draw: Draw): (State, Option<Instances.InstanceId>) {
    var (instances, created) := Instances.Create(s.instances, p, s.parties);
    match created
    case None => (s.(instances := instances), None)
    case Some(i) =>
      var live := if p in s.parties.parties then MemberSessions(s.parties.parties[p]) * s.sessions.Keys else {};
      (s.(instances := instances,
          partyInstances := s.partyInstances[p := i],
          tickets := s.tickets[i := draw.ticket],
          seeds := s.seeds[i := draw.seed],
          playing := s.playing + AllAt(live, i)), created)
  }

  /** The matched parties are placed in order; the last placement of the asking party answers. */
  function PlaceAll(s: State, asking: Party.PartyId, ps: seq<(Party.PartyId, Draw)>, reply: Reply): (State, Reply)
    decreases |ps|
  {
    if ps == [] then (s, reply)
    else
      var (p, draw) := ps[0];
      var (placed, created) := Place(s, p, draw);
      if created.None? then (placed, Refused(InstanceFailed))
      else
        PlaceAll(placed, asking, ps[1..], if p == asking then Matched(p, created.value, draw.ticket) else reply)
  }

  /** Queues the party, takes a pair out if there is one, and otherwise takes the party out again
      and matches it with itself. */
  ghost function MatchParty(s: State, p: Party.PartyId, size: nat, first: Draw, second: Draw, now: Time): (State, Reply) {
    var rule := MatchQueue.DEFAULT_RULE;
    var (queued, ok) := MatchQueue.Enqueue(rule, s.queue, MatchQueue.Candidate(p, 0, size, Seconds(now)));
    if !ok then (s, Refused(QueueRejected))
    else
      match MatchQueue.FindPair(rule, queued, Seconds(now))
      case None =>
        PlaceAll(s.(queue := MatchQueue.Cancel(queued, p).0), p, [(p, first)], Refused(MatchNotFound))
      case Some((i, j)) =>
        var rest := MatchQueue.RemoveAt(MatchQueue.RemoveAt(queued, j), i);
        PlaceAll(s.(queue := rest), p, [(queued[i].party, first), (queued[j].party, second)], Refused(MatchNotFound))
  }

  ghost function Match(s: State, sid: SessionId, asked: Party.PartyId, first: Draw, second: Draw, now: Time): (State, Reply) {
    if asked == 0 && sid !in s.parties.index then (s, Refused(NoParty))
    else
      var p := if asked == 0 then s.parties.index[sid] else asked;
      if p !in s.parties.parties then (s, Refused(PartyNotFound))
      else
        var party := s.parties.parties[p];
        if sid !in MemberSessions(party) then (s, Refused(NotPartyMember))
        else MatchParty(s, p, |party.members|, first, second, now)
  }

  // ----- Dungeons -----

  function SeedOf(s: State, i: Instances.InstanceId): U32 {
    if i in s.seeds then s.seeds[i] else 0
  }

  function Enter(s: State, sid: SessionId, i: Instances.InstanceId, ticket: string, character: nat): (State, Reply) {
    if i !in s.instances.instances then (s, Refused(InstanceNotFound))
    else if i !in s.tickets || s.tickets[i] != ticket then (s, Refused(InvalidTicket))
    else
      var p := s.instances.instances[i].party;
      if p !in s.parties.parties then (s, Refused(PartyNotFound))
      else if sid !in MemberSessions(s.parties.parties[p]) then (s, Refused(NotPartyMember))
      else
        var (instances, ok) := Instances.RequestTransition(s.instances, i, Instances.Ready, s.parties);
        if !ok then (s, Refused(InvalidState))
        else
          (s.(instances := instances,
              seeds := s.seeds[i := SeedOf(s, i)],
              characters := s.characters[sid := character],
              playing := s.playing[sid := i]), Entered(SeedOf(s, i)))
  }

  /** Adds the lines one by one until one is refused. */
  function AddAll(c: CachedInventory.Cached, inventory: nat, items: Items, reason: string): (CachedInventory.Cached, bool)
    decreases |items|
  {
    if items == [] then (c, true)
    else
      var add := InventoryStore.AddItem(inventory, items[0].item, items[0].quantity, reason);
      var (next, reply) := CachedInventory.CachedStep(c, add);
      if reply != InventoryStore.Answer(true) then (next, false) else AddAll(next, inventory, items[1..], reason)
  }

  /** All lines in one transaction: committed if every one was added, rolled back otherwise. */
  function Deposit(c: CachedInventory.Cached, inventory: nat, items: Items, reason: string): (CachedInventory.Cached, bool) {
    var t := c.nextTransaction;
    var (added, ok) := AddAll(CachedInventory.CachedStep(c, InventoryStore.BeginTransaction).0, inventory, items, reason);
    var finish := if ok then InventoryStore.CommitTransaction(t) else InventoryStore.RollbackTransaction(t);
    (CachedInventory.CachedStep(added, finish).0, ok)
  }

  /** The rewards of a dungeon run whose transition was granted: counted into a new reward
      inventory first, then stored. */
  ghost function PayOut(s: State, i: Instances.InstanceId, character: nat, rewards: Items): (State, Reply) {
    var id := s.nextGrant;
    var counted := s.(nextGrant := id + 1);
    var result := Reward.Grant(Reward.State(REWARD_CAPACITY, map[], map[]), id, rewards).1;
    if result != Reward.GrantCompleted then
      (counted, Refused(if result == Reward.GrantDuplicate then RewardDuplicate else RewardFailed))
    else
      var (storage, ok) := Deposit(s.storage, character, rewards, "dungeon_reward");
      if !ok then (counted.(storage := storage), Refused(InventoryFailed))
      else (counted.(storage := storage, grants := s.grants[i := id]), Recorded)
  }

  /** What paying out changes, and what it answers. */
  lemma PayOutShape(s: State, i: Instances.InstanceId, character: nat, rewards: Items)
    ensures
      var (t, reply) := PayOut(s, i, character, rewards);
      var result := Reward.Grant(Reward.State(REWARD_CAPACITY, map[], map[]), s.nextGrant, rewards).1;
      var (storage, ok) := Deposit(s.storage, character, rewards, "dungeon_reward");
      && t == s.(storage := if result == Reward.GrantCompleted then storage else s.storage,
                 nextGrant := s.nextGrant + 1,
                 grants := if reply == Recorded then s.grants[i := s.nextGrant] else s.grants)
      && reply == if result == Reward.GrantDuplicate then Refused(RewardDuplicate)
                  else if result == Reward.GrantFailed then Refused(RewardFailed)
                  else if ok then Recorded else Refused(InventoryFailed)
  {
    hide Deposit, Reward.Grant;
  }

  /** Ends the instance and pays the session's character. */
  ghost function Conclude(s: State, sid: SessionId, i: Instances.InstanceId, to: Instances.Phase, rewards: Items)
    : (State, Reply)
  {
    var (instances, ok) := Instances.RequestTransition(s.instances, i, to, s.parties);
    if !ok then (s, Refused(InvalidState))
    else
      var ended := s.(instances := instances);
      if sid !in s.characters then (ended, Refused(CharNotSet))
      else PayOut(ended, i, s.characters[sid], rewards)
  }

  ghost function Result(s: State, sid: SessionId, cleared: bool, rewards: Items): (State, Reply) {
    if sid !in s.playing then (s, Refused(NoInstance))
    else
      var i := s.playing[sid];
      if i !in s.instances.instances then (s, Refused(InstanceNotFound))
      else if i in s.grants then (s, Refused(RewardDuplicate))
      else Conclude(s, sid, i, if cleared then Instances.Clear else Instances.Fail, rewards)
  }

  function Update(s: State, character: nat, items: Items): (State, Reply) {
    var (storage, ok) := Deposit(s.storage, character, items, "inventory_update");
    (s.(storage := storage), Updated(ok, |InventoryStore.LogOf(storage.persistent.live, character)|))
  }

  // ----- Guilds -----

  function CreateGuild(s: State, sid: SessionId, user: string, name: string): (State, Reply) {
    var (guilds, created) := Guild.Create(s.guilds, sid, user, name);
    (s.(guilds := guilds), if created.Some? then GuildCreated(created.value) else Refused(GuildRefused))
  }

  function JoinGuild(s: State, sid: SessionId, user: string, g: Guild.GuildId): (State, Reply) {
    var (guilds, ok) := Guild.Join(s.guilds, g, sid, user);
    (s.(guilds := guilds), if ok then GuildChanged else Refused(GuildRefused))
  }

  function LeaveGuild(s: State, sid: SessionId, asked: Guild.GuildId): (State, Reply) {
    if asked == 0 && sid !in s.guilds.index then (s, Refused(NotInGuild))
    else
      var (guilds, ok) := Guild.Leave(s.guilds, if asked == 0 then s.guilds.index[sid] else asked, sid);
      (s.(guilds := guilds), if ok then GuildChanged else Refused(GuildRefused))
  }

  // ----- One packet -----

  predicate NeedsUser(r: Request) {
    !(r.LoginReq? || r.LogoutReq? || r.ReconnectReq? || r.MalformedReq?)
  }

  ghost function Handle(s: State, sid: SessionId, r: Request, now: Time): (State, Reply)
    requires sid in s.sessions
  {
    if NeedsUser(r) && s.sessions[sid].user.None? then (s, Refused(Unauthenticated))
    else
      match r
      case LoginReq(user, password, token) => Login(s, sid, user, password, token, now)
      case LogoutReq => Logout(s, sid)
      case ReconnectReq(token, lastSeq) => Reconnect(s, sid, token, lastSeq, now)
      case MatchReq(party, first, second) => Match(s, sid, party, first, second, now)
      case EnterReq(i, ticket, character) => Enter(s, sid, i, ticket, character)
      case ResultReq(cleared, rewards) => Result(s, sid, cleared, rewards)
      case UpdateReq(character, items) => Update(s, character, items)
      case GuildCreateReq(name) => CreateGuild(s, sid, s.sessions[sid].user.value.user, name)
      case GuildJoinReq(g) => JoinGuild(s, sid, s.sessions[sid].user.value.user, g)
      case GuildLeaveReq(g) => LeaveGuild(s, sid, g)
      case MalformedReq => (s, Refused(MalformedPayload))
  }

  ghost function Packet(s: State, sid: SessionId, version: U16, stamp: Option<Session.Stamp>, r: Request, now: Time)
    : (State, Reply)
    requires sid in s.sessions
  {
    var (admitted, ok) := Admit(Receive(s, sid, version, now), sid, stamp);
    if !ok then (admitted, Nothing) else Handle(admitted, sid, r, now)
  }

  // ----- Runs -----

  /** What can happen to the server: its own calls, packets, and the calls others make on the
      party service and the instance manager it hands out. */
  datatype Event =
    | Connect(timeout: Time, nonceLimit: nat, now: Time)
    | Remove(id: SessionId)
    | TickAt(now: Time)
    | LoseConnection(id: SessionId)
    | Drop(id: SessionId, version: U16, now: Time)
    | Deliver(id: SessionId, version: U16, stamp: Option<Session.Stamp>, request: Request, now: Time)
    | PartyCall(op: Party.Op)
    | CreateInstance(p: Party.PartyId)
    | TerminateInstance(i: Instances.InstanceId)
    | RequestTransition(i: Instances.InstanceId, to: Instances.Phase)

  /** Packets and connection losses come from live sessions. */
  predicate Enabled(s: State, e: Event) {
    match e
    case LoseConnection(id) => id in s.sessions
    case Drop(id, _, _) => id in s.sessions
    case Deliver(id, _, _, _, _) => id in s.sessions
    case _ => true
  }

  ghost function Step(s: State, e: Event): (State, Reply)
    requires Enabled(s, e)
  {
    match e
    case Connect(timeout, nonceLimit, now) => (CreateSession(s, timeout, nonceLimit, now), Nothing)
    case Remove(id) => (RemoveSession(s, id), Nothing)
    case TickAt(now) => (Tick(s, now), Nothing)
    case LoseConnection(id) => (SetClient(s, id, s.sessions[id].(connected := false)), Nothing)
    case Drop(id, version, now) => (Receive(s, id, version, now), Nothing)
    case Deliver(id, version, stamp, request, now) => Packet(s, id, version, stamp, request, now)
    case PartyCall(op) => (s.(parties := Party.Step(s.parties, op)), Nothing)
    case CreateInstance(p) => (s.(instances := Instances.Create(s.instances, p, s.parties).0), Nothing)
    case TerminateInstance(i) => (s.(instances := Instances.TerminateInstance(s.instances, i).0), Nothing)
    case RequestTransition(i, to) =>
      (s.(instances := Instances.RequestTransition(s.instances, i, to, s.parties).0), Nothing)
  }

  ghost function Next(s: State, e: Event): State
    requires Enabled(s, e)
  {
    Step(s, e).0
  }

  ghost predicate Runs(s: State, es: seq<Event>)
    decreases |es|
  {
    es != [] ==> Enabled(s, es[0]) && Runs(Next(s, es[0]), es[1..])
  }

  ghost function After(s: State, es: seq<Event>): State
    requires Runs(s, es)
    decreases |es|
  {
    if es == [] then s else After(Next(s, es[0]), es[1..])
  }

  /** The events can happen from the start, and lead to `s`. */
  ghost predicate Leads(es: seq<Event>, s: State) {
    Runs(START, es) && After(START, es) == s
  }

  lemma {:induction false} RunsSnoc(s: State, es: seq<Event>, e: Event)
    requires Runs(s, es) && Enabled(After(s, es), e)
    ensures Runs(s, es + [e]) && After(s, es + [e]) == Next(After(s, es), e)
    decreases |es|
  {
    hide Next, Enabled;
    if es == [] {
      assert [] + [e] == [e] && [e][1..] == [];
      assert Runs(Next(s, e), []) && After(Next(s, e), []) == Next(s, e);
    } else {
      assert (es + [e])[1..] == es[1..] + [e];
      RunsSnoc(Next(s, es[0]), es[1..], e);
    }
  }

  lemma LeadsOn(es: seq<Event>, s: State, e: Event)
    requires Leads(es, s) && Enabled(s, e)
    ensures Leads(es + [e], Next(s, e))
  {
    RunsSnoc(START, es, e);
    hide Runs, After, Next, Enabled;
  }

  lemma LeadsNowhere()
    ensures Leads([], START)
  {
  }
}
