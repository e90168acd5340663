/** A party of two in a dungeon, from the start of the server on: only one of them gets in, and the
    reward is lost for good when the other one reports first, or the one that is in reports a count
    of zero. */
module ServerDungeonRun {
  import opened Common
  import opened Server
  import opened ServerGrants
  import opened ServerEntries
  import ServerFrames
  import ServerInvariant
  import Session
  import Registry
  import Tokens
  import Party
  import Instances
  import Reward

  // ----- Two logged-in sessions -----

  const CONNECT := Connect(10, 0, 0)

  /** A packet without stamp at time 0. */
  function Send(id: SessionId, request: Request): Event {
    Deliver(id, 1, None, request, 0)
  }

  /** The session is live and logged in. */
  predicate Online(s: State, id: SessionId) {
    id in s.sessions && s.sessions[id].user.Some?
  }

  /** Nothing but sessions, logins and tokens has changed since the start. */
  predicate OnlyLogins(s: State) {
    s == START.(nextId := s.nextId, sessions := s.sessions, registry := s.registry, tokens := s.tokens)
  }

  lemma LoginTakes(s: State, id: SessionId, user: string, token: string)
    requires id in s.sessions && user !in s.registry.active && OnlyLogins(s)
    ensures
      var t := Next(s, Send(id, LoginReq(user, PASSWORD, token)));
      && OnlyLogins(t) && Online(t, id) && t.nextId == s.nextId && t.sessions.Keys == s.sessions.Keys
      && (forall k :: Online(s, k) ==> Online(t, k))
      && t.registry.active.Keys <= s.registry.active.Keys + {user}
  {
    var context := Session.UserContext(user, token);
    assert Registry.Register(s.registry, id, context).0.active.Keys <= s.registry.active.Keys + {user};
    ServerFrames.UnstampedIs(s, id, 1, LoginReq(user, PASSWORD, token), 0);
    hide Registry.Register, Tokens.Issue, Next;
  }

  lemma ConnectJoins(s: State)
    requires OnlyLogins(s)
    ensures
      var t := Next(s, CONNECT);
      && OnlyLogins(t) && t.nextId == s.nextId + 1 && t.sessions.Keys == s.sessions.Keys + {s.nextId}
      && t.registry == s.registry
  {
  }

  function Logins(user: string, token: string, user2: string, token2: string): seq<Event> {
    [CONNECT, CONNECT, Send(1, LoginReq(user, PASSWORD, token)), Send(2, LoginReq(user2, PASSWORD, token2))]
  }

  lemma BothLoggedIn(user: string, token: string, user2: string, token2: string) returns (s: State)
    requires user2 != user
    ensures Leads(Logins(user, token, user2, token2), s)
    ensures OnlyLogins(s) && Online(s, 1) && Online(s, 2)
  {
    var login, login2 := Send(1, LoginReq(user, PASSWORD, token)), Send(2, LoginReq(user2, PASSWORD, token2));
    assert OnlyLogins(START) && START.nextId == 1 && START.sessions.Keys == {} && START.registry.active.Keys == {};
    LeadsNowhere();
    var s1 := Next(START, CONNECT);
    ConnectJoins(START);
    hide Leads, Next, OnlyLogins, Online;
    var s2 := Next(s1, CONNECT);
    ConnectJoins(s1);
    LoginTakes(s2, 1, user, token);
    var s3 := Next(s2, login);
    LoginTakes(s3, 2, user2, token2);
    LeadsOn([], START, CONNECT);
    LeadsOn([] + [CONNECT], s1, CONNECT);
    LeadsOn([] + [CONNECT] + [CONNECT], s2, login);
    LeadsOn([] + [CONNECT] + [CONNECT] + [login], s3, login2);
    assert [] + [CONNECT] + [CONNECT] + [login] + [login2] == Logins(user, token, user2, token2);
    s := Next(s3, login2);
  }

  // ----- Their party -----

  function Duo(user: string, user2: string): Party.PartyRecord {
    Party.PartyRecord(1, 1, map[1 := Party.Member(1, user), 2 := Party.Member(2, user2)])
  }

  function Forming(user: string, user2: string): seq<Party.Op> {
    [Party.CreateOp(1, user), Party.InviteOp(1, 1, 2, user2, 0), Party.AcceptOp(1, 2, 0)]
  }

  lemma DuoForms(user: string, user2: string)
    ensures
      var ops := Forming(user, user2);
      var s := Party.Step(Party.Step(Party.Step(Party.EMPTY, ops[0]), ops[1]), ops[2]);
      s.parties == map[1 := Duo(user, user2)]
  {
  }

  lemma DuoMembers(parties: Party.State, user: string, user2: string)
    requires parties.parties == map[1 := Duo(user, user2)]
    ensures MemberSessions(Duo(user, user2)) == {1, 2} && Instances.IsPartyReady(1, parties)
  {
    var members := Duo(user, user2).members;
    assert members[1].session == 1 && members[2].session == 2 && members.Keys == {1, 2};
    assert MemberSessions(Duo(user, user2)) == {1, 2};
  }

  /** Sessions 1 and 2 are online, and party 1 consists of them. */
  ghost predicate InParty(s: State, party: Party.PartyRecord) {
    && Online(s, 1) && Online(s, 2)
    && s.parties.parties == map[1 := party] && MemberSessions(party) == {1, 2} && |party.members| == 2
    && Instances.IsPartyReady(1, s.parties)
  }

  lemma PartyForms(s: State, user: string, user2: string)
    requires OnlyLogins(s) && Online(s, 1) && Online(s, 2)
    ensures
      var ops := Forming(user, user2);
      var t := Next(Next(Next(s, PartyCall(ops[0])), PartyCall(ops[1])), PartyCall(ops[2]));
      InParty(t, Duo(user, user2)) && t == s.(parties := t.parties)
  {
    DuoForms(user, user2);
    hide Party.Step;
    var ops := Forming(user, user2);
    var parties := Party.Step(Party.Step(Party.Step(Party.EMPTY, ops[0]), ops[1]), ops[2]);
    DuoMembers(parties, user, user2);
    assert |Duo(user, user2).members| == 2;
    hide MemberSessions, Instances.IsPartyReady, Duo, Forming;
  }

  // ----- Into the dungeon -----

  /** Both sessions are assigned to instance 1 of party 1, which is in this phase; `inside` have
      characters. */
  ghost predicate InDungeon(s: State, party: Party.PartyRecord, phase: Instances.Phase, inside: set<SessionId>) {
    && InParty(s, party)
    && s.playing == map[1 := 1, 2 := 1] && s.characters.Keys == inside
    && s.instances.instances == map[1 := Instances.InstanceRecord(1, 1, phase)]
  }

  predicate HasTicket(s: State, draw: Draw) {
    1 in s.tickets && s.tickets[1] == draw.ticket
  }

  ghost predicate NothingPlaced(s: State) {
    && s.queue == [] && s.instances == Instances.EMPTY && s.tickets == map[] && s.playing == map[] && s.characters == map[]
  }

  lemma PlaceAssigns(s: State, party: Party.PartyRecord, draw: Draw)
    requires InParty(s, party) && NothingPlaced(s)
    ensures
      var t := Place(s, 1, draw).0;
      InDungeon(t, party, Instances.Waiting, {}) && HasTicket(t, draw)
  {
    assert MemberSessions(party) * s.sessions.Keys == {1, 2};
    hide MemberSessions, Instances.IsPartyReady;
    assert AllAt({1, 2}, 1) == map[1 := 1, 2 := 1];
  }

  lemma MatchPlaces(s: State, party: Party.PartyRecord, draw: Draw)
    requires InParty(s, party) && NothingPlaced(s)
    ensures Handle(s, 1, MatchReq(1, draw, draw), 0).0 == Place(s, 1, draw).0
  {
    ServerInvariant.MatchesAlone(s, 1, 2, draw, draw, 0);
    hide MatchParty, Place, MemberSessions, Instances.IsPartyReady;
  }

  lemma MatchAssigns(s: State, party: Party.PartyRecord, draw: Draw)
    requires InParty(s, party) && NothingPlaced(s)
    ensures
      var t := Next(s, Send(1, MatchReq(1, draw, draw)));
      InDungeon(t, party, Instances.Waiting, {}) && HasTicket(t, draw)
  {
    var received := Receive(s, 1, 1, 0);
    assert InParty(received, party) by { hide MemberSessions, Instances.IsPartyReady; }
    MatchPlaces(received, party, draw);
    PlaceAssigns(received, party, draw);
    ServerFrames.UnstampedIs(s, 1, 1, MatchReq(1, draw, draw), 0);
    hide Next, Step, Receive, Handle, InParty, InDungeon, HasTicket, Place;
  }

  /** The first to ask gets in. */
  lemma FirstGetsIn(s: State, party: Party.PartyRecord, draw: Draw, character: nat)
    requires InDungeon(s, party, Instances.Waiting, {}) && HasTicket(s, draw)
    ensures
      var (t, reply) := Enter(s, 1, 1, draw.ticket, character);
      InDungeon(t, party, Instances.Ready, {1}) && reply.Entered?
  {
    var ready := Instances.RequestTransition(s.instances, 1, Instances.Ready, s.parties);
    assert ready.1 && ready.0.instances == map[1 := Instances.InstanceRecord(1, 1, Instances.Ready)] by {
      hide MemberSessions, Instances.IsPartyReady;
    }
    assert s.playing[1 := 1] == s.playing;
    hide MemberSessions, Instances.IsPartyReady, Instances.RequestTransition, SeedOf;
  }

  lemma RefreshedStays(s: State, party: Party.PartyRecord, phase: Instances.Phase, inside: set<SessionId>, id: SessionId)
    requires InDungeon(s, party, phase, inside) && Online(s, id)
    ensures InDungeon(Receive(s, id, 1, 0), party, phase, inside) && Online(Receive(s, id, 1, 0), id)
  {
    hide MemberSessions, Instances.IsPartyReady;
  }

  /** An entry asked for by a session that is online. */
  lemma EnterSent(s: State, id: SessionId, ticket: string, character: nat)
    requires Online(s, id)
    ensures
      var (received, enter) := (Receive(s, id, 1, 0), Send(id, EnterReq(1, ticket, character)));
      var (t, reply) := Enter(received, id, 1, ticket, character);
      Next(s, enter) == t && Entrance(s, enter) == if reply.Entered? then [1] else []
  {
    ServerFrames.UnstampedIs(s, id, 1, EnterReq(1, ticket, character), 0);
    hide Enter, Step, Next;
  }

  lemma FirstPacket(s: State, party: Party.PartyRecord, draw: Draw, character: nat)
    requires InDungeon(s, party, Instances.Waiting, {}) && HasTicket(s, draw)
    ensures
      var enter := Send(1, EnterReq(1, draw.ticket, character));
      InDungeon(Next(s, enter), party, Instances.Ready, {1}) && Entrance(s, enter) == [1]
  {
    var received := Receive(s, 1, 1, 0);
    RefreshedStays(s, party, Instances.Waiting, {}, 1);
    FirstGetsIn(received, party, draw, character);
    EnterSent(s, 1, draw.ticket, character);
    hide Enter, Next, Entrance, Receive, InDungeon;
  }

  /** The second is turned away, with the right ticket too. */
  lemma SecondPacket(s: State, party: Party.PartyRecord, draw: Draw, character: nat)
    requires InDungeon(s, party, Instances.Ready, {1})
    ensures
      var enter := Send(2, EnterReq(1, draw.ticket, character));
      InDungeon(Next(s, enter), party, Instances.Ready, {1}) && Entrance(s, enter) == []
  {
    var received := Receive(s, 2, 1, 0);
    RefreshedStays(s, party, Instances.Ready, {1}, 2);
    EntersWaiting(received, 2, 1, draw.ticket, character);
    ServerFrames.EnterFrame(received, 2, 1, draw.ticket, character);
    EnterSent(s, 2, draw.ticket, character);
    hide Enter, Next, Entrance, Receive, InParty;
  }

  lemma PlayBegins(s: State, party: Party.PartyRecord)
    requires InDungeon(s, party, Instances.Ready, {1})
    ensures InDungeon(Next(s, RequestTransition(1, Instances.Playing)), party, Instances.Playing, {1})
  {
    hide MemberSessions, Instances.IsPartyReady;
  }

  /** The whole way: two logins, a party, a match, two attempts to enter, and the start. */
  function ToTheDungeon(user: string, token: string, user2: string, token2: string, draw: Draw, character: nat): seq<Event> {
    var ops := Forming(user, user2);
    Logins(user, token, user2, token2) + [PartyCall(ops[0])] + [PartyCall(ops[1])] + [PartyCall(ops[2])]
    + [Send(1, MatchReq(1, draw, draw))] + [Send(1, EnterReq(1, draw.ticket, character))]
    + [Send(2, EnterReq(1, draw.ticket, character))] + [RequestTransition(1, Instances.Playing)]
  }

  lemma PartyOnTheWay(user: string, token: string, user2: string, token2: string) returns (s: State)
    requires user2 != user
    ensures
      var ops := Forming(user, user2);
      Leads(Logins(user, token, user2, token2) + [PartyCall(ops[0])] + [PartyCall(ops[1])] + [PartyCall(ops[2])], s)
    ensures InParty(s, Duo(user, user2)) && NothingPlaced(s)
  {
    var s4 := BothLoggedIn(user, token, user2, token2);
    PartyForms(s4, user, user2);
    assert NothingPlaced(s4);
    var es, ops := Logins(user, token, user2, token2), Forming(user, user2);
    hide Leads, InParty, Logins, Forming, OnlyLogins, Online;
    var s5 := Next(s4, PartyCall(ops[0]));
    var s6 := Next(s5, PartyCall(ops[1]));
    s := Next(s6, PartyCall(ops[2]));
    LeadsOn(es, s4, PartyCall(ops[0]));
    LeadsOn(es + [PartyCall(ops[0])], s5, PartyCall(ops[1]));
    LeadsOn(es + [PartyCall(ops[0])] + [PartyCall(ops[1])], s6, PartyCall(ops[2]));
  }

  lemma FirstEnters(es: seq<Event>, s: State, party: Party.PartyRecord, draw: Draw, character: nat) returns (t: State)
    requires Leads(es, s) && InParty(s, party) && NothingPlaced(s)
    ensures Leads(es + [Send(1, MatchReq(1, draw, draw))] + [Send(1, EnterReq(1, draw.ticket, character))], t)
    ensures InDungeon(t, party, Instances.Ready, {1})
  {
    var match1, enter := Send(1, MatchReq(1, draw, draw)), Send(1, EnterReq(1, draw.ticket, character));
    assert Enabled(s, match1);
    MatchAssigns(s, party, draw);
    var s8 := Next(s, match1);
    assert Enabled(s8, enter);
    hide Leads, Next, HasTicket, InDungeon, InParty, NothingPlaced;
    FirstPacket(s8, party, draw, character);
    t := Next(s8, enter);
    LeadsOn(es, s, match1);
    LeadsOn(es + [match1], s8, enter);
  }

  lemma SecondStaysOut(es: seq<Event>, s: State, party: Party.PartyRecord, draw: Draw, character: nat) returns (t: State)
    requires Leads(es, s) && InDungeon(s, party, Instances.Ready, {1})
    ensures Leads(es + [Send(2, EnterReq(1, draw.ticket, character))] + [RequestTransition(1, Instances.Playing)], t)
    ensures InDungeon(t, party, Instances.Playing, {1})
  {
    var enter2, play := Send(2, EnterReq(1, draw.ticket, character)), RequestTransition(1, Instances.Playing);
    assert Enabled(s, enter2);
    hide Leads, Next, InDungeon;
    SecondPacket(s, party, draw, character);
    var s10 := Next(s, enter2);
    PlayBegins(s10, party);
    t := Next(s10, play);
    LeadsOn(es, s, enter2);
    LeadsOn(es + [enter2], s10, play);
  }

  lemma PlaysInTheDungeon(user: string, token: string, user2: string, token2: string, draw: Draw, character: nat)
    returns (s: State)
    requires user2 != user
    ensures Leads(ToTheDungeon(user, token, user2, token2, draw, character), s)
    ensures InDungeon(s, Duo(user, user2), Instances.Playing, {1})
  {
    var ops := Forming(user, user2);
    var es := Logins(user, token, user2, token2) + [PartyCall(ops[0])] + [PartyCall(ops[1])] + [PartyCall(ops[2])];
    var s7 := PartyOnTheWay(user, token, user2, token2);
    hide Leads, Logins, Forming, NothingPlaced, Duo, InDungeon, InParty;
    var s9 := FirstEnters(es, s7, Duo(user, user2), draw, character);
    s := SecondStaysOut(es + [Send(1, MatchReq(1, draw, draw))] + [Send(1, EnterReq(1, draw.ticket, character))], s9,
                        Duo(user, user2), draw, character);
  }

  // ----- The result -----

  /** This session reports the dungeon cleared with `quantity` of one item. */
  function ClearedWith(id: SessionId, item: Reward.ItemId, quantity: U32): Event {
    Send(id, ResultReq(true, [Reward.RewardItem(item, quantity)]))
  }

  lemma ReadyToReport(s: State, party: Party.PartyRecord, id: SessionId)
    requires InDungeon(s, party, Instances.Playing, {1}) && id in {1, 2}
    ensures Online(s, id) && IsPlaying(s, id) && s.playing[id] == 1 && (id in s.characters <==> id == 1)
    ensures Admit(Receive(s, id, 1, 0), id, None).1
  {
    hide MemberSessions, Instances.IsPartyReady;
  }

  lemma PayableByCount(s: State, id: SessionId, item: Reward.ItemId, quantity: U32)
    requires quantity <= REWARD_CAPACITY
    ensures Payable(s, id, [Reward.RewardItem(item, quantity)]) <==> id in s.characters && quantity > 0
  {
    var rewards := [Reward.RewardItem(item, quantity)];
    assert rewards[1..] == [] && Reward.SumAll([]) == 0 && rewards[0] in rewards;
  }

  lemma FirstReportDecides(s: State, party: Party.PartyRecord, id: SessionId, item: Reward.ItemId, quantity: U32)
    requires GrantsOk(s) && InDungeon(s, party, Instances.Playing, {1}) && id in {1, 2} && quantity <= REWARD_CAPACITY
    ensures
      var e := ClearedWith(id, item, quantity);
      && Enabled(s, e) && Paid(s, e) == (if id == 1 && quantity > 0 then [1] else [])
      && 1 in Next(s, e).instances.instances && Over(Next(s, e).instances.instances[1].phase)
  {
    var rewards := [Reward.RewardItem(item, quantity)];
    ReadyToReport(s, party, id);
    PayableByCount(s, id, item, quantity);
    hide InDungeon, Payable, GrantsOk, Admit, Receive;
    ResultPacket(s, id, 1, None, true, rewards, 0);
    PaidIs(s, id, 1, None, ResultReq(true, rewards), 0);
    hide Next, Paid, Packet;
  }

  lemma NeverPaidAfter(s: State, party: Party.PartyRecord, id: SessionId, item: Reward.ItemId, quantity: U32)
    requires GrantsOk(s) && InDungeon(s, party, Instances.Playing, {1}) && id in {1, 2} && quantity <= REWARD_CAPACITY
    ensures
      var e := ClearedWith(id, item, quantity);
      Enabled(s, e) && forall es :: Runs(Next(s, e), es) ==> 1 !in AllPaid(Next(s, e), es)
  {
    FirstReportDecides(s, party, id, item, quantity);
    var e := ClearedWith(id, item, quantity);
    hide InDungeon, ClearedWith, Paid, Over, GrantsOk, Next;
    StepGrants(s, e);
    forall es | Runs(Next(s, e), es) ensures 1 !in AllPaid(Next(s, e), es) {
      OverIsNeverPaid(Next(s, e), es, 1);
    }
  }

  /** Session 1 has got in and session 2 has not. Now the first report decides for good: of session 1
      with a count of one it is paid for; of session 1 with a count of zero, or of session 2 with a
      count of one, it is not, and after it the instance is not paid for in any run. */
  lemma LosesTheReward(user: string, token: string, user2: string, token2: string, draw: Draw, character: nat,
                       item: Reward.ItemId)
    returns (s: State)
    requires user2 != user
    ensures Leads(ToTheDungeon(user, token, user2, token2, draw, character), s)
    ensures InDungeon(s, Duo(user, user2), Instances.Playing, {1})
    ensures Enabled(s, ClearedWith(1, item, 1)) && Paid(s, ClearedWith(1, item, 1)) == [1]
    ensures forall e | e in {ClearedWith(1, item, 0), ClearedWith(2, item, 1)} ::
              Enabled(s, e) && Paid(s, e) == [] && forall es :: Runs(Next(s, e), es) ==> 1 !in AllPaid(Next(s, e), es)
  {
    s := PlaysInTheDungeon(user, token, user2, token2, draw, character);
    var party := Duo(user, user2);
    RunPays(START, ToTheDungeon(user, token, user2, token2, draw, character));
    hide GrantsOk, InDungeon, ToTheDungeon, ClearedWith, Next, Paid, Over, Duo;
    FirstReportDecides(s, party, 1, item, 1);
    FirstReportDecides(s, party, 1, item, 0);
    FirstReportDecides(s, party, 2, item, 1);
    NeverPaidAfter(s, party, 1, item, 0);
    NeverPaidAfter(s, party, 2, item, 1);
  }
}
