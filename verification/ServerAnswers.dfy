/** What each packet, request and call is answered and what it changes, said in the server's maps and
    the constants of the source rather than through the parts its handlers are made of.

    Main results: which refusal each request gets, in the source's order of checks, and that every
    refusal but a late one leaves the server as it was; an entry answers the seed that was drawn when
    its instance was placed, whatever happens in between. */
module ServerAnswers {
  import opened Common
  import opened Server
  import ServerFrames
  import ServerInvariant
  import Session
  import Registry
  import Tokens
  import Party
  import Guild
  import Instances
  import MatchQueue
  import Reward

  // ----- One packet -----

  /** A packet is handled exactly if it has no stamp, or one with a number above the session's last
      and a nonce outside its window. Clock and version are stored in any case, the stamp's number
      only then. */
  lemma PacketExactly(s: State, sid: SessionId, v: U16, stamp: Option<Session.Stamp>, r: Request, now: Time)
    returns (u: State)
    requires sid in s.sessions
    ensures
      var c := s.sessions[sid];
      var passes := stamp.Some? ==> c.gate.lastSeq < stamp.value.seqNo && stamp.value.nonce !in c.gate.window;
      && sid in u.sessions && u == s.(sessions := s.sessions[sid := u.sessions[sid]])
      && u.sessions[sid] == c.(lastReceive := now, version := v, gate := u.sessions[sid].gate)
      && (stamp.Some? && passes ==> u.sessions[sid].gate.lastSeq == stamp.value.seqNo)
      && (stamp.None? || !passes ==> u.sessions[sid].gate == c.gate)
      && Packet(s, sid, v, stamp, r, now) == if passes then Handle(u, sid, r, now) else (u, Nothing)
  {
    var c := s.sessions[sid].(lastReceive := now, version := v);
    if stamp.Some? {
      var (gate, ok) := Session.PassGate(c.gate, stamp.value.seqNo, stamp.value.nonce);
      Session.PassesExactly(c.gate, stamp.value.seqNo, stamp.value.nonce);
      ServerFrames.AdmitIs(s, sid, v, stamp.value, now);
      u := s.(sessions := s.sessions[sid := c.(gate := gate)]);
    } else {
      u := s.(sessions := s.sessions[sid := c]);
    }
    ServerFrames.PacketIs(s, sid, v, stamp, r, now);
    hide Session.PassGate, Handle, Packet;
  }

  // ----- Who is refused for not being logged in -----

  predicate Ordinary(reply: Reply) {
    !reply.VersionRejected? && reply != Refused(Unauthenticated)
  }

  /** A placement loop answers what it was given to answer, the asking party's match, or that an
      instance failed. */
  lemma {:induction false} PlaceAllAnswers(s: State, asking: Party.PartyId, ps: seq<(Party.PartyId, Draw)>, reply: Reply)
    ensures
      var answer := PlaceAll(s, asking, ps, reply).1;
      answer == reply || (answer.Matched? && answer.party == asking) || answer == Refused(InstanceFailed)
    decreases |ps|
  {
    hide Place;
    if ps != [] {
      var (placed, created) := Place(s, ps[0].0, ps[0].1);
      if created.Some? {
        PlaceAllAnswers(placed, asking, ps[1..],
                        if ps[0].0 == asking then Matched(ps[0].0, created.value, ps[0].1.ticket) else reply);
      }
    }
  }

  lemma MatchAnswers(s: State, sid: SessionId, asked: Party.PartyId, first: Draw, second: Draw, now: Time)
    ensures Ordinary(Match(s, sid, asked, first, second, now).1)
  {
    var p := if asked == 0 && sid in s.parties.index then s.parties.index[sid] else asked;
    if p in s.parties.parties {
      var size := |s.parties.parties[p].members|;
      var queue, ps := ServerFrames.MatchPartyPlaces(s, p, size, first, second, now);
      PlaceAllAnswers(s.(queue := queue), p, ps, Refused(MatchNotFound));
    }
    hide MatchParty, PlaceAll, MemberSessions;
  }

  lemma LoginAnswers(s: State, sid: SessionId, user: string, password: string, token: string, lastSeq: U32, now: Time)
    requires sid in s.sessions
    ensures Ordinary(Login(s, sid, user, password, token, now).1)
    ensures Ordinary(Logout(s, sid).1)
    ensures Ordinary(Reconnect(s, sid, token, lastSeq, now).1)
  {
    hide Registry.Register, Registry.Remove, Tokens.Validate, Tokens.Issue, Displace, PreviousSeq, SetSeq;
  }

  lemma DungeonAnswers(s: State, sid: SessionId, i: Instances.InstanceId, ticket: string, character: nat, cleared: bool,
                       items: Items)
    ensures Ordinary(Enter(s, sid, i, ticket, character).1)
    ensures Ordinary(Result(s, sid, cleared, items).1)
    ensures Ordinary(Update(s, character, items).1)
  {
    hide Deposit, Reward.Grant, Instances.RequestTransition, MemberSessions;
  }

  /** Exactly the requests that need a user are refused on a session without one, and change nothing
      then; no request is answered by a version rejection. */
  lemma HandleAnswers(s: State, sid: SessionId, r: Request, now: Time)
    requires sid in s.sessions
    ensures
      var (t, reply) := Handle(s, sid, r, now);
      var refused := s.sessions[sid].user.None?
                     && (r.MatchReq? || r.EnterReq? || r.ResultReq? || r.UpdateReq? || r.GuildCreateReq? || r.GuildJoinReq?
                         || r.GuildLeaveReq?);
      && !reply.VersionRejected?
      && (reply == Refused(Unauthenticated) <==> refused) && (refused ==> t == s)
  {
    hide Login, Logout, Reconnect, Match, Enter, Result, Update;
    match r
    case LoginReq(user, password, token) => LoginAnswers(s, sid, user, password, token, 0, now);
    case LogoutReq => LoginAnswers(s, sid, "", "", "", 0, now);
    case ReconnectReq(token, lastSeq) => LoginAnswers(s, sid, "", "", token, lastSeq, now);
    case MatchReq(party, first, second) => MatchAnswers(s, sid, party, first, second, now);
    case EnterReq(i, ticket, character) => DungeonAnswers(s, sid, i, ticket, character, true, []);
    case ResultReq(cleared, rewards) => DungeonAnswers(s, sid, 0, "", 0, cleared, rewards);
    case UpdateReq(character, items) => DungeonAnswers(s, sid, 0, "", character, true, items);
    case _ =>
  }

  // ----- Sessions -----

  /** A new session gets the next id, has no user and has heard of no number or nonce yet. */
  lemma ConnectsExactly(s: State, timeout: Time, nonceLimit: nat, now: Time)
    ensures
      var t := Next(s, Connect(timeout, nonceLimit, now));
      && t == s.(nextId := s.nextId + 1, sessions := t.sessions)
      && t.sessions == s.sessions[s.nextId := Client(None, Session.Gate(0, [], nonceLimit), true, now, timeout, 0)]
  {
  }

  /** A tick keeps exactly the sessions that are connected and were heard from less than their timeout
      ago, and leaves those as they are. */
  lemma TicksExactly(s: State, now: Time)
    ensures
      var t := Next(s, TickAt(now));
      && (forall k :: k in t.sessions
            <==> k in s.sessions && s.sessions[k].connected && now - s.sessions[k].lastReceive < s.sessions[k].timeout)
      && forall k :: k in t.sessions ==> t.sessions[k] == s.sessions[k]
  {
    hide Registry.Without, Party.Without, Guild.Without;
  }

  /** A removed session is gone from the sessions, the registry, the instances and the characters, and
      has left party and guild; no other session is touched. */
  lemma RemovesSessionExactly(s: State, id: SessionId)
    ensures
      var t := Next(s, Remove(id));
      && t == s.(sessions := s.sessions - {id}, registry := t.registry, parties := Party.RemoveMember(s.parties, id).0,
                 guilds := Guild.RemoveMember(s.guilds, id).0, playing := s.playing - {id},
                 characters := s.characters - {id})
      && id !in t.registry.records
      && (forall u :: u in t.registry.active
            <==> u in s.registry.active && !(id in s.registry.records && s.registry.records[id].user == u))
  {
    Registry.RemovesExactly(s.registry, id);
    hide Registry.Remove, Party.RemoveMember, Guild.RemoveMember;
  }

  /** A logout is always answered: the session has no user and no record any more, the user it was
      recorded for is active nowhere, and tokens and everything else stay. */
  lemma LogsOutExactly(s: State, sid: SessionId)
    requires sid in s.sessions
    ensures
      var (t, reply) := Logout(s, sid);
      && reply == LoggedOut
      && t == s.(sessions := s.sessions[sid := s.sessions[sid].(user := None)], registry := t.registry)
      && t.registry.records == s.registry.records - {sid}
      && (forall u :: u in t.registry.active
            <==> u in s.registry.active && !(sid in s.registry.records && s.registry.records[sid].user == u))
  {
    ServerFrames.LogoutFrame(s, sid);
    Registry.RemovesExactly(s.registry, sid);
    assert Registry.Remove(s.registry, sid).records == s.registry.records - {sid};
    hide Registry.Remove;
  }

  /** What `from` had in the map is `to`'s now, over anything `to` had, and nothing else has moved. */
  ghost predicate MovedOver<V>(before: map<SessionId, V>, after: map<SessionId, V>, from: SessionId, to: SessionId) {
    && (forall k :: k in after <==> k != from && (k in before || (k == to && from in before)))
    && (forall k :: k in after ==> after[k] == if k == to && from in before then before[from] else before[k])
  }

  lemma MovesOver<V>(m: map<SessionId, V>, from: SessionId, to: SessionId)
    requires from != to
    ensures MovedOver(m, Move(m, from, to), from, to)
  {
  }

  /** Instance, character, party and guild of `from` are handed to `to`, and `from` is dropped. */
  ghost predicate HandsOver(s: State, t: State, from: SessionId, to: SessionId) {
    && t == s.(sessions := s.sessions - {from}, registry := t.registry, playing := t.playing,
               characters := t.characters, parties := Party.ReplaceMember(s.parties, from, to).0,
               guilds := Guild.ReplaceMember(s.guilds, from, to).0)
    && MovedOver(s.playing, t.playing, from, to) && MovedOver(s.characters, t.characters, from, to)
  }

  lemma TakesOverExactly(s: State, from: SessionId, to: SessionId)
    requires from != to
    ensures HandsOver(s, TakeOver(s, from, to), from, to) && TakeOver(s, from, to).registry == s.registry
  {
    MovesOver(s.playing, from, to);
    MovesOver(s.characters, from, to);
    hide Party.ReplaceMember, Guild.ReplaceMember, Move, MovedOver;
  }

  /** A displaced session hands over what it has and is gone from the registry. An entry without a live
      session is only dropped, and without an entry elsewhere nothing happens. */
  lemma DisplacesExactly(s: State, sid: SessionId, user: string)
    ensures
      var t := Displace(s, sid, user);
      if user in s.registry.active && s.registry.active[user] != sid then
        var from := s.registry.active[user];
        && t.registry == Registry.Remove(s.registry, from)
        && if from in s.sessions then HandsOver(s, t, from, sid) else t == s.(registry := t.registry)
      else t == s
  {
    if TakenElsewhere(s, sid, user) && s.registry.active[user] in s.sessions {
      ServerFrames.DisplaceTakesOver(s, sid, user);
      TakesOverExactly(s, s.registry.active[user], sid);
      hide Displace, TakeOver, Registry.Remove, MovedOver, Party.ReplaceMember, Guild.ReplaceMember;
    } else {
      hide TakeOver, Registry.Remove, HandsOver;
    }
  }

  // ----- Matches -----

  /** Some member of the party has this session. */
  predicate Lists(party: Party.PartyRecord, sid: SessionId) {
    exists k :: k in party.members && party.members[k].session == sid
  }

  lemma ListsMembers(party: Party.PartyRecord, sid: SessionId)
    ensures Lists(party, sid) <==> sid in MemberSessions(party)
  {
  }

  /** The refusals of a match request, in order: the asking session is in no party and names none; the
      party is not there; it does not list the session; it may not be queued, because it is party 0 or
      has not 1 to 5 members. None of them changes anything. */
  lemma MatchRefuses(s: State, sid: SessionId, asked: Party.PartyId, first: Draw, second: Draw, now: Time)
    ensures
      var (t, reply) := Match(s, sid, asked, first, second, now);
      var named := asked != 0 || sid in s.parties.index;
      var p := if asked == 0 && sid in s.parties.index then s.parties.index[sid] else asked;
      var listed := p in s.parties.parties && Lists(s.parties.parties[p], sid);
      var queued := listed && p != 0 && 1 <= |s.parties.parties[p].members| <= 5;
      && (reply == Refused(NoParty) <==> !named)
      && (reply == Refused(PartyNotFound) <==> named && p !in s.parties.parties)
      && (reply == Refused(NotPartyMember) <==> named && p in s.parties.parties && !listed)
      && (reply == Refused(QueueRejected) <==> named && listed && !queued)
      && (!named || !queued ==> t == s)
  {
    var p := if asked == 0 && sid in s.parties.index then s.parties.index[sid] else asked;
    if p in s.parties.parties {
      ListsMembers(s.parties.parties[p], sid);
      MatchPartyRefuses(s, p, |s.parties.parties[p].members|, first, second, now);
    }
    hide MatchParty, MemberSessions, Lists;
  }

  lemma MatchPartyRefuses(s: State, p: Party.PartyId, size: nat, first: Draw, second: Draw, now: Time)
    ensures
      var (t, reply) := MatchParty(s, p, size, first, second, now);
      && (reply == Refused(QueueRejected) <==> !(p != 0 && 1 <= size <= 5))
      && (reply == Refused(QueueRejected) ==> t == s)
      && reply !in {Refused(NoParty), Refused(PartyNotFound), Refused(NotPartyMember)}
  {
    var rule := MatchQueue.DEFAULT_RULE;
    var (queued, ok) := MatchQueue.Enqueue(rule, s.queue, MatchQueue.Candidate(p, 0, size, Seconds(now)));
    assert ok <==> p != 0 && 1 <= size <= 5;
    if ok {
      var (queue, ps) := match MatchQueue.FindPair(rule, queued, Seconds(now)) {
        case None => (MatchQueue.Cancel(queued, p).0, [(p, first)])
        case Some((i, j)) =>
          (MatchQueue.RemoveAt(MatchQueue.RemoveAt(queued, j), i), [(queued[i].party, first), (queued[j].party, second)])
      };
      PlaceAllAnswers(s.(queue := queue), p, ps, Refused(MatchNotFound));
    }
    hide PlaceAll, MatchQueue.Enqueue, MatchQueue.FindPair, MatchQueue.Cancel, MatchQueue.RemoveAt, Seconds;
  }

  /** A placement goes through exactly for an existing party. The next instance is then that party's
      and waits, ticket and seed are the drawn ones, and exactly the live members' sessions are put
      into it; everything else stays. */
  lemma PlacesExactly(s: State, p: Party.PartyId, draw: Draw)
    ensures
      var ((t, created), i) := (Place(s, p, draw), s.instances.nextId);
      && created == (if p in s.parties.parties then Some(i) else None) && (created.None? ==> t == s)
      && (created.Some? ==>
            && t == s.(instances := t.instances, partyInstances := s.partyInstances[p := i],
                       tickets := s.tickets[i := draw.ticket], seeds := s.seeds[i := draw.seed], playing := t.playing)
            && t.instances.nextId == i + 1
            && t.instances.instances == s.instances.instances[i := Instances.InstanceRecord(i, p, Instances.Waiting)]
            && forall k ::
                 var put := k in s.sessions && Lists(s.parties.parties[p], k);
                 && (k in t.playing <==> put || k in s.playing)
                 && (k in t.playing ==> t.playing[k] == if put then i else s.playing[k]))
  {
    if p in s.parties.parties {
      forall k ensures Lists(s.parties.parties[p], k) <==> k in MemberSessions(s.parties.parties[p]) {
        ListsMembers(s.parties.parties[p], k);
      }
    }
    hide MemberSessions, Lists;
  }

  /** In a state with an empty queue, which every reachable one is, a request that is not refused is
      answered its own party, the next instance and the first ticket, and places that party alone. */
  lemma MatchPlacesAlone(s: State, sid: SessionId, asked: Party.PartyId, first: Draw, second: Draw, now: Time)
    requires s.queue == []
    ensures
      var p := if asked == 0 && sid in s.parties.index then s.parties.index[sid] else asked;
      p in s.parties.parties && Lists(s.parties.parties[p], sid) && p != 0 && 1 <= |s.parties.parties[p].members| <= 5 ==>
        Match(s, sid, asked, first, second, now)
        == (Place(s, p, first).0, Matched(p, s.instances.nextId, first.ticket))
  {
    var p := if asked == 0 && sid in s.parties.index then s.parties.index[sid] else asked;
    if p in s.parties.parties && Lists(s.parties.parties[p], sid) && p != 0 && 1 <= |s.parties.parties[p].members| <= 5 {
      ListsMembers(s.parties.parties[p], sid);
      ServerInvariant.MatchesAlone(s, p, |s.parties.parties[p].members|, first, second, now);
    }
    hide MatchParty, MemberSessions, Lists, Place;
  }

  // ----- Entries -----

  /** An entry is refused, in this order, for an instance that is not there, a ticket that is not its
      own, a party that is gone, a session it does not list, and an instance that does not wait any
      more; otherwise it is answered the instance's seed, 0 without one, and the session plays the
      character it named there. A refusal changes nothing. */
  lemma EntryAnswers(s: State, sid: SessionId, i: Instances.InstanceId, ticket: string, character: nat)
    requires Party.Agree(s.parties)
    ensures
      var (t, reply) := Enter(s, sid, i, ticket, character);
      var seed := if i in s.seeds then s.seeds[i] else 0;
      && reply == (if i !in s.instances.instances then Refused(InstanceNotFound)
                   else if !(i in s.tickets && s.tickets[i] == ticket) then Refused(InvalidTicket)
                   else if s.instances.instances[i].party !in s.parties.parties then Refused(PartyNotFound)
                   else if !Lists(s.parties.parties[s.instances.instances[i].party], sid) then Refused(NotPartyMember)
                   else if s.instances.instances[i].phase != Instances.Waiting then Refused(InvalidState)
                   else Entered(seed))
      && (reply != Entered(seed) ==> t == s)
      && (reply == Entered(seed) ==>
            t == s.(instances := s.instances.(instances := s.instances.instances[
                                   i := s.instances.instances[i].(phase := Instances.Ready)]),
                    seeds := s.seeds[i := seed], characters := s.characters[sid := character],
                    playing := s.playing[sid := i]))
  {
    if i in s.instances.instances && s.instances.instances[i].party in s.parties.parties {
      var party := s.parties.parties[s.instances.instances[i].party];
      Instances.ReadyWhereAgreed(s.parties, party.id);
      ListsMembers(party, sid);
    }
    hide MemberSessions, Lists, Instances.IsPartyReady;
  }

  // ----- Guilds -----

  /** A guild is founded exactly by a session in none, under a name; the session leads it and is its
      only member, under its user's name. */
  lemma FoundingAnswers(s: State, sid: SessionId, user: string, name: string)
    ensures
      var (t, reply) := CreateGuild(s, sid, user, name);
      var id := s.guilds.nextId;
      && reply == (if sid !in s.guilds.index && name != "" then GuildCreated(id) else Refused(GuildRefused))
      && (reply == GuildCreated(id) ==>
            && id in t.guilds.guilds
            && t.guilds.guilds[id] == Guild.GuildRecord(id, sid, name, map[sid := Guild.Member(sid, user)]))
      && (reply != GuildCreated(id) ==> t == s)
  {
    Guild.CreatesExactly(s.guilds, sid, user, name);
    hide Guild.Create, Guild.OtherGuildsStay;
  }

  /** A guild is joined exactly if it is there and the session is in none. */
  lemma JoiningAnswers(s: State, sid: SessionId, user: string, g: Guild.GuildId)
    ensures
      var (t, reply) := JoinGuild(s, sid, user, g);
      && reply == (if g in s.guilds.guilds && sid !in s.guilds.index then GuildChanged else Refused(GuildRefused))
      && (reply == GuildChanged ==>
            && g in t.guilds.guilds && sid in t.guilds.guilds[g].members
            && (sid !in s.guilds.guilds[g].members ==> t.guilds.guilds[g].members[sid] == Guild.Member(sid, user)))
      && (reply != GuildChanged ==> t == s)
  {
    Guild.JoinsExactly(s.guilds, g, sid, user);
    hide Guild.Join, Guild.OtherGuildsStay;
  }

  /** A guild is left exactly by a member; guild 0 stands for the one the session is in. */
  lemma LeavingAnswers(s: State, sid: SessionId, g: Guild.GuildId)
    ensures
      var (t, reply) := LeaveGuild(s, sid, g);
      var asked := if g == 0 && sid in s.guilds.index then s.guilds.index[sid] else g;
      && reply == (if g == 0 && sid !in s.guilds.index then Refused(NotInGuild)
                   else if asked in s.guilds.guilds && sid in s.guilds.guilds[asked].members then GuildChanged
                   else Refused(GuildRefused))
      && (if reply == GuildChanged then Guild.LeftOnly(s.guilds, t.guilds, asked, sid) else t == s)
  {
    Guild.LeavesExactly(s.guilds, if g == 0 && sid in s.guilds.index then s.guilds.index[sid] else g, sid);
    hide Guild.Leave, Guild.LeftOnly;
  }
}
