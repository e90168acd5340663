/** Who gets into a dungeon instance, over runs of the server.

    Main results: an instance is entered at most once in every run, whoever asks; and whoever enters
    presents the ticket and is answered the seed that were drawn when it was placed. */
module ServerEntries {
  import opened Common
  import opened Server
  import opened ServerGrants
  import ServerAnswers
  import ServerFrames
  import ServerInvariant
  import Party
  import Instances

  // ----- Entered at most once -----

  /** The instance an event was told it has entered. */
  ghost function Entrance(s: State, e: Event): seq<Instances.InstanceId>
    requires Enabled(s, e)
  {
    match e
    case Deliver(_, _, _, EnterReq(i, _, _), _) => if Step(s, e).1.Entered? then [i] else []
    case _ => []
  }

  ghost function Entrances(s: State, es: seq<Event>): seq<Instances.InstanceId>
    requires Runs(s, es)
    decreases |es|
  {
    if es == [] then [] else Entrance(s, es[0]) + Entrances(Next(s, es[0]), es[1..])
  }

  /** An entry is granted exactly with the instance's ticket, to a member of its existing party, while
      the instance waits; then the instance is ready, and otherwise nothing has changed. */
  lemma EntersExactly(s: State, sid: SessionId, i: Instances.InstanceId, ticket: string, character: nat)
    requires Party.Agree(s.parties)
    ensures
      var (t, reply) := Enter(s, sid, i, ticket, character);
      && (reply.Entered?
          <==> && i in s.instances.instances && s.instances.instances[i].phase == Instances.Waiting
               && i in s.tickets && s.tickets[i] == ticket
               && s.instances.instances[i].party in s.parties.parties
               && sid in MemberSessions(s.parties.parties[s.instances.instances[i].party]))
      && (if reply.Entered? then i in t.instances.instances && t.instances.instances[i].phase == Instances.Ready
          else t == s)
  {
    if i in s.instances.instances {
      Instances.ReadyWhereAgreed(s.parties, s.instances.instances[i].party);
    }
    hide MemberSessions, Instances.IsPartyReady, Party.Agree, SeedOf;
  }

  /** Whatever the parties, only an instance that waits is entered. */
  lemma EntersWaiting(s: State, sid: SessionId, i: Instances.InstanceId, ticket: string, character: nat)
    ensures
      var (t, reply) := Enter(s, sid, i, ticket, character);
      reply.Entered? ==>
        && i in s.instances.instances && s.instances.instances[i].phase == Instances.Waiting
        && i in t.instances.instances && t.instances.instances[i].phase == Instances.Ready
  {
    hide MemberSessions, Instances.IsPartyReady, SeedOf;
  }

  predicate Waits(s: State, i: Instances.InstanceId) {
    i in s.instances.instances && s.instances.instances[i].phase == Instances.Waiting
  }

  /** The instance has left its first phase, which it never returns to. */
  predicate Left(s: State, i: Instances.InstanceId) {
    i in s.instances.instances && s.instances.instances[i].phase != Instances.Waiting
  }

  lemma HandleEnters(s: State, sid: SessionId, i: Instances.InstanceId, ticket: string, character: nat, now: Time)
    requires sid in s.sessions
    ensures
      var (t, reply) := Handle(s, sid, EnterReq(i, ticket, character), now);
      reply.Entered? ==> Waits(s, i) && Left(t, i)
  {
    EntersWaiting(s, sid, i, ticket, character);
    hide Enter;
  }

  lemma StepEnters(s: State, e: Event)
    requires Enabled(s, e)
    ensures |Entrance(s, e)| <= 1 && forall i :: i in Entrance(s, e) ==> Waits(s, i) && Left(Next(s, e), i)
  {
    if e.Deliver? && e.request.EnterReq? {
      var u := ServerAnswers.PacketExactly(s, e.id, e.version, e.stamp, e.request, e.now);
      assert Waits(u, e.request.instance) <==> Waits(s, e.request.instance);
      HandleEnters(u, e.id, e.request.instance, e.request.ticket, e.request.character, e.now);
      hide Packet, Handle, Waits, Left;
    }
  }

  lemma StaysLeft(s: State, e: Event, i: Instances.InstanceId)
    requires GrantsOk(s) && Enabled(s, e) && Left(s, i)
    ensures Left(Next(s, e), i)
  {
    StepGrows(s, e);
    hide Next, GrantsOk, Opens;
  }

  lemma {:induction false} RunEnters(s: State, es: seq<Event>)
    requires GrantsOk(s) && Runs(s, es)
    ensures Distinct(Entrances(s, es)) && forall i :: i in Entrances(s, es) ==> !Left(s, i)
    decreases |es|
  {
    hide Next, Enabled, Entrance, GrantsOk, Left;
    if es != [] {
      var next := Next(s, es[0]);
      StepEnters(s, es[0]);
      StepGrants(s, es[0]);
      RunEnters(next, es[1..]);
      forall i | Left(s, i) ensures Left(next, i) && i !in Entrance(s, es[0]) {
        StaysLeft(s, es[0], i);
        assert Waits(s, i) ==> !Left(s, i) by { NotBoth(s, i); }
      }
      JoinsDistinct(Entrance(s, es[0]), Entrances(next, es[1..]));
    }
  }

  lemma NotBoth(s: State, i: Instances.InstanceId)
    ensures !(Waits(s, i) && Left(s, i))
  {
  }

  lemma JoinsDistinct(first: seq<Instances.InstanceId>, rest: seq<Instances.InstanceId>)
    requires |first| <= 1 && Distinct(rest) && forall i :: i in first ==> i !in rest
    ensures Distinct(first + rest)
  {
    forall a, b | 0 <= a < b < |first + rest| ensures (first + rest)[a] != (first + rest)[b] {
      assert a < |first| ==> first[a] in first && rest[b - |first|] in rest;
    }
  }

  /** In every run each instance lets in one session at most, once. */
  lemma EnteredAtMostOnce(es: seq<Event>)
    requires Runs(START, es)
    ensures Distinct(Entrances(START, es))
  {
    assert GrantsOk(START);
    RunEnters(START, es);
  }

  // ----- The ticket and seed an instance was placed with -----

  ghost predicate Drawn(s: State, i: Instances.InstanceId, draw: Draw) {
    && i < s.instances.nextId
    && i in s.tickets && s.tickets[i] == draw.ticket && i in s.seeds && s.seeds[i] == draw.seed
  }

  lemma {:induction false} PlaceAllDrawn(s: State, asking: Party.PartyId, ps: seq<(Party.PartyId, Draw)>, reply: Reply,
                                         i: Instances.InstanceId, draw: Draw)
    requires Drawn(s, i, draw)
    ensures Drawn(PlaceAll(s, asking, ps, reply).0, i, draw)
    decreases |ps|
  {
    if ps != [] {
      var (p, d) := ps[0];
      ServerAnswers.PlacesExactly(s, p, d);
      hide Place;
      var (placed, created) := Place(s, p, d);
      if created.Some? {
        PlaceAllDrawn(placed, asking, ps[1..], if p == asking then Matched(p, created.value, d.ticket) else reply, i, draw);
      }
    }
  }

  lemma MatchDrawn(s: State, sid: SessionId, asked: Party.PartyId, first: Draw, second: Draw, now: Time,
                   i: Instances.InstanceId, draw: Draw)
    requires Drawn(s, i, draw)
    ensures Drawn(Match(s, sid, asked, first, second, now).0, i, draw)
  {
    var p := if asked == 0 && sid in s.parties.index then s.parties.index[sid] else asked;
    if p in s.parties.parties {
      var queue, ps := ServerFrames.MatchPartyPlaces(s, p, |s.parties.parties[p].members|, first, second, now);
      PlaceAllDrawn(s.(queue := queue), p, ps, Refused(MatchNotFound), i, draw);
    }
    hide MatchParty, PlaceAll, MemberSessions;
  }

  lemma EnterDrawn(s: State, sid: SessionId, i: Instances.InstanceId, ticket: string, character: nat,
                   j: Instances.InstanceId, draw: Draw)
    requires Drawn(s, j, draw)
    ensures Drawn(Enter(s, sid, i, ticket, character).0, j, draw)
  {
    ServerFrames.EnterFrame(s, sid, i, ticket, character);
    hide Enter;
  }

  lemma HandleDrawn(s: State, sid: SessionId, r: Request, now: Time, i: Instances.InstanceId, draw: Draw)
    requires sid in s.sessions && Drawn(s, i, draw) && GrantsOk(s)
    ensures
      var t := Handle(s, sid, r, now).0;
      i < t.instances.nextId ==> Drawn(t, i, draw)
  {
    hide Login, Logout, Reconnect, Match, Enter, Result, Update, CreateGuild, JoinGuild, LeaveGuild;
    match r
    case MatchReq(party, first, second) => MatchDrawn(s, sid, party, first, second, now, i, draw);
    case EnterReq(j, ticket, character) => EnterDrawn(s, sid, j, ticket, character, i, draw);
    case _ =>
      ServerFrames.HandleFrame(s, sid, r, now);
      hide Handle;
  }

  lemma StepDrawn(s: State, e: Event, i: Instances.InstanceId, draw: Draw)
    requires GrantsOk(s) && Enabled(s, e) && Drawn(s, i, draw)
    ensures Drawn(Next(s, e), i, draw)
  {
    StepGrows(s, e);
    if e.Deliver? {
      var u := ServerAnswers.PacketExactly(s, e.id, e.version, e.stamp, e.request, e.now);
      assert Drawn(u, i, draw) && GrantsOk(u);
      hide Packet, Handle, Drawn, GrantsOk;
      HandleDrawn(u, e.id, e.request, e.now, i, draw);
    } else {
      ServerFrames.QuietFrame(s, e);
      hide Next, GrantsOk;
    }
  }

  lemma {:induction false} RunDrawn(s: State, es: seq<Event>, i: Instances.InstanceId, draw: Draw)
    requires GrantsOk(s) && Runs(s, es) && Drawn(s, i, draw)
    ensures Drawn(After(s, es), i, draw)
    decreases |es|
  {
    hide Next, Enabled, GrantsOk, Drawn;
    if es != [] {
      StepDrawn(s, es[0], i, draw);
      StepGrants(s, es[0]);
      RunDrawn(Next(s, es[0]), es[1..], i, draw);
    }
  }

  /** After any run and then a match that is answered, through any run: whoever enters the instance
      presents the ticket that was answered and drawn, and is answered the seed that was drawn. */
  lemma DrawnSeedIsAnswered(before: seq<Event>, sid: SessionId, v: U16, asked: Party.PartyId, first: Draw, second: Draw,
                            now: Time, es: seq<Event>, other: SessionId, ticket: string, character: nat)
    requires Runs(START, before) && sid in After(START, before).sessions
    requires
      var s, e := After(START, before), Deliver(sid, v, None, MatchReq(asked, first, second), now);
      Step(s, e).1.Matched? && Runs(Next(s, e), es)
    ensures
      var s, e := After(START, before), Deliver(sid, v, None, MatchReq(asked, first, second), now);
      var (answer, t) := (Step(s, e).1, After(Next(s, e), es));
      var reply := Enter(t, other, answer.instance, ticket, character).1;
      answer.ticket == first.ticket && (reply.Entered? ==> ticket == first.ticket && reply == Entered(first.seed))
  {
    var s, e := After(START, before), Deliver(sid, v, None, MatchReq(asked, first, second), now);
    ReachesWell(before);
    MatchedDraws(s, sid, v, asked, first, second, now);
    hide Runs, After, GrantsOk, Drawn;
    StepGrants(s, e);
    hide Next, Step;
    var i := Step(s, e).1.instance;
    RunDrawn(Next(s, e), es, i, first);
    EntersOnDraw(After(Next(s, e), es), other, i, ticket, character, first);
    hide Enter;
  }

  lemma ReachesWell(es: seq<Event>)
    requires Runs(START, es)
    ensures GrantsOk(After(START, es)) && After(START, es).queue == []
  {
    ServerInvariant.StartsWell();
    ServerInvariant.RunKeeps(START, es);
    assert GrantsOk(START);
    RunPays(START, es);
    hide Runs, After, GrantsOk;
  }

  lemma EntersOnDraw(s: State, sid: SessionId, i: Instances.InstanceId, ticket: string, character: nat, draw: Draw)
    requires Drawn(s, i, draw)
    ensures
      var reply := Enter(s, sid, i, ticket, character).1;
      reply.Entered? ==> ticket == draw.ticket && reply == Entered(draw.seed)
  {
    hide MemberSessions, Instances.RequestTransition;
  }

  lemma MatchedDraws(s: State, sid: SessionId, v: U16, asked: Party.PartyId, first: Draw, second: Draw, now: Time)
    requires sid in s.sessions && s.queue == []
    requires Step(s, Deliver(sid, v, None, MatchReq(asked, first, second), now)).1.Matched?
    ensures
      var e := Deliver(sid, v, None, MatchReq(asked, first, second), now);
      && Step(s, e).1.ticket == first.ticket && Drawn(Next(s, e), Step(s, e).1.instance, first)
  {
    var e := Deliver(sid, v, None, MatchReq(asked, first, second), now);
    ServerFrames.UnstampedIs(s, sid, v, e.request, now);
    var u := Receive(s, sid, v, now);
    assert u.queue == [];
    MatchDraws(u, sid, asked, first, second, now);
    hide Step, Next, Match, Receive, Drawn;
  }

  lemma MatchDraws(s: State, sid: SessionId, asked: Party.PartyId, first: Draw, second: Draw, now: Time)
    requires s.queue == []
    ensures
      var (t, reply) := Match(s, sid, asked, first, second, now);
      reply.Matched? ==> reply.ticket == first.ticket && Drawn(t, reply.instance, first)
  {
    var p := if asked == 0 && sid in s.parties.index then s.parties.index[sid] else asked;
    ServerAnswers.MatchRefuses(s, sid, asked, first, second, now);
    ServerAnswers.MatchPlacesAlone(s, sid, asked, first, second, now);
    ServerAnswers.PlacesExactly(s, p, first);
    hide Match, Place, ServerAnswers.Lists;
  }
}
