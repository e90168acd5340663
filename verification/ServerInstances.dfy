/** Dungeon instances over whole runs of the server.

    Main results: an instance goes through its phases forward only, a transition is granted exactly
    when phases and party allow it, and an instance whose party is gone never starts any more. */
module ServerInstances {
  import opened Common
  import opened Server
  import opened ServerGrants
  import ServerInvariant
  import ServerFrames
  import Session
  import Registry
  import Tokens
  import Party
  import Guild
  import Instances

  // ----- Phases -----

  /** The phases instance `i` goes through, one entry per event plus the first. */
  ghost function Phases(s: State, es: seq<Event>, i: Instances.InstanceId): seq<Instances.Phase>
    requires GrantsOk(s) && Runs(s, es) && i in s.instances.instances
    decreases |es|
  {
    [s.instances.instances[i].phase]
    + if es == [] then []
      else
        StepGrows(s, es[0]);
        StepGrants(s, es[0]);
        Phases(Next(s, es[0]), es[1..], i)
  }

  lemma PhasesStep(s: State, es: seq<Event>, i: Instances.InstanceId)
    requires GrantsOk(s) && Runs(s, es) && i in s.instances.instances && es != []
    ensures
      var next, first := Next(s, es[0]), s.instances.instances[i].phase;
      && GrantsOk(next) && Runs(next, es[1..]) && i in next.instances.instances
      && Phases(s, es, i) == [first] + Phases(next, es[1..], i)
      && Advances(s.instances.instances[i], next.instances.instances[i])
  {
    StepGrows(s, es[0]);
    StepGrants(s, es[0]);
    hide Next, Enabled, GrantsOk, Opens, Advances;
  }

  lemma {:induction false} PhasesClimb(s: State, es: seq<Event>, i: Instances.InstanceId)
    requires GrantsOk(s) && Runs(s, es) && i in s.instances.instances
    ensures Instances.ClimbsFrom(Phases(s, es, i), s.instances.instances[i].phase, |es|)
    decreases |es|
  {
    var first := s.instances.instances[i].phase;
    Instances.ClimbsAtStart(first);
    hide Next, Enabled, GrantsOk, Instances.Rank, Instances.ClimbsFrom;
    if es == [] {
      assert [first] + [] == [first];
    } else {
      PhasesStep(s, es, i);
      var next := Next(s, es[0]);
      PhasesClimb(next, es[1..], i);
      hide Runs, Phases;
      Instances.ClimbsOn(first, next.instances.instances[i].phase, Phases(next, es[1..], i), |es| - 1);
    }
  }

  // ----- Instances and their parties -----

  lemma HandleParties(s: State, sid: SessionId, r: Request, now: Time)
    requires sid in s.sessions
    ensures Party.NoneRevived(s.parties, Handle(s, sid, r, now).0.parties)
  {
    assert Party.NoneRevived(s.parties, s.parties);
    ServerFrames.HandleFrame(s, sid, r, now);
    hide Reconnect, Party.NoneRevived;
    if r.ReconnectReq? {
      ReconnectParties(s, sid, r.token, r.lastSeq, now);
    } else {
      hide Handle;
    }
  }

  lemma DisplaceParties(s: State, sid: SessionId, user: string)
    ensures Party.NoneRevived(s.parties, Displace(s, sid, user).parties)
  {
    assert Party.NoneRevived(s.parties, s.parties);
    if TakenElsewhere(s, sid, user) {
      Party.StepRevivesNone(s.parties, Party.ReplaceOp(s.registry.active[user], sid));
    }
    hide Party.ReplaceMember, Guild.ReplaceMember, Move, Registry.Remove, Party.NoneRevived;
  }

  lemma ReconnectParties(s: State, sid: SessionId, token: string, lastSeq: U32, now: Time)
    requires sid in s.sessions
    ensures Party.NoneRevived(s.parties, Reconnect(s, sid, token, lastSeq, now).0.parties)
  {
    assert Party.NoneRevived(s.parties, s.parties);
    var (tokens, user) := Tokens.Validate(s.tokens, token, now);
    if user.Some? {
      DisplaceParties(s.(tokens := tokens), sid, user.value);
    }
    ServerFrames.ReconnectAttaches(s, sid, token, lastSeq, now);
    hide Reconnect, Displace, Tokens.Validate, Party.NoneRevived;
  }

  lemma PacketParties(s: State, id: SessionId, v: U16, stamp: Option<Session.Stamp>, r: Request, now: Time)
    requires id in s.sessions
    ensures Party.NoneRevived(s.parties, Packet(s, id, v, stamp, r, now).0.parties)
  {
    assert Party.NoneRevived(s.parties, s.parties);
    ServerFrames.AdmitFrame(s, id, v, stamp, now);
    ServerFrames.PacketIs(s, id, v, stamp, r, now);
    hide Packet, Handle, Admit, Receive, Party.NoneRevived;
    HandleParties(Admit(Receive(s, id, v, now), id, stamp).0, id, r, now);
  }

  lemma RemovalParties(s: State, id: SessionId, dead: set<SessionId>)
    ensures Party.NoneRevived(s.parties, RemoveSession(s, id).parties)
    ensures Party.NoneRevived(s.parties, RemoveAll(s, dead).parties)
  {
    Party.StepRevivesNone(s.parties, Party.RemoveOp(id));
    WithoutRevivesNone(s.parties, dead);
    hide Party.RemoveMember, Guild.RemoveMember, Registry.Remove, Party.Without, Guild.Without, Registry.Without,
         Party.NoneRevived;
  }

  lemma StepParties(s: State, e: Event)
    requires Enabled(s, e)
    ensures Party.NoneRevived(s.parties, Next(s, e).parties)
  {
    assert Party.NoneRevived(s.parties, s.parties);
    hide Packet, RemoveSession, RemoveAll, DeadAt, Party.Step, Party.NoneRevived;
    match e
    case Deliver(id, v, stamp, r, now) => PacketParties(s, id, v, stamp, r, now);
    case Remove(id) => RemovalParties(s, id, {});
    case TickAt(now) => RemovalParties(s, 0, DeadAt(s, now));
    case PartyCall(op) => Party.StepRevivesNone(s.parties, op);
    case _ =>
      ServerFrames.QuietFrame(s, e);
      hide Next;
  }

  lemma WithoutRevivesNone(s: Party.State, dead: set<SessionId>)
    ensures Party.NoneRevived(s, Party.Without(s, dead))
  {
  }

  /** Every instance belongs to a party that is there or was. */
  ghost predicate PartiesKnown(s: State) {
    forall i :: i in s.instances.instances ==> s.instances.instances[i].party < s.parties.nextId
  }

  lemma StepKnowsParties(s: State, e: Event)
    requires Party.Agree(s.parties) && GrantsOk(s) && PartiesKnown(s) && Enabled(s, e)
    ensures PartiesKnown(Next(s, e))
  {
    StepGrows(s, e);
    StepParties(s, e);
    hide Next;
    forall i | i in Next(s, e).instances.instances
      ensures Next(s, e).instances.instances[i].party < Next(s, e).parties.nextId
    {
      assert i !in s.instances.instances ==> Opens(s.instances, Next(s, e).instances, i);
    }
  }

  lemma {:induction false} RunKnowsParties(s: State, es: seq<Event>)
    requires ServerInvariant.Core(s) && GrantsOk(s) && PartiesKnown(s) && Runs(s, es)
    ensures ServerInvariant.Core(After(s, es)) && GrantsOk(After(s, es)) && PartiesKnown(After(s, es))
    decreases |es|
  {
    if es != [] {
      StepGrants(s, es[0]);
      StepKnowsParties(s, es[0]);
      ServerInvariant.StepKeepsCore(s, es[0]);
      hide Next, Enabled, GrantsOk, PartiesKnown, ServerInvariant.Core;
      RunKnowsParties(Next(s, es[0]), es[1..]);
    }
  }

  lemma ReachableKnowsParties(es: seq<Event>)
    requires Runs(START, es)
    ensures
      var s := After(START, es);
      ServerInvariant.Core(s) && GrantsOk(s) && PartiesKnown(s)
  {
    ServerInvariant.StartsWell();
    assert GrantsOk(START) && PartiesKnown(START);
    RunKnowsParties(START, es);
  }

  /** From any reachable state on, whatever happens to the server, an instance changes phase at most
      four times, never sees both Clear and Fail, and never leaves Terminate. */
  lemma InstanceLifecycle(before: seq<Event>, es: seq<Event>, i: Instances.InstanceId)
    requires Runs(START, before) && Runs(After(START, before), es)
    requires i in After(START, before).instances.instances
    ensures
      var s := After(START, before);
      GrantsOk(s) && Instances.Orderly(Phases(s, es, i))
  {
    ReachableKnowsParties(before);
    var s := After(START, before);
    PhasesClimb(s, es, i);
    hide Phases, GrantsOk, Runs, After, PartiesKnown, Instances.ClimbsFrom, Instances.Orderly;
    Instances.ClimbingIsOrderly(Phases(s, es, i), s.instances.instances[i].phase, |es|);
  }

  /** From Waiting to Ready and from Ready to Playing while the instance's party exists, from Playing
      to Clear or Fail, and to Terminate from anywhere else. */
  predicate MayMove(s: State, i: Instances.InstanceId, to: Instances.Phase) {
    && i in s.instances.instances
    && var record := s.instances.instances[i];
       match to
       case Waiting => false
       case Ready => record.phase.Waiting? && record.party in s.parties.parties
       case Playing => record.phase.Ready? && record.party in s.parties.parties
       case Clear => record.phase.Playing?
       case Fail => record.phase.Playing?
       case Terminate => !record.phase.Terminate?
  }

  lemma GrantedWhereAgreed(s: State, i: Instances.InstanceId, to: Instances.Phase)
    requires Party.Agree(s.parties)
    ensures Instances.RequestTransition(s.instances, i, to, s.parties).1 <==> MayMove(s, i, to)
  {
    if i in s.instances.instances {
      Instances.ReadyWhereAgreed(s.parties, s.instances.instances[i].party);
    }
    hide Instances.IsPartyReady, Party.Agree;
  }

  /** In a reachable state exactly these moves are granted. */
  lemma GrantedExactly(es: seq<Event>, i: Instances.InstanceId, to: Instances.Phase)
    requires Runs(START, es)
    ensures
      var s := After(START, es);
      Instances.RequestTransition(s.instances, i, to, s.parties).1 <==> MayMove(s, i, to)
  {
    ReachableKnowsParties(es);
    var s := After(START, es);
    assert Party.Agree(s.parties);
    GrantedWhereAgreed(s, i, to);
    hide Runs, After, GrantsOk, PartiesKnown, ServerInvariant.Core, Instances.RequestTransition, MayMove;
  }

  predicate PartyGone(s: State, i: Instances.InstanceId) {
    && i in s.instances.instances
    && s.instances.instances[i].party !in s.parties.parties && s.instances.instances[i].party < s.parties.nextId
  }

  lemma StaysGone(s: State, e: Event, i: Instances.InstanceId)
    requires GrantsOk(s) && Enabled(s, e) && PartyGone(s, i)
    ensures PartyGone(Next(s, e), i) && !Opens(s.instances, Next(s, e).instances, i)
  {
    StepGrows(s, e);
    StepParties(s, e);
    hide Next, GrantsOk;
  }

  /** Whenever the instance is ready or played, it has been from the first. */
  predicate NeverStarts(h: seq<Instances.Phase>) {
    forall k :: 0 <= k < |h| && (h[k] == Instances.Ready || h[k] == Instances.Playing) ==> h[k] == h[0]
  }

  lemma NeverStartsPrepend(first: Instances.Phase, rest: seq<Instances.Phase>)
    requires rest != [] && NeverStarts(rest)
    requires rest[0] == first || !(rest[0] == Instances.Ready || rest[0] == Instances.Playing)
    ensures NeverStarts([first] + rest)
  {
    var h := [first] + rest;
    forall k | 0 <= k < |h| && (h[k] == Instances.Ready || h[k] == Instances.Playing) ensures h[k] == h[0] {
      assert k > 0 ==> h[k] == rest[k - 1];
    }
  }

  lemma {:induction false} GoneNeverStarts(s: State, es: seq<Event>, i: Instances.InstanceId)
    requires GrantsOk(s) && Runs(s, es) && PartyGone(s, i)
    ensures
      var h := Phases(s, es, i);
      h != [] && h[0] == s.instances.instances[i].phase && NeverStarts(h)
    decreases |es|
  {
    if es != [] {
      PhasesStep(s, es, i);
      StaysGone(s, es[0], i);
      var next := Next(s, es[0]);
      GoneNeverStarts(next, es[1..], i);
      hide Next, Enabled, GrantsOk, Runs, Phases, NeverStarts, Advances;
      NeverStartsPrepend(s.instances.instances[i].phase, Phases(next, es[1..], i));
    }
  }

  /** Once its party is gone, an instance becomes ready or is played only if it already was: in no
      later run does it start, whatever parties are formed. */
  lemma NoPartyNoStart(before: seq<Event>, es: seq<Event>, i: Instances.InstanceId)
    requires Runs(START, before) && Runs(After(START, before), es)
    requires
      var s := After(START, before);
      i in s.instances.instances && s.instances.instances[i].party !in s.parties.parties
    ensures
      var s := After(START, before);
      && GrantsOk(s)
      && NeverStarts(Phases(s, es, i))
  {
    ReachableKnowsParties(before);
    var s := After(START, before);
    assert PartyGone(s, i);
    hide Runs, After, GrantsOk, PartiesKnown, PartyGone, NeverStarts;
    GoneNeverStarts(s, es, i);
  }
}
