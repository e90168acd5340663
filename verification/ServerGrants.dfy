/** At most one reward for a dungeon instance, over every run of the server, the transitions and
    terminations requested on the instance manager from outside included. */
module ServerGrants {
  import opened Common
  import opened Server
  import ServerFrames
  import ServerRewards
  import Session
  import Registry
  import Party
  import Guild
  import Instances
  import Reward
  import CachedInventory
  import InventoryStore

  predicate Over(phase: Instances.Phase) {
    phase == Instances.Clear || phase == Instances.Fail || phase == Instances.Terminate
  }

  /** The later record of an instance: phases only go forward. */
  predicate Advances(a: Instances.InstanceRecord, b: Instances.InstanceRecord) {
    b.party == a.party && (b.phase == a.phase || Instances.Rank(a.phase) < Instances.Rank(b.phase))
  }

  /** Instance `i` is new, has become ready, or has begun to be played. */
  predicate Opens(a: Instances.State, b: Instances.State, i: Instances.InstanceId) {
    && i in b.instances
    && (i in a.instances ==>
          && b.instances[i].phase != a.instances[i].phase
          && (b.instances[i].phase == Instances.Ready || b.instances[i].phase == Instances.Playing))
  }

  /** No instance is lost or goes back, and one opens only while its party is there. */
  ghost predicate Grows(parties: Party.State, a: Instances.State, b: Instances.State) {
    && a.nextId <= b.nextId
    && (forall i :: i in b.instances ==> i < b.nextId)
    && (forall i :: i in a.instances ==> i in b.instances && Advances(a.instances[i], b.instances[i]))
    && (forall i :: Opens(a, b, i) ==> b.instances[i].party in parties.parties)
  }

  /** Every grant id is below the next one and belongs to one instance. */
  ghost predicate GrantsDistinct(grants: map<Instances.InstanceId, Reward.GrantId>, next: nat) {
    && (forall i :: i in grants ==> grants[i] < next)
    && (forall i, j :: i in grants && j in grants && i != j ==> grants[i] != grants[j])
  }

  ghost predicate GrantsOk(s: State) {
    && (forall i :: i in s.instances.instances ==> i < s.instances.nextId)
    && (forall i :: i in s.grants ==> i in s.instances.instances && Over(s.instances.instances[i].phase))
    && GrantsDistinct(s.grants, s.nextGrant)
  }

  // ----- What a step does to instances and grants -----

  lemma InstanceStepGrows(s: Instances.State, op: Instances.Op, parties: Party.State)
    requires forall i :: i in s.instances ==> i < s.nextId
    requires op.TerminateOp? || op.parties == parties
    ensures Grows(parties, s, Instances.Step(s, op))
  {
  }

  /** Instance `i` gets the next grant, having just ended. */
  ghost predicate Grants(s: State, t: State, i: Instances.InstanceId) {
    && i !in s.grants && t.grants == s.grants[i := s.nextGrant] && t.nextGrant == s.nextGrant + 1
    && i in t.instances.instances && Over(t.instances.instances[i].phase)
  }

  ghost predicate NoGrant(s: State, t: State) {
    t.grants == s.grants && s.nextGrant <= t.nextGrant
  }

  lemma StaysOver(parties: Party.State, a: Instances.State, b: Instances.State, i: Instances.InstanceId)
    requires Grows(parties, a, b) && i in a.instances && Over(a.instances[i].phase)
    ensures i in b.instances && Over(b.instances[i].phase)
  {
  }

  lemma OneMoreGrant(grants: map<Instances.InstanceId, Reward.GrantId>, next: nat, i: Instances.InstanceId, later: nat)
    requires GrantsDistinct(grants, next) && next <= later
    ensures GrantsDistinct(grants, later)
    ensures i !in grants ==> GrantsDistinct(grants[i := next], next + 1)
  {
  }

  lemma GrantsKeep(s: State, t: State, i: Instances.InstanceId)
    requires GrantsOk(s) && Grows(s.parties, s.instances, t.instances) && (Grants(s, t, i) || NoGrant(s, t))
    ensures GrantsOk(t)
  {
    OneMoreGrant(s.grants, s.nextGrant, i, if NoGrant(s, t) then t.nextGrant else s.nextGrant);
    forall j | j in s.grants ensures j in t.instances.instances && Over(t.instances.instances[j].phase) {
      StaysOver(s.parties, s.instances, t.instances, j);
    }
    assert forall j :: j in t.instances.instances ==> j < t.instances.nextId;
    hide Grows, Over, GrantsDistinct;
  }

  lemma GrowsOn(parties: Party.State, a: Instances.State, b: Instances.State, c: Instances.State)
    requires Grows(parties, a, b) && Grows(parties, b, c)
    ensures Grows(parties, a, c)
  {
    forall i | Opens(a, c, i) ensures c.instances[i].party in parties.parties {
      assert Opens(b, c, i) || Opens(a, b, i);
    }
  }

  lemma {:induction false} PlaceAllGrows(s: State, asking: Party.PartyId, ps: seq<(Party.PartyId, Draw)>, reply: Reply)
    requires forall i :: i in s.instances.instances ==> i < s.instances.nextId
    ensures Grows(s.parties, s.instances, PlaceAll(s, asking, ps, reply).0.instances)
    decreases |ps|
  {
    assert Grows(s.parties, s.instances, s.instances);
    if ps != [] {
      var (p, draw) := ps[0];
      ServerFrames.PlaceFrame(s, p, draw);
      var (next, created) := Place(s, p, draw);
      InstanceStepGrows(s.instances, Instances.CreateOp(p, s.parties), s.parties);
      assert forall i :: i in next.instances.instances ==> i < next.instances.nextId;
      hide Place, Grows, Instances.Create;
      if created.Some? {
        var last := if p == asking then Matched(p, created.value, draw.ticket) else reply;
        PlaceAllGrows(next, asking, ps[1..], last);
        GrowsOn(s.parties, s.instances, next.instances, PlaceAll(next, asking, ps[1..], last).0.instances);
      }
    }
  }

  lemma MatchPartyGrows(s: State, p: Party.PartyId, size: nat, first: Draw, second: Draw, now: Time)
    requires forall i :: i in s.instances.instances ==> i < s.instances.nextId
    ensures Grows(s.parties, s.instances, MatchParty(s, p, size, first, second, now).0.instances)
  {
    assert Grows(s.parties, s.instances, s.instances);
    var queue, ps := ServerFrames.MatchPartyPlaces(s, p, size, first, second, now);
    PlaceAllGrows(s.(queue := queue), p, ps, Refused(MatchNotFound));
    hide Grows, MatchParty, PlaceAll;
  }

  lemma MatchGrows(s: State, sid: SessionId, asked: Party.PartyId, first: Draw, second: Draw, now: Time)
    requires forall i :: i in s.instances.instances ==> i < s.instances.nextId
    ensures Grows(s.parties, s.instances, Match(s, sid, asked, first, second, now).0.instances)
  {
    assert Grows(s.parties, s.instances, s.instances);
    var p := if asked == 0 && sid in s.parties.index then s.parties.index[sid] else asked;
    if p in s.parties.parties {
      MatchPartyGrows(s, p, |s.parties.parties[p].members|, first, second, now);
    }
    hide Grows, MatchParty, MemberSessions;
  }

  lemma PayOutGrants(s: State, i: Instances.InstanceId, character: nat, rewards: Items)
    requires i !in s.grants && i in s.instances.instances && Over(s.instances.instances[i].phase)
    ensures
      var (t, reply) := PayOut(s, i, character, rewards);
      t.instances == s.instances && if reply == Recorded then Grants(s, t, i) else NoGrant(s, t)
  {
    PayOutShape(s, i, character, rewards);
    hide PayOut;
  }

  lemma ConcludeGrants(s: State, sid: SessionId, i: Instances.InstanceId, to: Instances.Phase, rewards: Items)
    requires forall j :: j in s.instances.instances ==> j < s.instances.nextId
    requires i !in s.grants && (to == Instances.Clear || to == Instances.Fail)
    ensures
      var (t, reply) := Conclude(s, sid, i, to, rewards);
      && Grows(s.parties, s.instances, t.instances)
      && if reply == Recorded then Grants(s, t, i) else NoGrant(s, t)
  {
    InstanceStepGrows(s.instances, Instances.RequestOp(i, to, s.parties), s.parties);
    assert Grows(s.parties, s.instances, s.instances);
    var (instances, ok) := Instances.RequestTransition(s.instances, i, to, s.parties);
    var ended := s.(instances := instances);
    if ok && sid in s.characters {
      assert i in instances.instances && instances.instances[i].phase == to by { hide Instances.Grants; }
      PayOutGrants(ended, i, s.characters[sid], rewards);
      var t := PayOut(ended, i, s.characters[sid], rewards).0;
      assert Grants(ended, t, i) ==> Grants(s, t, i);
    }
    hide PayOut, Grows, Grants, Instances.RequestTransition;
  }

  lemma ResultGrants(s: State, sid: SessionId, cleared: bool, rewards: Items)
    requires forall i :: i in s.instances.instances ==> i < s.instances.nextId
    ensures
      var (t, reply) := Result(s, sid, cleared, rewards);
      && Grows(s.parties, s.instances, t.instances)
      && if reply == Recorded then sid in s.playing && Grants(s, t, s.playing[sid]) else NoGrant(s, t)
  {
    assert Grows(s.parties, s.instances, s.instances);
    if sid in s.playing && s.playing[sid] !in s.grants {
      ConcludeGrants(s, sid, s.playing[sid], if cleared then Instances.Clear else Instances.Fail, rewards);
    }
    hide Conclude, Grows, Grants;
  }

  lemma EnterGrows(s: State, sid: SessionId, i: Instances.InstanceId, ticket: string, character: nat)
    requires forall j :: j in s.instances.instances ==> j < s.instances.nextId
    ensures Grows(s.parties, s.instances, Enter(s, sid, i, ticket, character).0.instances)
  {
    assert Grows(s.parties, s.instances, s.instances);
    InstanceStepGrows(s.instances, Instances.RequestOp(i, Instances.Ready, s.parties), s.parties);
    ServerFrames.EnterFrame(s, sid, i, ticket, character);
    hide Grows, Enter, Instances.RequestTransition;
  }

  lemma HandleGrants(s: State, sid: SessionId, r: Request, now: Time)
    requires sid in s.sessions
    requires forall i :: i in s.instances.instances ==> i < s.instances.nextId
    ensures
      var (t, reply) := Handle(s, sid, r, now);
      && Grows(s.parties, s.instances, t.instances)
      && if r.ResultReq? && reply == Recorded then sid in s.playing && Grants(s, t, s.playing[sid]) else NoGrant(s, t)
  {
    assert Grows(s.parties, s.instances, s.instances);
    ServerFrames.HandleFrame(s, sid, r, now);
    hide Grows, Grants, Login, Logout, Reconnect, Match, Enter, Result, Update, CreateGuild, JoinGuild, LeaveGuild;
    match r
    case MatchReq(party, first, second) => MatchGrows(s, sid, party, first, second, now);
    case EnterReq(i, ticket, character) => EnterGrows(s, sid, i, ticket, character);
    case ResultReq(cleared, rewards) => ResultGrants(s, sid, cleared, rewards);
    case _ => hide Handle;
  }

  lemma QuietGrows(s: State, e: Event)
    requires Enabled(s, e) && !e.Deliver?
    requires forall i :: i in s.instances.instances ==> i < s.instances.nextId
    ensures Grows(s.parties, s.instances, Next(s, e).instances)
  {
    hide Party.Step, Party.RemoveMember, Guild.RemoveMember, Party.Without, Guild.Without, Registry.Without, Registry.Remove;
    assert Grows(s.parties, s.instances, s.instances);
    match e
    case CreateInstance(p) => InstanceStepGrows(s.instances, Instances.CreateOp(p, s.parties), s.parties);
    case TerminateInstance(i) => InstanceStepGrows(s.instances, Instances.TerminateOp(i), s.parties);
    case RequestTransition(i, to) => InstanceStepGrows(s.instances, Instances.RequestOp(i, to, s.parties), s.parties);
    case _ =>
      hide Grows;
  }

  // ----- Over every run -----

  /** The instance an event was told a recorded result for. */
  ghost function Paid(s: State, e: Event): seq<Instances.InstanceId>
    requires Enabled(s, e)
  {
    match e
    case Deliver(id, _, _, ResultReq(_, _), _) => if Step(s, e).1 == Recorded && id in s.playing then [s.playing[id]] else []
    case _ => []
  }

  ghost function AllPaid(s: State, es: seq<Event>): seq<Instances.InstanceId>
    requires Runs(s, es)
    decreases |es|
  {
    if es == [] then [] else Paid(s, es[0]) + AllPaid(Next(s, es[0]), es[1..])
  }

  /** None of `paid` had a grant before, and now they have. */
  ghost predicate PaysNow(s: State, t: State, paid: seq<Instances.InstanceId>) {
    && |paid| <= 1
    && (forall i :: i in paid ==> i !in s.grants)
    && t.grants.Keys == s.grants.Keys + set i | i in paid
  }

  lemma GrantPays(s: State, t: State, paid: seq<Instances.InstanceId>)
    requires if paid == [] then NoGrant(s, t) else paid == [paid[0]] && Grants(s, t, paid[0])
    ensures PaysNow(s, t, paid)
  {
  }

  ghost function PaidBy(s: State, sid: SessionId, r: Request, reply: Reply): seq<Instances.InstanceId> {
    if r.ResultReq? && reply == Recorded && sid in s.playing then [s.playing[sid]] else []
  }

  lemma PacketGrants(s: State, sid: SessionId, v: U16, stamp: Option<Session.Stamp>, r: Request, now: Time)
    requires GrantsOk(s) && sid in s.sessions
    ensures
      var (t, reply) := Packet(s, sid, v, stamp, r, now);
      GrantsOk(t) && PaysNow(s, t, PaidBy(s, sid, r, reply))
  {
    var (t, reply) := Packet(s, sid, v, stamp, r, now);
    ServerFrames.AdmitFrame(s, sid, v, stamp, now);
    var (admitted, ok) := Admit(Receive(s, sid, v, now), sid, stamp);
    assert Grows(s.parties, s.instances, s.instances);
    if ok {
      HandleGrants(admitted, sid, r, now);
    }
    hide Handle, Admit, Receive, Grows, Grants, GrantsOk;
    var paid := PaidBy(s, sid, r, reply);
    if paid == [] {
      assert NoGrant(s, t) && Grows(s.parties, s.instances, t.instances);
      GrantsKeep(s, t, 0);
    } else {
      assert Grants(s, t, paid[0]) by { GrantsCarry(s, admitted, t, paid[0]); }
      GrantsKeep(s, t, paid[0]);
    }
    hide PaysNow;
    GrantPays(s, t, paid);
  }

  /** Admission changes nothing a grant looks at. */
  lemma GrantsCarry(s: State, admitted: State, t: State, i: Instances.InstanceId)
    requires admitted == s.(sessions := admitted.sessions) && Grants(admitted, t, i)
    ensures Grants(s, t, i)
  {
  }

  lemma PaidIs(s: State, id: SessionId, v: U16, stamp: Option<Session.Stamp>, r: Request, now: Time)
    requires id in s.sessions
    ensures
      var e := Deliver(id, v, stamp, r, now);
      && Next(s, e) == Packet(s, id, v, stamp, r, now).0
      && Paid(s, e) == PaidBy(s, id, r, Packet(s, id, v, stamp, r, now).1)
  {
    hide Packet;
  }

  lemma QuietGrants(s: State, e: Event)
    requires Enabled(s, e) && !e.Deliver?
    ensures NoGrant(s, Next(s, e)) && Paid(s, e) == []
  {
    assert Paid(s, e) == [] by { hide Step; }
    ServerFrames.QuietFrame(s, e);
    hide Next, Paid, ServerFrames.QuietlyFramed;
  }

  lemma StepGrants(s: State, e: Event)
    requires GrantsOk(s) && Enabled(s, e)
    ensures GrantsOk(Next(s, e)) && PaysNow(s, Next(s, e), Paid(s, e))
  {
    if e.Deliver? {
      PaidIs(s, e.id, e.version, e.stamp, e.request, e.now);
      PacketGrants(s, e.id, e.version, e.stamp, e.request, e.now);
      hide Next, Paid, Packet, PaidBy, GrantsOk, PaysNow;
    } else {
      QuietGrows(s, e);
      QuietGrants(s, e);
      hide Next, Paid, Grows, NoGrant;
      GrantsKeep(s, Next(s, e), 0);
      GrantPays(s, Next(s, e), []);
      hide GrantsOk, PaysNow;
    }
  }

  predicate Distinct(xs: seq<Instances.InstanceId>) {
    forall a, b :: 0 <= a < b < |xs| ==> xs[a] != xs[b]
  }

  lemma {:induction false} RunPays(s: State, es: seq<Event>)
    requires GrantsOk(s) && Runs(s, es)
    ensures GrantsOk(After(s, es))
    ensures Distinct(AllPaid(s, es)) && forall i :: i in AllPaid(s, es) ==> i !in s.grants
    ensures After(s, es).grants.Keys == s.grants.Keys + set i | i in AllPaid(s, es)
    decreases |es|
  {
    hide Next, Enabled, Paid, GrantsOk;
    if es != [] {
      var next := Next(s, es[0]);
      StepGrants(s, es[0]);
      RunPays(next, es[1..]);
      var first, rest := Paid(s, es[0]), AllPaid(next, es[1..]);
      assert forall i :: i in first ==> i in next.grants;
      assert forall i :: i in first + rest <==> i in first || i in rest;
      forall a, b | 0 <= a < b < |first + rest| ensures (first + rest)[a] != (first + rest)[b] {
        assert a < |first| ==> first[a] in first && rest[b - |first|] in rest;
      }
    }
  }

  /** However events interleave, no instance is told twice that its result is recorded; the
      instances granted are exactly those told so, each under a grant id of its own, and every
      one of them has been cleared, failed or terminated. */
  lemma PaidAtMostOnce(es: seq<Event>)
    requires Runs(START, es)
    ensures
      var t, paid := After(START, es), AllPaid(START, es);
      && Distinct(paid)
      && (forall i :: i in t.grants <==> i in paid)
      && (forall i, j :: i in t.grants && j in t.grants && i != j ==> t.grants[i] != t.grants[j])
      && (forall i :: i in t.grants ==> i in t.instances.instances && Over(t.instances.instances[i].phase))
  {
    RunPays(START, es);
    hide Runs, After, AllPaid;
  }

  // ----- When a result is recorded -----

  predicate IsPlaying(s: State, sid: SessionId) {
    && sid in s.playing && s.playing[sid] in s.instances.instances
    && s.instances.instances[s.playing[sid]].phase == Instances.Playing
  }

  lemma PayOutRecords(s: State, i: Instances.InstanceId, character: nat, rewards: Items)
    ensures PayOut(s, i, character, rewards).1 == Recorded
       <==> ServerRewards.AllPositive(rewards) && Reward.SumAll(rewards) <= 100
  {
    var begun := CachedInventory.CachedStep(s.storage, InventoryStore.BeginTransaction).0;
    ServerRewards.AddAllCredits(begun, character, rewards, "dungeon_reward");
    ServerRewards.GrantCompletes(s.nextGrant, rewards);
    hide AddAll, CachedInventory.CachedStep, Reward.Grant, Reward.SumAll, ServerRewards.Credited, ServerRewards.AllPositive;
  }

  /** A result is recorded exactly when the session's instance is being played, its character is
      set, no count is zero and the counts fit a new reward inventory. */
  lemma RecordedExactly(s: State, sid: SessionId, cleared: bool, rewards: Items)
    requires GrantsOk(s)
    ensures Result(s, sid, cleared, rewards).1 == Recorded
       <==> IsPlaying(s, sid) && sid in s.characters
            && ServerRewards.AllPositive(rewards) && Reward.SumAll(rewards) <= 100
  {
    if sid in s.playing {
      var i := s.playing[sid];
      var to := if cleared then Instances.Clear else Instances.Fail;
      assert i in s.grants ==> i in s.instances.instances && Over(s.instances.instances[i].phase);
      EndsWhilePlaying(s.instances, i, to, s.parties);
      var instances := Instances.RequestTransition(s.instances, i, to, s.parties).0;
      hide GrantsOk, Instances.RequestTransition;
      if sid in s.characters {
        PayOutRecords(s.(instances := instances), i, s.characters[sid], rewards);
      }
      hide PayOut, ServerRewards.AllPositive, Reward.SumAll;
    }
  }

  lemma PayOutAnswers(s: State, i: Instances.InstanceId, character: nat, rewards: Items)
    ensures PayOut(s, i, character, rewards).1
         == if ServerRewards.AllPositive(rewards) && Reward.SumAll(rewards) <= 100 then Recorded else Refused(RewardFailed)
  {
    PayOutRecords(s, i, character, rewards);
    ServerRewards.GrantCompletes(s.nextGrant, rewards);
    PayOutShape(s, i, character, rewards);
    hide PayOut, Deposit, Reward.Grant, Reward.SumAll, ServerRewards.AllPositive;
  }

  /** What a result is answered in any state, in the order of the checks: no instance, an instance that
      is not there, one that is paid for, one that is not being played, no character, counts that are
      not all positive or sum to more than 100, and otherwise that it is recorded. */
  lemma ResultAnswers(s: State, sid: SessionId, cleared: bool, rewards: Items)
    ensures Result(s, sid, cleared, rewards).1
         == (if sid !in s.playing then Refused(NoInstance)
             else if s.playing[sid] !in s.instances.instances then Refused(InstanceNotFound)
             else if s.playing[sid] in s.grants then Refused(RewardDuplicate)
             else if s.instances.instances[s.playing[sid]].phase != Instances.Playing then Refused(InvalidState)
             else if sid !in s.characters then Refused(CharNotSet)
             else if !((forall r :: r in rewards ==> r.quantity > 0) && Reward.SumAll(rewards) <= 100)
             then Refused(RewardFailed) else Recorded)
  {
    if sid in s.playing {
      var i, to := s.playing[sid], if cleared then Instances.Clear else Instances.Fail;
      EndsWhilePlaying(s.instances, i, to, s.parties);
      if sid in s.characters {
        var instances := Instances.RequestTransition(s.instances, i, to, s.parties).0;
        PayOutAnswers(s.(instances := instances), i, s.characters[sid], rewards);
      }
    }
    hide PayOut, Instances.RequestTransition, Reward.SumAll;
  }

  lemma EndsWhilePlaying(s: Instances.State, i: Instances.InstanceId, to: Instances.Phase, parties: Party.State)
    requires to == Instances.Clear || to == Instances.Fail
    ensures Instances.RequestTransition(s, i, to, parties).1 <==> i in s.instances && s.instances[i].phase == Instances.Playing
  {
    hide Instances.IsPartyReady;
  }

  lemma PacketPaysOnlyPlaying(s: State, sid: SessionId, v: U16, stamp: Option<Session.Stamp>, r: Request, now: Time)
    requires GrantsOk(s) && sid in s.sessions
    ensures PaidBy(s, sid, r, Packet(s, sid, v, stamp, r, now).1) != [] ==> IsPlaying(s, sid)
  {
    ServerFrames.AdmitFrame(s, sid, v, stamp, now);
    var admitted := Admit(Receive(s, sid, v, now), sid, stamp).0;
    if r.ResultReq? {
      assert GrantsOk(admitted);
      hide Admit, Receive, GrantsOk, Result;
      RecordedExactly(admitted, sid, r.cleared, r.rewards);
    }
  }

  /** An instance that is over is not paid for in any later run. */
  lemma {:induction false} OverIsNeverPaid(s: State, es: seq<Event>, i: Instances.InstanceId)
    requires GrantsOk(s) && Runs(s, es) && i in s.instances.instances && Over(s.instances.instances[i].phase)
    ensures i !in AllPaid(s, es)
    decreases |es|
  {
    if es != [] {
      OverStepNotPaid(s, es[0], i);
      StepGrants(s, es[0]);
      hide Next, Enabled, Paid, GrantsOk, Over;
      OverIsNeverPaid(Next(s, es[0]), es[1..], i);
    }
  }

  lemma OverStepNotPaid(s: State, e: Event, i: Instances.InstanceId)
    requires GrantsOk(s) && Enabled(s, e) && i in s.instances.instances && Over(s.instances.instances[i].phase)
    ensures i !in Paid(s, e)
    ensures i in Next(s, e).instances.instances && Over(Next(s, e).instances.instances[i].phase)
  {
    StepGrows(s, e);
    hide Next, Paid, Packet, GrantsOk, Grows;
    StaysOver(s.parties, s.instances, Next(s, e).instances, i);
    if e.Deliver? {
      PaidIs(s, e.id, e.version, e.stamp, e.request, e.now);
      PacketPaysOnlyPlaying(s, e.id, e.version, e.stamp, e.request, e.now);
    } else {
      QuietGrants(s, e);
    }
  }

  lemma StepGrows(s: State, e: Event)
    requires GrantsOk(s) && Enabled(s, e)
    ensures Grows(s.parties, s.instances, Next(s, e).instances)
  {
    if e.Deliver? {
      ServerFrames.AdmitFrame(s, e.id, e.version, e.stamp, e.now);
      var (admitted, ok) := Admit(Receive(s, e.id, e.version, e.now), e.id, e.stamp);
      assert Grows(s.parties, s.instances, s.instances);
      if ok {
        HandleGrants(admitted, e.id, e.request, e.now);
      }
      hide Handle, Admit, Receive, Grows, Grants, GrantsOk;
    } else {
      QuietGrows(s, e);
    }
  }

  // ----- A result that ends its instance and pays nothing -----

  lemma ConcludeEnds(s: State, sid: SessionId, i: Instances.InstanceId, to: Instances.Phase, rewards: Items)
    requires i in s.instances.instances && s.instances.instances[i].phase == Instances.Playing
    requires to == Instances.Clear || to == Instances.Fail
    ensures
      var t := Conclude(s, sid, i, to, rewards).0;
      i in t.instances.instances && t.instances.instances[i].phase == to
  {
    ServerFrames.ConcludeFrame(s, sid, i, to, rewards);
    EndsWhilePlaying(s.instances, i, to, s.parties);
    hide Conclude, Instances.Grants;
  }

  /** A result for an instance that is being played ends it, whatever the answer. */
  lemma ResultEnds(s: State, sid: SessionId, cleared: bool, rewards: Items)
    requires GrantsOk(s) && IsPlaying(s, sid)
    ensures
      var t := Result(s, sid, cleared, rewards).0;
      && s.playing[sid] in t.instances.instances
      && t.instances.instances[s.playing[sid]].phase == if cleared then Instances.Clear else Instances.Fail
  {
    assert s.playing[sid] !in s.grants;
    ConcludeEnds(s, sid, s.playing[sid], if cleared then Instances.Clear else Instances.Fail, rewards);
    hide GrantsOk, Conclude;
  }

  /** What a result must bring to be recorded for the session's instance. */
  predicate Payable(s: State, sid: SessionId, rewards: Items) {
    sid in s.characters && ServerRewards.AllPositive(rewards) && Reward.SumAll(rewards) <= 100
  }

  lemma ResultDelivered(s: State, sid: SessionId, v: U16, stamp: Option<Session.Stamp>, cleared: bool, rewards: Items,
                        now: Time)
    requires sid in s.sessions && s.sessions[sid].user.Some? && Admit(Receive(s, sid, v, now), sid, stamp).1
    ensures Packet(s, sid, v, stamp, ResultReq(cleared, rewards), now)
         == Result(Admit(Receive(s, sid, v, now), sid, stamp).0, sid, cleared, rewards)
  {
    ServerFrames.PacketIs(s, sid, v, stamp, ResultReq(cleared, rewards), now);
    ServerFrames.AdmitFrame(s, sid, v, stamp, now);
    hide Packet, Admit, Receive, Result;
  }

  /** An admitted result of a logged-in session that is playing ends the instance, and is recorded
      exactly when it is payable. */
  lemma ResultPacket(s: State, sid: SessionId, v: U16, stamp: Option<Session.Stamp>, cleared: bool, rewards: Items, now: Time)
    requires GrantsOk(s) && sid in s.sessions && s.sessions[sid].user.Some? && IsPlaying(s, sid)
    requires Admit(Receive(s, sid, v, now), sid, stamp).1
    ensures
      var (t, reply) := Packet(s, sid, v, stamp, ResultReq(cleared, rewards), now);
      && s.playing[sid] in t.instances.instances && Over(t.instances.instances[s.playing[sid]].phase)
      && (reply == Recorded <==> Payable(s, sid, rewards))
  {
    ServerFrames.AdmitFrame(s, sid, v, stamp, now);
    ResultDelivered(s, sid, v, stamp, cleared, rewards, now);
    var admitted := Admit(Receive(s, sid, v, now), sid, stamp).0;
    assert GrantsOk(admitted);
    hide Packet, Admit, Receive, GrantsOk, Result, ServerRewards.AllPositive, Reward.SumAll;
    RecordedExactly(admitted, sid, cleared, rewards);
    ResultEnds(admitted, sid, cleared, rewards);
  }

  /** The first result of a played instance decides: the instance is paid for, by this packet or in
      any later run, if and only if the session has a character, no count is zero and the counts fit. */
  lemma PaidNowOrNever(s: State, sid: SessionId, v: U16, stamp: Option<Session.Stamp>, cleared: bool, rewards: Items,
                       now: Time, es: seq<Event>)
    requires GrantsOk(s) && sid in s.sessions && s.sessions[sid].user.Some? && IsPlaying(s, sid)
    requires Admit(Receive(s, sid, v, now), sid, stamp).1
    requires Runs(s, [Deliver(sid, v, stamp, ResultReq(cleared, rewards), now)] + es)
    ensures s.playing[sid] in AllPaid(s, [Deliver(sid, v, stamp, ResultReq(cleared, rewards), now)] + es)
       <==> Payable(s, sid, rewards)
  {
    var e := Deliver(sid, v, stamp, ResultReq(cleared, rewards), now);
    var i, run := s.playing[sid], [e] + es;
    assert run[0] == e && run[1..] == es;
    ResultPacket(s, sid, v, stamp, cleared, rewards, now);
    StepGrants(s, e);
    PaidIs(s, sid, v, stamp, ResultReq(cleared, rewards), now);
    assert Paid(s, e) == if Payable(s, sid, rewards) then [i] else [] by { hide Next, Paid, Packet, Payable, GrantsOk; }
    hide Next, Paid, PaidBy, Packet, Payable, GrantsOk, Over;
    OverIsNeverPaid(Next(s, e), es, i);
  }
}
