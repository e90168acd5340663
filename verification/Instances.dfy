/** The dungeon instance manager of src/dungeon/instance_manager.cpp. */
module Instances {
  import opened Common
  import Party

  type InstanceId = nat

  datatype Phase = Waiting | Ready | Playing | Clear | Fail | Terminate

  datatype InstanceRecord = InstanceRecord(id: InstanceId, party: Party.PartyId, phase: Phase)
  datatype State = State(nextId: nat, instances: map<InstanceId, InstanceRecord>)

  const EMPTY: State := State(1, map[])

  // ----- One call -----

  predicate TransitionAllowed(from: Phase, to: Phase) {
    match from
    case Waiting => to == Ready || to == Terminate
    case Ready => to == Playing || to == Terminate
    case Playing => to == Clear || to == Fail || to == Terminate
    case Clear => to == Terminate
    case Fail => to == Terminate
    case Terminate => false
  }

  predicate IsPartyReady(p: Party.PartyId, parties: Party.State) {
    && p in parties.parties
    && var party := parties.parties[p];
       && party.members != map[]
       && exists k :: k in party.members && party.members[k].session == party.leader
  }

  function Create(s: State, p: Party.PartyId, parties: Party.State): (State, Option<InstanceId>) {
    if p !in parties.parties then (s, None)
    else (State(s.nextId + 1, s.instances[s.nextId := InstanceRecord(s.nextId, p, Waiting)]), Some(s.nextId))
  }

  function SetPhase(s: State, i: InstanceId, phase: Phase): State
    requires i in s.instances
  {
    s.(instances := s.instances[i := s.instances[i].(phase := phase)])
  }

  function TerminateInstance(s: State, i: InstanceId): (State, bool) {
    if i in s.instances then (SetPhase(s, i, Terminate), true) else (s, false)
  }

  predicate Grants(s: State, i: InstanceId, to: Phase, parties: Party.State) {
    && i in s.instances
    && s.instances[i].phase != to
    && TransitionAllowed(s.instances[i].phase, to)
    && (to == Ready || to == Playing ==> IsPartyReady(s.instances[i].party, parties))
  }

  function RequestTransition(s: State, i: InstanceId, to: Phase, parties: Party.State): (State, bool) {
    if Grants(s, i, to, parties) then (SetPhase(s, i, to), true) else (s, false)
  }

  /** A request is granted exactly along one of these arrows, to Ready and Playing only for an existing
      party whose leader is among its members; the instance then has the phase asked for, and nothing
      else changes. */
  lemma RequestsExactly(s: State, i: InstanceId, to: Phase, parties: Party.State)
    ensures
      var (t, ok) := RequestTransition(s, i, to, parties);
      && (ok <==> && i in s.instances
                  && (s.instances[i].phase, to) in {(Waiting, Ready), (Ready, Playing), (Playing, Clear), (Playing, Fail),
                                                    (Waiting, Terminate), (Ready, Terminate), (Playing, Terminate),
                                                    (Clear, Terminate), (Fail, Terminate)}
                  && (to in {Ready, Playing} ==>
                        && s.instances[i].party in parties.parties
                        && var party := parties.parties[s.instances[i].party];
                           exists k :: k in party.members && party.members[k].session == party.leader))
      && (ok ==> t == s.(instances := s.instances[i := InstanceRecord(s.instances[i].id, s.instances[i].party, to)]))
      && (!ok ==> t == s)
  {
  }

  /** Exactly an existing party gets an instance: a waiting one, under the next id. */
  lemma CreatesExactly(s: State, p: Party.PartyId, parties: Party.State)
    ensures
      var (t, created) := Create(s, p, parties);
      && created == (if p in parties.parties then Some(s.nextId) else None)
      && (created.Some? ==>
            && t.nextId == s.nextId + 1
            && t.instances == s.instances[s.nextId := InstanceRecord(s.nextId, p, Waiting)])
      && (created.None? ==> t == s)
  {
  }

  /** Any instance there is can be terminated, from every phase. */
  lemma TerminatesExactly(s: State, i: InstanceId)
    ensures
      var (t, ok) := TerminateInstance(s, i);
      && (ok <==> i in s.instances)
      && t.nextId == s.nextId && t.instances.Keys == s.instances.Keys
      && (ok ==> t.instances[i] == InstanceRecord(s.instances[i].id, s.instances[i].party, Terminate))
      && (forall k :: k in s.instances && k != i ==> t.instances[k] == s.instances[k])
  {
  }

  // ----- Runs, with the party service as it is at each call -----

  datatype Op =
    | CreateOp(p: Party.PartyId, parties: Party.State)
    | TerminateOp(i: InstanceId)
    | RequestOp(i: InstanceId, to: Phase, parties: Party.State)

  function Step(s: State, op: Op): State {
    match op
    case CreateOp(p, parties) => Create(s, p, parties).0
    case TerminateOp(i) => TerminateInstance(s, i).0
    case RequestOp(i, to, parties) => RequestTransition(s, i, to, parties).0
  }

  function Run(s: State, ops: seq<Op>): State
    decreases |ops|
  {
    if ops == [] then s else Run(Step(s, ops[0]), ops[1..])
  }

  /** The phases instance `i` goes through, one entry per call plus the first. */
  function History(s: State, ops: seq<Op>, i: InstanceId): seq<Phase>
    requires i in s.instances && i < s.nextId
    decreases |ops|
  {
    [s.instances[i].phase] + if ops == [] then [] else History(Step(s, ops[0]), ops[1..], i)
  }

  function Rank(p: Phase): nat {
    match p
    case Waiting => 0
    case Ready => 1
    case Playing => 2
    case Clear => 3
    case Fail => 3
    case Terminate => 4
  }

  function Changes(h: seq<Phase>): nat {
    if |h| <= 1 then 0 else (if h[0] != h[1] then 1 else 0) + Changes(h[1..])
  }

  lemma StepRaisesRank(s: State, op: Op, i: InstanceId)
    requires i in s.instances && i < s.nextId
    ensures
      var next := Step(s, op);
      && i in next.instances && i < next.nextId
      && (next.instances[i].phase == s.instances[i].phase
          || Rank(s.instances[i].phase) < Rank(next.instances[i].phase))
  {
  }

  ghost predicate Climbs(h: seq<Phase>) {
    forall j, k :: 0 <= j < k < |h| ==> h[k] == h[j] || Rank(h[j]) < Rank(h[k])
  }

  /** A history of `n` steps that starts in this phase, climbs, and changes once for each rank at most. */
  ghost predicate ClimbsFrom(h: seq<Phase>, first: Phase, n: nat) {
    |h| == n + 1 && h[0] == first && Climbs(h) && Changes(h) + Rank(first) <= Rank(h[n])
  }

  lemma ClimbsAtStart(first: Phase)
    ensures ClimbsFrom([first], first, 0)
  {
  }

  lemma ClimbsOn(first: Phase, next: Phase, rest: seq<Phase>, n: nat)
    requires ClimbsFrom(rest, next, n) && (next == first || Rank(first) < Rank(next))
    ensures ClimbsFrom([first] + rest, first, n + 1)
  {
    var h := [first] + rest;
    assert h[1..] == rest;
    forall j, k | 0 <= j < k < |h|
      ensures h[k] == h[j] || Rank(h[j]) < Rank(h[k])
    {
      assert h[k] == rest[k - 1];
      if 0 < j {
        assert h[j] == rest[j - 1];
      }
    }
  }

  lemma {:induction false} HistoryClimbs(s: State, ops: seq<Op>, i: InstanceId)
    requires i in s.instances && i < s.nextId
    ensures ClimbsFrom(History(s, ops, i), s.instances[i].phase, |ops|)
    decreases |ops|
  {
    var first := s.instances[i].phase;
    ClimbsAtStart(first);
    hide Step, Rank, ClimbsFrom;
    if ops == [] {
      assert [first] + [] == [first];
    } else {
      var next := Step(s, ops[0]);
      StepRaisesRank(s, ops[0], i);
      HistoryClimbs(next, ops[1..], i);
      ClimbsOn(first, next.instances[i].phase, History(next, ops[1..], i), |ops| - 1);
    }
  }

  /** At most four changes, never both Clear and Fail, and Terminate is final. */
  ghost predicate Orderly(h: seq<Phase>) {
    && Changes(h) <= 4
    && !(Clear in h && Fail in h)
    && forall j, k :: 0 <= j < k < |h| && h[j] == Terminate ==> h[k] == Terminate
  }

  lemma ClimbingIsOrderly(h: seq<Phase>, first: Phase, n: nat)
    requires ClimbsFrom(h, first, n)
    ensures Orderly(h)
  {
    forall j, k | 0 <= j < |h| && 0 <= k < |h| && h[j] == Clear
      ensures h[k] != Fail
    {
      assert j != k ==> h[Min(j, k)] == h[Max(j, k)] || Rank(h[Min(j, k)]) < Rank(h[Max(j, k)]);
    }
  }

  /** However calls and party changes interleave, an instance changes phase at most four times,
      never sees both Clear and Fail, and never leaves Terminate. */
  lemma Lifecycle(s: State, ops: seq<Op>, i: InstanceId)
    requires i in s.instances && i < s.nextId
    ensures Orderly(History(s, ops, i))
  {
    HistoryClimbs(s, ops, i);
    ClimbingIsOrderly(History(s, ops, i), s.instances[i].phase, |ops|);
  }

  lemma ReadyWhereAgreed(parties: Party.State, p: Party.PartyId)
    requires Party.Agree(parties)
    ensures IsPartyReady(p, parties) <==> p in parties.parties
  {
    if p in parties.parties {
      var party := parties.parties[p];
      assert party.leader in party.members && party.members[party.leader].session == party.leader;
    }
  }

  /** In a party service reached by any run, a party is ready exactly when it exists. */
  lemma ReadyMeansExists(ops: seq<Party.Op>, p: Party.PartyId)
    ensures
      var parties := Party.Run(Party.EMPTY, ops);
      IsPartyReady(p, parties) <==> p in parties.parties
  {
    Party.RunAgrees(Party.EMPTY, ops);
    hide IsPartyReady, Party.Run;
    ReadyWhereAgreed(Party.Run(Party.EMPTY, ops), p);
  }

  // ----- The manager object -----

  class InstanceManager {
    var nextInstanceId: nat
    var instances: map<InstanceId, InstanceRecord>

    function View(): State
      reads this
    {
      State(nextInstanceId, instances)
    }

    constructor ()
      ensures View() == EMPTY
    {
      nextInstanceId, instances := 1, map[];
    }

    method CreateInstance(p: Party.PartyId, parties: Party.PartyService) returns (id: Option<InstanceId>)
      modifies this
      ensures (View(), id) == Create(old(View()), p, parties.View())
    {
      if p !in parties.parties {
        return None;
      }
      var record := InstanceRecord(nextInstanceId, p, Waiting);
      nextInstanceId := nextInstanceId + 1;
      instances := instances[record.id := record];
      return Some(record.id);
    }

    method TerminateById(i: InstanceId) returns (ok: bool)
      modifies this
      ensures (View(), ok) == TerminateInstance(old(View()), i)
    {
      if i !in instances {
        return false;
      }
      instances := instances[i := instances[i].(phase := Terminate)];
      return true;
    }

    method Request(i: InstanceId, to: Phase, parties: Party.PartyService) returns (ok: bool)
      modifies this
      ensures (View(), ok) == RequestTransition(old(View()), i, to, parties.View())
    {
      if i !in instances {
        return false;
      }
      var record := instances[i];
      if record.phase == to || !TransitionAllowed(record.phase, to) {
        return false;
      }
      if (to == Ready || to == Playing) && !IsPartyReady(record.party, parties.View()) {
        return false;
      }
      instances := instances[i := record.(phase := to)];
      return true;
    }
  }
}
