/** The party service of src/party/party.cpp: parties, the member index and pending invites.

    `State` is the value of the service and each function below one call on it; events are left
    out. Main results: over every run the three maps agree; expiring invites before or after an
    acceptance comes to the same; a leaving leader disbands; a session replacement is a
    renaming. */
module Party {
  import opened Common

  type PartyId = nat

  datatype Member = Member(session: SessionId, user: string)
  datatype PartyRecord = PartyRecord(id: PartyId, leader: SessionId, members: map<SessionId, Member>)
  datatype Invite = PendingInvite(inviter: SessionId, user: string, sentAt: Time)
  type Invites = map<SessionId, Invite>

  datatype State = State(
    nextId: nat,
    parties: map<PartyId, PartyRecord>,
    index: map<SessionId, PartyId>,
    invites: map<PartyId, Invites>,
    timeout: Time)

  const EMPTY: State := State(1, map[], map[], map[], 300_000)

  // ----- One call -----

  function Create(s: State, leader: SessionId, user: string): (State, Option<PartyId>) {
    if leader in s.index then (s, None)
    else
      var record := PartyRecord(s.nextId, leader, map[leader := Member(leader, user)]);
      (s.(nextId := s.nextId + 1,
          parties := s.parties[s.nextId := record],
          index := s.index[leader := s.nextId]), Some(s.nextId))
  }

  function InvitesOf(s: State, p: PartyId): Invites {
    if p in s.invites then s.invites[p] else map[]
  }

  function InviteMember(s: State, p: PartyId, inviter: SessionId, invitee: SessionId, user: string, now: Time)
    : (State, bool)
  {
    if p !in s.parties || inviter !in s.parties[p].members || invitee in s.index then (s, false)
    else if invitee in InvitesOf(s, p) then (s, false)
    else
      (s.(invites := s.invites[p := InvitesOf(s, p)[invitee := PendingInvite(inviter, user, now)]]), true)
  }

  predicate Expired(timeout: Time, invite: Invite, now: Time) {
    now - invite.sentAt > timeout
  }

  function DropInvite(s: State, p: PartyId, invitee: SessionId): State {
    if p in s.invites then s.(invites := s.invites[p := s.invites[p] - {invitee}]) else s
  }

  function AcceptInvite(s: State, p: PartyId, invitee: SessionId, now: Time): (State, bool) {
    if p !in s.parties || invitee !in InvitesOf(s, p) then (s, false)
    else
      var invite := s.invites[p][invitee];
      if Expired(s.timeout, invite, now) || invitee in s.index then (DropInvite(s, p, invitee), false)
      else
        var party := s.parties[p];
        var members := if invitee in party.members then party.members
                       else party.members[invitee := Member(invitee, invite.user)];
        (DropInvite(s, p, invitee).(
           parties := s.parties[p := party.(members := members)],
           index := s.index[invitee := p]), true)
  }

  function RejectInvite(s: State, p: PartyId, invitee: SessionId): (State, bool) {
    if p !in s.parties || invitee !in InvitesOf(s, p) then (s, false)
    else (DropInvite(s, p, invitee), true)
  }

  /** The index loses every member, the party and its invites go. */
  function Dissolve(s: State, p: PartyId): State
    requires p in s.parties
  {
    s.(parties := s.parties - {p},
       index := s.index - s.parties[p].members.Keys,
       invites := s.invites - {p})
  }

  function Disband(s: State, p: PartyId, requester: SessionId): (State, bool) {
    if p !in s.parties || s.parties[p].leader != requester then (s, false)
    else (Dissolve(s, p), true)
  }

  /** What removeMember does to a member that does not lead. */
  function DropMember(s: State, p: PartyId, session: SessionId): State
    requires p in s.parties
  {
    var party := s.parties[p];
    DropInvite(s, p, session).(
      parties := s.parties[p := party.(members := party.members - {session})],
      index := s.index - {session})
  }

  function RemoveMember(s: State, session: SessionId): (State, bool) {
    if session !in s.index then (s, false)
    else
      var p := s.index[session];
      if p !in s.parties then (s.(index := s.index - {session}), false)
      else if s.parties[p].leader == session then (Dissolve(s, p), true)
      else (DropMember(s, p, session), true)
  }

  /** Moves a pending invite to the new session, unless the new session has one already. */
  function MoveInvite(invites: Invites, from: SessionId, to: SessionId): Invites {
    if from !in invites then invites
    else if to in invites then invites - {from}
    else (invites - {from})[to := invites[from]]
  }

  function MoveInvites(invites: map<PartyId, Invites>, from: SessionId, to: SessionId): map<PartyId, Invites> {
    map p | p in invites :: MoveInvite(invites[p], from, to)
  }

  /** The record with member `from` filed under `to`, and `to` leading if `from` did. */
  function ReplaceIn(party: PartyRecord, from: SessionId, to: SessionId): PartyRecord
    requires from in party.members
  {
    var rest := party.members - {from};
    var members := if to in rest then rest else rest[to := party.members[from].(session := to)];
    party.(leader := if party.leader == from then to else party.leader, members := members)
  }

  function ReplaceMember(s: State, from: SessionId, to: SessionId): (State, bool) {
    if from == to then (s, true)
    else if from !in s.index || to in s.index then (s, false)
    else
      var p := s.index[from];
      if p !in s.parties || from !in s.parties[p].members then (s, false)
      else
        (s.(parties := s.parties[p := ReplaceIn(s.parties[p], from, to)],
            index := (s.index - {from})[to := p],
            invites := MoveInvites(s.invites, from, to)), true)
  }

  function FreshOnly(timeout: Time, invites: Invites, now: Time): Invites {
    map k | k in invites && !Expired(timeout, invites[k], now) :: invites[k]
  }

  /** The (party, invitee) pairs `ExpireInvites` removes. */
  function ExpiredPairs(s: State, now: Time): set<(PartyId, SessionId)> {
    set p, k | p in s.parties && p in s.invites && k in s.invites[p] && Expired(s.timeout, s.invites[p][k], now) :: (p, k)
  }

  function Swept(s: State, now: Time): State {
    s.(invites := map p | p in s.invites ::
         if p in s.parties then FreshOnly(s.timeout, s.invites[p], now) else s.invites[p])
  }

  function ExpireInvites(s: State, now: Time): (State, nat) {
    (Swept(s, now), |ExpiredPairs(s, now)|)
  }

  // ----- What each call does to parties, members and invites -----

  /** The invite of this session to this party that waits for an answer. */
  function Pending(s: State, p: PartyId, k: SessionId): Option<Invite> {
    if p in s.invites && k in s.invites[p] then Some(s.invites[p][k]) else None
  }

  /** No party but `p` is added, dropped or changed. */
  ghost predicate OtherPartiesStay(s: State, t: State, p: PartyId) {
    forall q :: q != p ==> (q in t.parties <==> q in s.parties) && (q in s.parties ==> t.parties[q] == s.parties[q])
  }

  /** No invite but those this predicate picks is added, dropped or changed. */
  ghost predicate OtherInvitesStay(s: State, t: State, picked: (PartyId, SessionId) -> bool) {
    forall q, j :: !picked(q, j) ==> Pending(t, q, j) == Pending(s, q, j)
  }

  /** A session in no party, and only such a one, founds a party of its own under the next id. */
  lemma CreatesExactly(s: State, leader: SessionId, user: string)
    ensures
      var (t, created) := Create(s, leader, user);
      && created == (if leader in s.index then None else Some(s.nextId))
      && (created.None? ==> t == s)
      && (created.Some? ==>
            && t == s.(nextId := s.nextId + 1, parties := t.parties, index := s.index[leader := s.nextId])
            && OtherPartiesStay(s, t, s.nextId) && s.nextId in t.parties
            && t.parties[s.nextId] == PartyRecord(s.nextId, leader, map[leader := Member(leader, user)]))
  {
  }

  /** An invite is filed exactly by a member of an existing party, for a session that is in no party
      and not yet invited to this one; no other invite and nothing else is touched. */
  lemma InvitesExactly(s: State, p: PartyId, inviter: SessionId, invitee: SessionId, user: string, now: Time)
    ensures
      var (t, ok) := InviteMember(s, p, inviter, invitee, user, now);
      && (ok <==> p in s.parties && inviter in s.parties[p].members && invitee !in s.index && Pending(s, p, invitee).None?)
      && t == s.(invites := t.invites)
      && (ok ==> Pending(t, p, invitee) == Some(PendingInvite(inviter, user, now)))
      && OtherInvitesStay(s, t, (q, j) => ok && q == p && j == invitee)
  {
  }

  /** An acceptance goes through exactly if the invite is no older than the timeout and the session is
      still in no party; the session is then a member under the invite's user name. Any answer to an
      invite uses it up, and no other invite, party or session is touched. */
  lemma AcceptsExactly(s: State, p: PartyId, invitee: SessionId, now: Time)
    ensures
      var (t, ok) := AcceptInvite(s, p, invitee, now);
      var invite := Pending(s, p, invitee);
      && (ok <==> p in s.parties && invite.Some? && now - invite.value.sentAt <= s.timeout && invitee !in s.index)
      && t == s.(parties := t.parties, index := t.index, invites := t.invites)
      && OtherPartiesStay(s, t, p)
      && t.index == (if ok then s.index[invitee := p] else s.index)
      && (!ok ==> t.parties == s.parties)
      && (ok ==>
            && p in t.parties && t.parties[p] == s.parties[p].(members := t.parties[p].members)
            && invitee in t.parties[p].members
            && (invitee !in s.parties[p].members ==> t.parties[p].members[invitee] == Member(invitee, invite.value.user))
            && t.parties[p].members.Keys == s.parties[p].members.Keys + {invitee}
            && forall k :: k in s.parties[p].members ==> t.parties[p].members[k] == s.parties[p].members[k])
      && (p in s.parties ==> Pending(t, p, invitee).None?)
      && OtherInvitesStay(s, t, (q, j) => p in s.parties && q == p && j == invitee)
  {
  }

  /** A rejection goes through exactly for an invite that waits, and takes that invite alone away. */
  lemma RejectsExactly(s: State, p: PartyId, invitee: SessionId)
    ensures
      var (t, ok) := RejectInvite(s, p, invitee);
      && (ok <==> p in s.parties && Pending(s, p, invitee).Some?)
      && t == s.(invites := t.invites)
      && (ok ==> Pending(t, p, invitee).None?)
      && OtherInvitesStay(s, t, (q, j) => ok && q == p && j == invitee)
  {
  }

  /** A party is disbanded exactly by its leader: it is gone with all its invites, its members are in
      no party, and no other party, session or invite is touched. */
  lemma DisbandsExactly(s: State, p: PartyId, requester: SessionId)
    ensures
      var (t, ok) := Disband(s, p, requester);
      && (ok <==> p in s.parties && s.parties[p].leader == requester)
      && (!ok ==> t == s)
      && (ok ==> DisbandedOnly(s, t, p))
  {
  }

  ghost predicate DisbandedOnly(s: State, t: State, p: PartyId)
    requires p in s.parties
  {
    && t == s.(parties := t.parties, index := t.index, invites := t.invites)
    && p !in t.parties && OtherPartiesStay(s, t, p)
    && (forall k :: k in t.index <==> k in s.index && k !in s.parties[p].members)
    && (forall k :: k in t.index ==> t.index[k] == s.index[k])
    && (forall k :: Pending(t, p, k).None?)
    && OtherInvitesStay(s, t, (q, j) => q == p)
  }

  /** Exactly an indexed session whose party exists is removed: a leader takes the party along, any
      other member leaves it alone with the invite it may still have to it. An index entry without a
      party is only forgotten. */
  lemma RemovesExactly(s: State, session: SessionId)
    ensures
      var (t, ok) := RemoveMember(s, session);
      && (ok <==> session in s.index && s.index[session] in s.parties)
      && (session !in s.index ==> t == s)
      && (session in s.index && s.index[session] !in s.parties ==> t == s.(index := s.index - {session}))
      && (ok ==>
            var p := s.index[session];
            if s.parties[p].leader == session then DisbandedOnly(s, t, p)
            else
              && t == s.(parties := t.parties, index := s.index - {session}, invites := t.invites)
              && OtherPartiesStay(s, t, p) && p in t.parties
              && t.parties[p] == s.parties[p].(members := s.parties[p].members - {session})
              && Pending(t, p, session).None?
              && OtherInvitesStay(s, t, (q, j) => q == p && j == session))
  {
    hide Dissolve;
    if session in s.index && s.index[session] in s.parties {
      var p := s.index[session];
      DisbandsExactly(s, p, s.parties[p].leader);
      assert Disband(s, p, s.parties[p].leader).0 == Dissolve(s, p);
    }
    hide DisbandedOnly;
  }

  /** A replacement goes through exactly if the sessions are the same, or the old one is listed in the
      party it is filed under and the new one is in none. */
  lemma ReplacesExactly(s: State, from: SessionId, to: SessionId)
    ensures
      var (t, ok) := ReplaceMember(s, from, to);
      && (ok <==> || from == to
                  || (from in s.index && to !in s.index && s.index[from] in s.parties
                      && from in s.parties[s.index[from]].members))
      && (!ok || from == to ==> t == s)
  {
    hide ReplaceIn, MoveInvites;
  }

  /** A sweep takes away exactly the invites to existing parties that are older than the timeout. */
  lemma ExpiresExactly(s: State, now: Time)
    ensures
      var (t, n) := ExpireInvites(s, now);
      && t == s.(invites := t.invites) && t.invites.Keys == s.invites.Keys
      && forall p, k ::
           Pending(t, p, k) == if p in s.parties && Pending(s, p, k).Some? && now - Pending(s, p, k).value.sentAt > s.timeout
                               then None else Pending(s, p, k)
  {
  }

  // ----- Runs -----

  datatype Op =
    | CreateOp(leader: SessionId, user: string)
    | InviteOp(p: PartyId, inviter: SessionId, invitee: SessionId, user: string, now: Time)
    | AcceptOp(p: PartyId, invitee: SessionId, now: Time)
    | RejectOp(p: PartyId, invitee: SessionId)
    | DisbandOp(p: PartyId, requester: SessionId)
    | RemoveOp(session: SessionId)
    | ReplaceOp(from: SessionId, to: SessionId)
    | ExpireOp(now: Time)
    | SetTimeoutOp(timeout: Time)

  function Step(s: State, op: Op): State {
    match op
    case CreateOp(leader, user) => Create(s, leader, user).0
    case InviteOp(p, inviter, invitee, user, now) => InviteMember(s, p, inviter, invitee, user, now).0
    case AcceptOp(p, invitee, now) => AcceptInvite(s, p, invitee, now).0
    case RejectOp(p, invitee) => RejectInvite(s, p, invitee).0
    case DisbandOp(p, requester) => Disband(s, p, requester).0
    case RemoveOp(session) => RemoveMember(s, session).0
    case ReplaceOp(from, to) => ReplaceMember(s, from, to).0
    case ExpireOp(now) => ExpireInvites(s, now).0
    case SetTimeoutOp(timeout) => s.(timeout := timeout)
  }

  function Run(s: State, ops: seq<Op>): State
    decreases |ops|
  {
    if ops == [] then s else Run(Step(s, ops[0]), ops[1..])
  }

  lemma {:induction false} TimeoutStays(s: State, ops: seq<Op>)
    requires forall op :: op in ops ==> !op.SetTimeoutOp?
    ensures Run(s, ops).timeout == s.timeout
    decreases |ops|
  {
    hide ReplaceIn, MoveInvites, InvitesOf, Expired;
    if ops != [] {
      assert ops[0] in ops;
      TimeoutStays(Step(s, ops[0]), ops[1..]);
    }
  }

  /** In every run of a new service whose timeout nobody sets, an invite is accepted exactly if it is
      no older than 300 seconds, its party exists and the session is in none. */
  lemma InvitesLastFiveMinutes(ops: seq<Op>, p: PartyId, invitee: SessionId, now: Time)
    requires forall op :: op in ops ==> !op.SetTimeoutOp?
    ensures
      var s := Run(EMPTY, ops);
      AcceptInvite(s, p, invitee, now).1
      <==> && p in s.parties && invitee !in s.index
           && Pending(s, p, invitee).Some? && now - Pending(s, p, invitee).value.sentAt <= 300_000
  {
    TimeoutStays(EMPTY, ops);
    AcceptsExactly(Run(EMPTY, ops), p, invitee, now);
    hide AcceptInvite, Run;
  }

  // ----- The three maps agree -----

  ghost predicate RecordsOk(s: State) {
    forall p :: p in s.parties ==>
      && p < s.nextId
      && s.parties[p].id == p
      && s.parties[p].leader in s.parties[p].members
      && forall k :: k in s.parties[p].members ==> s.parties[p].members[k].session == k
  }

  /** The index maps a session to a party exactly when that party exists and lists it. */
  ghost predicate IndexOk(s: State) {
    && (forall k :: k in s.index ==> s.index[k] in s.parties && k in s.parties[s.index[k]].members)
    && (forall p, k :: p in s.parties && k in s.parties[p].members ==> k in s.index && s.index[k] == p)
  }

  ghost predicate Agree(s: State) {
    RecordsOk(s) && IndexOk(s) && s.invites.Keys <= s.parties.Keys
  }

  /** A session in no party founds one. */
  lemma FoundKeepsIndex(s: State, t: State, p: PartyId, k: SessionId)
    requires IndexOk(s) && p !in s.parties && k !in s.index
    requires t.parties.Keys == s.parties.Keys + {p} && t.parties[p].members.Keys == {k}
    requires forall q :: q in s.parties ==> t.parties[q].members.Keys == s.parties[q].members.Keys
    requires t.index == s.index[k := p]
    ensures IndexOk(t)
  {
    forall j | j in t.index ensures t.index[j] in t.parties && j in t.parties[t.index[j]].members {
      assert j != k ==> j in s.index && j in s.parties[s.index[j]].members.Keys;
    }
    forall q, j | q in t.parties && j in t.parties[q].members ensures j in t.index && t.index[j] == q {
      assert j in t.parties[q].members.Keys && (q in s.parties ==> j in s.parties[q].members);
    }
  }

  lemma CreateAgrees(s: State, leader: SessionId, user: string)
    requires Agree(s)
    ensures Agree(Create(s, leader, user).0)
  {
    var after := Create(s, leader, user).0;
    assert s.nextId !in s.parties;
    if leader !in s.index {
      assert after.parties[s.nextId].members.Keys == {leader};
      FoundKeepsIndex(s, after, s.nextId, leader);
    }
    assert RecordsOk(after) by { hide IndexOk; }
    hide IndexOk, RecordsOk;
  }

  /** A session in no party joins one. */
  lemma JoinKeepsIndex(s: State, t: State, p: PartyId, k: SessionId)
    requires IndexOk(s) && p in s.parties && k !in s.index
    requires t.parties.Keys == s.parties.Keys && t.parties[p].members.Keys == s.parties[p].members.Keys + {k}
    requires forall q :: q in s.parties && q != p ==> t.parties[q].members.Keys == s.parties[q].members.Keys
    requires t.index == s.index[k := p]
    ensures IndexOk(t)
  {
    forall j | j in t.index ensures t.index[j] in t.parties && j in t.parties[t.index[j]].members {
      assert j != k ==> j in s.index && j in s.parties[s.index[j]].members.Keys;
    }
    forall q, j | q in t.parties && j in t.parties[q].members ensures j in t.index && t.index[j] == q {
      assert j in t.parties[q].members.Keys && (j in s.parties[q].members || (q == p && j == k));
    }
  }

  lemma JoinKeepsRecords(s: State, t: State, p: PartyId, member: Member)
    requires RecordsOk(s) && p in s.parties
    requires t.parties == s.parties[p := s.parties[p].(members := s.parties[p].members[member.session := member])]
    requires t.nextId == s.nextId
    ensures RecordsOk(t)
  {
  }

  lemma AcceptAgrees(s: State, p: PartyId, invitee: SessionId, now: Time)
    requires Agree(s)
    ensures Agree(AcceptInvite(s, p, invitee, now).0)
  {
    var (t, ok) := AcceptInvite(s, p, invitee, now);
    if ok {
      assert invitee !in s.parties[p].members && p in s.invites;
      JoinKeepsRecords(s, t, p, Member(invitee, s.invites[p][invitee].user));
      JoinKeepsIndex(s, t, p, invitee);
      hide RecordsOk, IndexOk, Expired;
    } else {
      hide Expired;
    }
  }

  lemma DissolveAgrees(s: State, p: PartyId)
    requires Agree(s) && p in s.parties
    ensures Agree(Dissolve(s, p)) && s.parties[p].leader !in Dissolve(s, p).index
  {
    forall q, k | q in s.parties && q != p && k in s.parties[q].members
      ensures k !in s.parties[p].members
    {
      assert s.index[k] == q;
    }
  }

  lemma DropAgrees(s: State, p: PartyId, session: SessionId)
    requires Agree(s) && p in s.parties && session in s.parties[p].members && session != s.parties[p].leader
    ensures Agree(DropMember(s, p, session)) && session !in DropMember(s, p, session).index
  {
    assert s.index[session] == p;
  }

  lemma RemoveAgrees(s: State, session: SessionId)
    requires Agree(s)
    ensures Agree(RemoveMember(s, session).0)
    ensures session !in RemoveMember(s, session).0.index
  {
    if session in s.index {
      var p := s.index[session];
      assert p in s.parties && session in s.parties[p].members;
      hide Agree, Dissolve, DropMember;
      if s.parties[p].leader == session {
        DissolveAgrees(s, p);
      } else {
        DropAgrees(s, p, session);
      }
    }
  }

  lemma ReplaceInMembers(party: PartyRecord, from: SessionId, to: SessionId)
    requires from in party.members && from != to
    ensures ReplaceIn(party, from, to).members.Keys == party.members.Keys - {from} + {to}
  {
  }

  lemma ReplaceKeepsIndex(s: State, from: SessionId, to: SessionId)
    requires IndexOk(s) && from != to && from in s.index && to !in s.index
    ensures IndexOk(ReplaceMember(s, from, to).0)
  {
    var p := s.index[from];
    ReplaceInMembers(s.parties[p], from, to);
    hide ReplaceIn, MoveInvites;
  }

  lemma ReplaceKeepsRecords(s: State, from: SessionId, to: SessionId)
    requires RecordsOk(s) && IndexOk(s) && from != to && from in s.index && to !in s.index
    ensures RecordsOk(ReplaceMember(s, from, to).0)
  {
    var p := s.index[from];
    assert p in s.parties && from in s.parties[p].members;
    hide IndexOk, MoveInvites;
  }

  lemma ReplaceAgrees(s: State, from: SessionId, to: SessionId)
    requires Agree(s)
    ensures Agree(ReplaceMember(s, from, to).0)
  {
    if from != to && from in s.index && to !in s.index {
      ReplaceKeepsIndex(s, from, to);
      ReplaceKeepsRecords(s, from, to);
      hide ReplaceIn, MoveInvite, IndexOk, RecordsOk;
    } else {
      hide ReplaceIn, MoveInvites, IndexOk, RecordsOk;
    }
  }

  lemma StepAgrees(s: State, op: Op)
    requires Agree(s)
    ensures Agree(Step(s, op))
  {
    hide Create, AcceptInvite, Dissolve, RemoveMember, ReplaceMember, FreshOnly, Expired;
    match op
    case CreateOp(leader, user) => CreateAgrees(s, leader, user);
    case AcceptOp(p, invitee, now) => AcceptAgrees(s, p, invitee, now);
    case DisbandOp(p, requester) => if p in s.parties { DissolveAgrees(s, p); }
    case RemoveOp(session) => RemoveAgrees(s, session);
    case ReplaceOp(from, to) => ReplaceAgrees(s, from, to);
    case _ =>
  }

  /** After every run of the service, parties, index and invites agree. */
  lemma {:induction false} RunAgrees(s: State, ops: seq<Op>)
    requires Agree(s)
    ensures Agree(Run(s, ops))
    decreases |ops|
  {
    if ops != [] {
      StepAgrees(s, ops[0]);
      RunAgrees(Step(s, ops[0]), ops[1..]);
    }
  }

  /** A leader who leaves does to the service what disbanding the party does. */
  lemma LeaderLeavingDisbands(s: State, ops: seq<Op>, session: SessionId)
    requires s == Run(EMPTY, ops)
    requires session in s.index && s.index[session] in s.parties && s.parties[s.index[session]].leader == session
    ensures RemoveMember(s, session) == Disband(s, s.index[session], session)
  {
    RunAgrees(EMPTY, ops);
  }

  /** Parties may have gone from `s` to `t`, and any new one has a new id. */
  ghost predicate NoneRevived(s: State, t: State) {
    s.nextId <= t.nextId && forall p :: p in t.parties ==> p in s.parties || s.nextId <= p
  }

  lemma StepRevivesNone(s: State, op: Op)
    ensures NoneRevived(s, Step(s, op))
  {
    hide Expired, MoveInvites;
  }

  // ----- Lazy and eager expiry -----

  /** Dropping one entry and sweeping commute. */
  lemma SweepAfterDrop(s: State, p: PartyId, invitee: SessionId, now: Time)
    requires p in s.parties && p in s.invites
    ensures Swept(DropInvite(s, p, invitee), now) == DropInvite(Swept(s, now), p, invitee)
  {
    assert FreshOnly(s.timeout, s.invites[p] - {invitee}, now) == FreshOnly(s.timeout, s.invites[p], now) - {invitee};
    assert Swept(DropInvite(s, p, invitee), now).invites == DropInvite(Swept(s, now), p, invitee).invites;
  }

  lemma PairsAfterAccept(s: State, p: PartyId, invitee: SessionId, now: Time)
    requires p in s.parties && invitee in InvitesOf(s, p)
    ensures ExpiredPairs(AcceptInvite(s, p, invitee, now).0, now) == ExpiredPairs(s, now) - {(p, invitee)}
  {
  }

  /** Sweeping first answers an acceptance as sweeping after it does, and leaves the same state. */
  ghost predicate SameEitherWay(s: State, p: PartyId, invitee: SessionId, now: Time) {
    var (asked, answer) := AcceptInvite(s, p, invitee, now);
    AcceptInvite(Swept(s, now), p, invitee, now) == (Swept(asked, now), answer)
  }

  lemma SameWhenExpired(s: State, p: PartyId, invitee: SessionId, now: Time)
    requires p in s.parties && invitee in InvitesOf(s, p) && Expired(s.timeout, s.invites[p][invitee], now)
    ensures SameEitherWay(s, p, invitee, now)
  {
    var swept := Swept(s, now);
    SweepAfterDrop(s, p, invitee, now);
    assert swept.invites[p] - {invitee} == swept.invites[p];
    assert DropInvite(swept, p, invitee).invites == swept.invites;
  }

  lemma SameWhenTimely(s: State, p: PartyId, invitee: SessionId, now: Time)
    requires p in s.parties && invitee in InvitesOf(s, p) && !Expired(s.timeout, s.invites[p][invitee], now)
    ensures SameEitherWay(s, p, invitee, now)
  {
    var swept := Swept(s, now);
    var asked := AcceptInvite(s, p, invitee, now).0;
    assert swept.invites[p][invitee] == s.invites[p][invitee];
    SweepAfterDrop(s, p, invitee, now);
    assert Swept(asked, now).invites == Swept(DropInvite(s, p, invitee), now).invites;
  }

  /** For one clock reading, sweeping the expired invites before an acceptance or after it gives
      the acceptance the same answer and ends in the same state; the sweep counts one invite
      more when it comes first and the invite to be accepted has itself expired. */
  lemma LazyAndEagerExpiryAgree(s: State, p: PartyId, invitee: SessionId, now: Time)
    ensures SameEitherWay(s, p, invitee, now)
    ensures
      var asked := AcceptInvite(s, p, invitee, now).0;
      ExpireInvites(s, now).1
        == ExpireInvites(asked, now).1 + if (p, invitee) in ExpiredPairs(s, now) then 1 else 0
  {
    if p !in s.parties || invitee !in InvitesOf(s, p) {
      assert invitee !in InvitesOf(Swept(s, now), p) || p !in s.parties;
    } else {
      if Expired(s.timeout, s.invites[p][invitee], now) {
        SameWhenExpired(s, p, invitee, now);
      } else {
        SameWhenTimely(s, p, invitee, now);
      }
      PairsAfterAccept(s, p, invitee, now);
    }
  }

  /** After the sweep no invite of any party is past the timeout, and the count it returns is the
      number of (party, invitee) entries that went. */
  lemma SweepIsComplete(ops: seq<Op>, now: Time)
    ensures
      var s := Run(EMPTY, ops);
      var (swept, count) := ExpireInvites(s, now);
      && (forall p, k :: p in swept.invites && k in swept.invites[p] ==> !Expired(swept.timeout, swept.invites[p][k], now))
      && count == |set p, k | p in s.invites && k in s.invites[p] && k !in swept.invites[p] :: (p, k)|
  {
    RunAgrees(EMPTY, ops);
    var s := Run(EMPTY, ops);
    var swept := ExpireInvites(s, now).0;
    assert ExpiredPairs(s, now)
        == set p, k | p in s.invites && k in s.invites[p] && k !in swept.invites[p] :: (p, k);
  }

  // ----- Replacing a session is a renaming -----

  function RenameMember(m: Member, from: SessionId, to: SessionId): Member {
    m.(session := Renamed(m.session, from, to))
  }

  function RenameParty(party: PartyRecord, from: SessionId, to: SessionId): PartyRecord
    requires to !in party.members
  {
    var members := RenameKey(party.members, from, to);
    party.(leader := Renamed(party.leader, from, to),
           members := map k | k in members :: RenameMember(members[k], from, to))
  }

  ghost predicate MembersOk(party: PartyRecord) {
    party.leader in party.members && forall k :: k in party.members ==> party.members[k].session == k
  }

  lemma ReplaceInRenames(party: PartyRecord, from: SessionId, to: SessionId)
    requires MembersOk(party) && from != to && to !in party.members
    ensures RenameParty(party, from, to) == if from in party.members then ReplaceIn(party, from, to) else party
    ensures from !in RenameParty(party, from, to).members && RenameParty(party, from, to).leader != from
  {
    RenameKeyIs(party.members, from, to);
    if from in party.members {
      assert ReplaceIn(party, from, to).members == RenameParty(party, from, to).members;
    } else {
      assert RenameParty(party, from, to).members == party.members;
    }
  }

  lemma ReplaceRenamesParty(s: State, from: SessionId, to: SessionId, p: PartyId)
    requires Agree(s) && from != to && to !in s.index && p in s.parties
    ensures
      var after := ReplaceMember(s, from, to).0;
      && to !in s.parties[p].members
      && p in after.parties
      && after.parties[p] == RenameParty(s.parties[p], from, to)
      && from !in after.parties[p].members && after.parties[p].leader != from
  {
    assert to in s.parties[p].members ==> to in s.index;
    assert MembersOk(s.parties[p]);
    ReplaceInRenames(s.parties[p], from, to);
    assert from in s.parties[p].members <==> from in s.index && s.index[from] == p;
  }

  /** When the new session is in no party, replacing a member leaves every party and the index as
      the image of the old ones under the renaming, none of them names the old session, and the
      next id and the timeout stay. */
  lemma ReplaceRenames(s: State, from: SessionId, to: SessionId)
    requires Agree(s) && from != to && to !in s.index
    ensures
      var after := ReplaceMember(s, from, to).0;
      && after.parties.Keys == s.parties.Keys
      && (forall p :: p in s.parties ==>
            to !in s.parties[p].members && after.parties[p] == RenameParty(s.parties[p], from, to))
      && after.index == RenameKey(s.index, from, to)
      && from !in after.index
      && (forall p :: p in after.parties ==> from !in after.parties[p].members && after.parties[p].leader != from)
      && after.nextId == s.nextId && after.timeout == s.timeout
  {
    ReplaceShape(s, from, to);
    hide ReplaceMember;
    forall p | p in s.parties
      ensures
        var after := ReplaceMember(s, from, to).0;
        && to !in s.parties[p].members && after.parties[p] == RenameParty(s.parties[p], from, to)
        && from !in after.parties[p].members && after.parties[p].leader != from
    {
      ReplaceRenamesParty(s, from, to, p);
    }
    hide Agree, RenameParty, RenameKey;
  }

  lemma ReplaceShape(s: State, from: SessionId, to: SessionId)
    requires Agree(s) && from != to && to !in s.index
    ensures
      var after := ReplaceMember(s, from, to).0;
      && after.parties.Keys == s.parties.Keys && after.nextId == s.nextId && after.timeout == s.timeout
      && after.index == RenameKey(s.index, from, to) && from !in after.index
  {
    RenameKeyIs(s.index, from, to);
    hide RenameKey, MoveInvites;
  }

  // ----- Pending invites of a replaced session -----

  /** No pending invite, to whatever party, is addressed to this session. */
  ghost predicate Uninvited(invites: map<PartyId, Invites>, session: SessionId) {
    forall p :: p in invites ==> session !in invites[p]
  }

  /** The invites of one party under the renaming. One that the new session already holds stays,
      and the old session's to the same party is dropped. */
  function RenameInvites(invites: Invites, from: SessionId, to: SessionId): Invites {
    if to in invites then invites - {from} else RenameKey(invites, from, to)
  }

  /** Every party's invites are the image of the old ones. */
  ghost predicate InvitesFollow(before: map<PartyId, Invites>, after: map<PartyId, Invites>, from: SessionId, to: SessionId) {
    after.Keys == before.Keys && forall p :: p in before ==> after[p] == RenameInvites(before[p], from, to)
  }

  lemma MoveRenamesInvites(invites: Invites, from: SessionId, to: SessionId)
    requires from != to
    ensures MoveInvite(invites, from, to) == RenameInvites(invites, from, to)
    ensures from !in RenameInvites(invites, from, to)
    ensures from !in invites ==> RenameInvites(invites, from, to) == invites
  {
    if to !in invites {
      RenameKeyIs(invites, from, to);
    }
  }

  /** The code looks at invites only after it has found the membership. */
  lemma InvitesAfterReplace(s: State, from: SessionId, to: SessionId)
    requires Agree(s) && from != to
    ensures ReplaceMember(s, from, to).0.invites
         == if from in s.index && to !in s.index then MoveInvites(s.invites, from, to) else s.invites
  {
    if from in s.index {
      assert s.index[from] in s.parties && from in s.parties[s.index[from]].members;
    }
    hide ReplaceIn, MoveInvite, Agree;
  }

  lemma MovedInvitesFollow(invites: map<PartyId, Invites>, from: SessionId, to: SessionId)
    requires from != to
    ensures InvitesFollow(invites, MoveInvites(invites, from, to), from, to)
    ensures Uninvited(MoveInvites(invites, from, to), from)
    ensures InvitesFollow(invites, invites, from, to) <==> Uninvited(invites, from)
  {
    forall p | p in invites
      ensures MoveInvite(invites[p], from, to) == RenameInvites(invites[p], from, to)
      ensures from !in RenameInvites(invites[p], from, to)
      ensures from !in invites[p] ==> RenameInvites(invites[p], from, to) == invites[p]
    {
      MoveRenamesInvites(invites[p], from, to);
    }
    hide RenameInvites, MoveInvite;
  }

  /** The pending invites of a replaced session follow it to the new one, and none is addressed to
      the old one any more, if and only if the old session is in a party and the new one is not, or
      there was none. Otherwise they all stay as they were. */
  lemma InvitesFollowExactly(s: State, from: SessionId, to: SessionId)
    requires Agree(s) && from != to
    ensures
      var after, replaced := ReplaceMember(s, from, to).0, from in s.index && to !in s.index;
      && (InvitesFollow(s.invites, after.invites, from, to) <==> replaced || Uninvited(s.invites, from))
      && (Uninvited(after.invites, from) <==> replaced || Uninvited(s.invites, from))
      && (!replaced ==> after.invites == s.invites)
  {
    InvitesAfterReplace(s, from, to);
    MovedInvitesFollow(s.invites, from, to);
    hide InvitesFollow, Uninvited, MoveInvites, Agree, ReplaceMember;
  }

  /** Where both sessions hold an invite to the same party, the new session's own one is kept. */
  lemma OwnInviteStays(s: State, from: SessionId, to: SessionId, p: PartyId)
    requires Agree(s) && from != to && to !in s.index && p in s.invites && to in s.invites[p]
    ensures
      var after := ReplaceMember(s, from, to).0;
      p in after.invites && to in after.invites[p] && after.invites[p][to] == s.invites[p][to]
  {
  }

  // ----- Removing many sessions -----

  function PartiesWithout(parties: map<PartyId, PartyRecord>, dead: set<SessionId>): map<PartyId, PartyRecord> {
    map p | p in parties && parties[p].leader !in dead :: parties[p].(members := parties[p].members - dead)
  }

  function IndexWithout(s: State, dead: set<SessionId>): map<SessionId, PartyId> {
    map k | k in s.index && k !in dead && s.index[k] in s.parties && s.parties[s.index[k]].leader !in dead :: s.index[k]
  }

  function InvitesWithout(s: State, dead: set<SessionId>): map<PartyId, Invites> {
    map p | p in s.invites && p in s.parties && s.parties[p].leader !in dead ::
      s.invites[p] - dead * s.parties[p].members.Keys
  }

  /** The service without the sessions `dead`: parties they led are gone, the others have lost
      their dead members. */
  function Without(s: State, dead: set<SessionId>): State {
    s.(parties := PartiesWithout(s.parties, dead), index := IndexWithout(s, dead), invites := InvitesWithout(s, dead))
  }

  lemma WithoutNobody(s: State)
    requires Agree(s)
    ensures Without(s, {}) == s
  {
    forall p | p in s.parties ensures s.parties[p].members - {} == s.parties[p].members {
    }
    assert PartiesWithout(s.parties, {}) == s.parties;
    assert IndexWithout(s, {}) == s.index;
    forall p | p in s.invites ensures s.invites[p] - {} * s.parties[p].members.Keys == s.invites[p] {
    }
    assert InvitesWithout(s, {}) == s.invites;
  }

  /** A session is a member of no party but the one the index names. */
  ghost predicate OnlyIn(parties: map<PartyId, PartyRecord>, k: SessionId, p: PartyId) {
    forall q :: q in parties && q != p ==> k !in parties[q].members && parties[q].leader != k
  }

  lemma MemberOnlyIn(s: State, k: SessionId)
    requires Agree(s)
    ensures k in s.index ==> s.index[k] in s.parties && k in s.parties[s.index[k]].members
    ensures k in s.index ==> OnlyIn(s.parties, k, s.index[k])
    ensures k !in s.index ==> forall q :: q in s.parties ==> k !in s.parties[q].members && s.parties[q].leader != k
  {
    forall q | q in s.parties && (k in s.parties[q].members || s.parties[q].leader == k)
      ensures k in s.index && s.index[k] == q
    {
      assert s.parties[q].leader in s.parties[q].members;
    }
  }

  lemma PartiesOneMore(parties: map<PartyId, PartyRecord>, dead: set<SessionId>, k: SessionId, p: PartyId)
    requires p in parties && k in parties[p].members && OnlyIn(parties, k, p)
    ensures
      var less, more := PartiesWithout(parties, dead), PartiesWithout(parties, dead + {k});
      more == if p !in less then less else if parties[p].leader == k then less - {p}
              else less[p := less[p].(members := less[p].members - {k})]
  {
    var less, more := PartiesWithout(parties, dead), PartiesWithout(parties, dead + {k});
    forall q | q in more ensures more[q].members == if q == p then less[q].members - {k} else less[q].members {
      assert q == p || k !in parties[q].members;
    }
    assert forall q :: q in more <==> q in less && !(q == p && parties[p].leader == k);
  }

  lemma InvitesOneMore(s: State, dead: set<SessionId>, k: SessionId, p: PartyId)
    requires p in s.parties && k in s.parties[p].members && OnlyIn(s.parties, k, p) && k !in dead
    ensures
      var less, more := InvitesWithout(s, dead), InvitesWithout(s, dead + {k});
      more == if p !in less then less else if s.parties[p].leader == k then less - {p}
              else less[p := less[p] - {k}]
  {
    var less, more := InvitesWithout(s, dead), InvitesWithout(s, dead + {k});
    forall q | q in more ensures more[q] == if q == p then less[q] - {k} else less[q] {
      var members := s.parties[q].members.Keys;
      if q == p {
        assert (dead + {k}) * members == dead * members + {k};
      } else {
        assert (dead + {k}) * members == dead * members;
      }
    }
    assert forall q :: q in more <==> q in less && !(q == p && s.parties[p].leader == k);
  }

  lemma IndexOneMore(s: State, dead: set<SessionId>, k: SessionId)
    requires IndexOk(s) && k in IndexWithout(s, dead) && OnlyIn(s.parties, k, s.index[k])
    ensures
      var less, p := IndexWithout(s, dead), s.index[k];
      IndexWithout(s, dead + {k})
        == if s.parties[p].leader == k then less - (s.parties[p].members - dead).Keys else less - {k}
  {
    var more, less, p := IndexWithout(s, dead + {k}), IndexWithout(s, dead), s.index[k];
    forall j | j in less
      ensures j in more <==> j != k && !(s.index[j] == p && s.parties[p].leader == k)
      ensures j in s.parties[p].members <==> s.index[j] == p
    {
    }
  }

  /** A session already gone, with its party or on its own, changes nothing more. */
  lemma OneMoreAbsent(s: State, dead: set<SessionId>, k: SessionId)
    requires Agree(s) && k !in IndexWithout(s, dead)
    ensures Without(s, dead + {k}) == Without(s, dead)
  {
    MemberOnlyIn(s, k);
    if k in dead {
      assert dead + {k} == dead;
    } else if k in s.index {
      var p := s.index[k];
      PartiesOneMore(s.parties, dead, k, p);
      InvitesOneMore(s, dead, k, p);
      assert s.parties[p].leader in dead;
      hide PartiesWithout, InvitesWithout;
      assert IndexWithout(s, dead + {k}) == IndexWithout(s, dead);
      assert p !in PartiesWithout(s.parties, dead) && p !in InvitesWithout(s, dead) by { Gone(s, dead, p); }
    } else {
      AbsentChangesNothing(s, dead, k);
    }
  }

  lemma Gone(s: State, dead: set<SessionId>, p: PartyId)
    requires p in s.parties && s.parties[p].leader in dead
    ensures p !in PartiesWithout(s.parties, dead) && p !in InvitesWithout(s, dead)
  {
  }

  lemma AbsentChangesNothing(s: State, dead: set<SessionId>, k: SessionId)
    requires k !in s.index
    requires forall q :: q in s.parties ==> k !in s.parties[q].members && s.parties[q].leader != k
    ensures Without(s, dead + {k}) == Without(s, dead)
  {
    assert PartiesWithout(s.parties, dead + {k}) == PartiesWithout(s.parties, dead) by {
      forall q | q in s.parties ensures s.parties[q].members - (dead + {k}) == s.parties[q].members - dead {
      }
    }
    assert IndexWithout(s, dead + {k}) == IndexWithout(s, dead);
    assert InvitesWithout(s, dead + {k}) == InvitesWithout(s, dead) by {
      forall q | q in s.parties ensures (dead + {k}) * s.parties[q].members.Keys == dead * s.parties[q].members.Keys {
      }
    }
  }

  lemma OneMorePresent(s: State, dead: set<SessionId>, k: SessionId)
    requires Agree(s) && k in IndexWithout(s, dead)
    ensures
      var p := s.index[k];
      && p in PartiesWithout(s.parties, dead)
      && Without(s, dead + {k})
         == if s.parties[p].leader == k then Dissolve(Without(s, dead), p) else DropMember(Without(s, dead), p, k)
  {
    MemberOnlyIn(s, k);
    var p := s.index[k];
    assert p in PartiesWithout(s.parties, dead) && PartiesWithout(s.parties, dead)[p].members == s.parties[p].members - dead;
    PartiesOneMore(s.parties, dead, k, p);
    InvitesOneMore(s, dead, k, p);
    IndexOneMore(s, dead, k);
    hide PartiesWithout, InvitesWithout, IndexWithout, OnlyIn, Agree;
    var less := InvitesWithout(s, dead);
    assert p !in less ==> less - {p} == less;
  }

  /** Removing one session more leaves what removing all at once leaves. */
  lemma WithoutOneMore(s: State, dead: set<SessionId>, k: SessionId)
    requires Agree(s)
    ensures RemoveMember(Without(s, dead), k).0 == Without(s, dead + {k})
  {
    if k in IndexWithout(s, dead) {
      assert s.index[k] in PartiesWithout(s.parties, dead);
      assert PartiesWithout(s.parties, dead)[s.index[k]].leader == s.parties[s.index[k]].leader;
      assert IndexWithout(s, dead)[k] == s.index[k];
      OneMorePresent(s, dead, k);
    } else {
      OneMoreAbsent(s, dead, k);
    }
    hide PartiesWithout, InvitesWithout, IndexWithout, Agree, Dissolve, DropMember;
  }

  // ----- The service object -----

  lemma SizesAdd<T>(a: set<T>, b: set<T>)
    requires forall x :: x in b ==> x !in a
    ensures |a + b| == |a| + |b|
  {
    assert a * b == {};
  }

  /** How far a sweep has come that has still to visit the parties `todo`. */
  ghost predicate SweptBut(s: State, invites: map<PartyId, Invites>, gone: set<(PartyId, SessionId)>, todo: set<PartyId>,
                           now: Time)
  {
    && todo <= s.parties.Keys && invites.Keys == s.invites.Keys
    && (forall q :: q in s.invites ==>
          invites[q] == if q in s.parties && q !in todo then FreshOnly(s.timeout, s.invites[q], now) else s.invites[q])
    && forall q, k :: (q, k) in gone <==>
         q in s.parties && q !in todo && q in s.invites && k in s.invites[q] && Expired(s.timeout, s.invites[q][k], now)
  }

  lemma SweptInvites(s: State, invites: map<PartyId, Invites>, gone: set<(PartyId, SessionId)>, now: Time)
    requires SweptBut(s, invites, gone, {}, now)
    ensures invites == Swept(s, now).invites
  {
    hide FreshOnly, Expired;
  }

  lemma SweptPairs(s: State, invites: map<PartyId, Invites>, gone: set<(PartyId, SessionId)>, now: Time)
    requires SweptBut(s, invites, gone, {}, now)
    ensures gone == ExpiredPairs(s, now)
  {
    hide FreshOnly, Expired;
    var expired := ExpiredPairs(s, now);
    forall x | x in gone ensures x in expired {
      assert x == (x.0, x.1);
    }
    forall x | x in expired ensures x in gone {
      assert x == (x.0, x.1);
    }
  }

  lemma NothingSwept(s: State, now: Time)
    ensures SweptBut(s, s.invites, {}, s.parties.Keys, now)
  {
  }

  /** One party visited: its expired invites go. */
  lemma SweptOneMore(s: State, invites: map<PartyId, Invites>, gone: set<(PartyId, SessionId)>, todo: set<PartyId>,
                     now: Time, p: PartyId, pairs: set<(PartyId, SessionId)>)
    requires SweptBut(s, invites, gone, todo, now) && p in todo && p in invites
    requires forall q, k :: (q, k) in pairs <==> q == p && k in invites[p] && Expired(s.timeout, invites[p][k], now)
    ensures SweptBut(s, invites[p := FreshOnly(s.timeout, invites[p], now)], gone + pairs, todo - {p}, now)
    ensures |gone + pairs| == |gone| + |pairs|
  {
    hide FreshOnly, Expired;
    assert forall x :: x in pairs ==> x == (p, x.1) && x !in gone;
    SizesAdd(gone, pairs);
  }

  lemma SweptNoneMore(s: State, invites: map<PartyId, Invites>, gone: set<(PartyId, SessionId)>, todo: set<PartyId>,
                      now: Time, p: PartyId)
    requires SweptBut(s, invites, gone, todo, now) && p in todo && p !in invites
    ensures SweptBut(s, invites, gone, todo - {p}, now)
  {
    hide FreshOnly, Expired;
  }

  class PartyService {
    var nextPartyId: nat
    var parties: map<PartyId, PartyRecord>
    var memberIndex: map<SessionId, PartyId>
    var invites: map<PartyId, Invites>
    var inviteTimeout: Time

    function View(): State
      reads this
    {
      State(nextPartyId, parties, memberIndex, invites, inviteTimeout)
    }

    constructor ()
      ensures View() == EMPTY
    {
      nextPartyId, parties, memberIndex, invites := 1, map[], map[], map[];
      inviteTimeout := 300_000;
    }

    method CreateParty(leader: SessionId, user: string) returns (id: Option<PartyId>)
      modifies this
      ensures (View(), id) == Create(old(View()), leader, user)
    {
      if leader in memberIndex {
        return None;
      }
      var record := PartyRecord(nextPartyId, leader, map[leader := Member(leader, user)]);
      nextPartyId := nextPartyId + 1;
      memberIndex := memberIndex[leader := record.id];
      parties := parties[record.id := record];
      return Some(record.id);
    }

    method Invite(p: PartyId, inviter: SessionId, invitee: SessionId, user: string, now: Time) returns (ok: bool)
      modifies this`invites
      ensures (View(), ok) == InviteMember(old(View()), p, inviter, invitee, user, now)
    {
      if p !in parties || inviter !in parties[p].members || invitee in memberIndex {
        return false;
      }
      var pending := if p in invites then invites[p] else map[];
      if invitee in pending {
        return false;
      }
      invites := invites[p := pending[invitee := PendingInvite(inviter, user, now)]];
      return true;
    }

    method Accept(p: PartyId, invitee: SessionId, now: Time) returns (ok: bool)
      modifies this
      ensures (View(), ok) == AcceptInvite(old(View()), p, invitee, now)
    {
      if p !in parties || p !in invites || invitee !in invites[p] {
        return false;
      }
      var invite := invites[p][invitee];
      invites := invites[p := invites[p] - {invitee}];
      if now - invite.sentAt > inviteTimeout || invitee in memberIndex {
        return false;
      }
      if invitee !in parties[p].members {
        var members := parties[p].members[invitee := Member(invitee, invite.user)];
        parties := parties[p := parties[p].(members := members)];
      } else {
        assert parties[p := parties[p]] == parties;
      }
      memberIndex := memberIndex[invitee := p];
      return true;
    }

    method Reject(p: PartyId, invitee: SessionId) returns (ok: bool)
      modifies this`invites
      ensures (View(), ok) == RejectInvite(old(View()), p, invitee)
    {
      if p !in parties || p !in invites || invitee !in invites[p] {
        return false;
      }
      invites := invites[p := invites[p] - {invitee}];
      return true;
    }

    /** The member loop that disbandParty and removeMember share. */
    method DissolveParty(p: PartyId)
      requires p in parties
      modifies this
      ensures View() == Dissolve(old(View()), p)
    {
      var todo := parties[p].members.Keys;
      while todo != {}
        invariant p in parties && todo <= parties[p].members.Keys
        invariant View() == old(View()).(index := old(memberIndex) - (parties[p].members.Keys - todo))
        decreases todo
      {
        var k :| k in todo;
        memberIndex := memberIndex - {k};
        todo := todo - {k};
      }
      assert parties[p].members.Keys - todo == parties[p].members.Keys;
      parties := parties - {p};
      invites := invites - {p};
    }

    method DisbandParty(p: PartyId, requester: SessionId) returns (ok: bool)
      modifies this
      ensures (View(), ok) == Disband(old(View()), p, requester)
    {
      if p !in parties || parties[p].leader != requester {
        return false;
      }
      DissolveParty(p);
      return true;
    }

    method Remove(session: SessionId) returns (ok: bool)
      modifies this
      ensures (View(), ok) == RemoveMember(old(View()), session)
    {
      if session !in memberIndex {
        return false;
      }
      var p := memberIndex[session];
      if p !in parties {
        memberIndex := memberIndex - {session};
        return false;
      }
      if parties[p].leader == session {
        DissolveParty(p);
        return true;
      }
      parties := parties[p := parties[p].(members := parties[p].members - {session})];
      memberIndex := memberIndex - {session};
      if p in invites {
        invites := invites[p := invites[p] - {session}];
      }
      return true;
    }

    /** The loop over the pending invites of every party. */
    method MovePending(from: SessionId, to: SessionId)
      requires from != to
      modifies this`invites
      ensures invites == MoveInvites(old(invites), from, to)
    {
      ghost var before := invites;
      var todo := invites.Keys;
      while todo != {}
        invariant todo <= invites.Keys == before.Keys
        invariant forall q :: q in before ==>
          invites[q] == if q in todo then before[q] else MoveInvite(before[q], from, to)
        decreases todo
      {
        var q :| q in todo;
        todo := todo - {q};
        if from in invites[q] {
          var moved := invites[q][from];
          var rest := invites[q] - {from};
          if to !in rest {
            rest := rest[to := moved];
          }
          invites := invites[q := rest];
        }
      }
      assert invites == MoveInvites(before, from, to);
    }

    method ReplaceMemberSession(from: SessionId, to: SessionId) returns (ok: bool)
      modifies this
      ensures (View(), ok) == ReplaceMember(old(View()), from, to)
    {
      if from == to {
        return true;
      }
      if from !in memberIndex || to in memberIndex {
        return false;
      }
      var p := memberIndex[from];
      if p !in parties || from !in parties[p].members {
        return false;
      }
      var member := parties[p].members[from].(session := to);
      var members := parties[p].members - {from};
      if to !in members {
        members := members[to := member];
      }
      var leader := if parties[p].leader == from then to else parties[p].leader;
      assert parties[p].(leader := leader, members := members) == ReplaceIn(parties[p], from, to);
      parties := parties[p := parties[p].(leader := leader, members := members)];
      memberIndex := (memberIndex - {from})[to := p];
      hide ReplaceIn, MoveInvites;
      MovePending(from, to);
      return true;
    }

    method Expire(now: Time) returns (count: nat)
      modifies this`invites
      ensures (View(), count) == ExpireInvites(old(View()), now)
    {
      hide FreshOnly, Expired, SweptBut;
      count := 0;
      ghost var s := View();
      ghost var gone: set<(PartyId, SessionId)> := {};
      var todo := parties.Keys;
      assert SweptBut(s, invites, gone, todo, now) by { NothingSwept(s, now); }
      while todo != {}
        invariant SweptBut(s, invites, gone, todo, now) && count == |gone|
        decreases todo
      {
        var p :| p in todo;
        if p in invites {
          var expired: nat;
          ghost var pairs;
          ghost var before := invites;
          expired, pairs := ExpireOne(p, now);
          SweptOneMore(s, before, gone, todo, now, p, pairs);
          gone := gone + pairs;
          count := count + expired;
        } else {
          SweptNoneMore(s, invites, gone, todo, now, p);
        }
        todo := todo - {p};
      }
      SweptInvites(s, invites, gone, now);
      SweptPairs(s, invites, gone, now);
    }

    /** The inner loop of expireInvites, over the invites of one party; `pairs` are those erased. */
    method ExpireOne(p: PartyId, now: Time) returns (count: nat, ghost pairs: set<(PartyId, SessionId)>)
      requires p in invites
      modifies this`invites
      ensures invites == old(invites)[p := FreshOnly(inviteTimeout, old(invites)[p], now)]
      ensures count == |pairs|
      ensures forall q, k :: (q, k) in pairs <==>
        q == p && k in old(invites)[p] && Expired(inviteTimeout, old(invites)[p][k], now)
    {
      count, pairs := 0, {};
      ghost var before := invites[p];
      var todo := invites[p].Keys;
      while todo != {}
        invariant todo <= before.Keys && p in invites
        invariant invites == old(invites)[p := invites[p]]
        invariant forall k :: k in invites[p] <==>
          k in before && (k in todo || !Expired(inviteTimeout, before[k], now))
        invariant forall k :: k in invites[p] ==> invites[p][k] == before[k]
        invariant count == |pairs|
        invariant forall q, k :: (q, k) in pairs <==>
          q == p && k in before && k !in todo && Expired(inviteTimeout, before[k], now)
        decreases todo
      {
        var k :| k in todo;
        todo := todo - {k};
        if now - invites[p][k].sentAt > inviteTimeout {
          invites := invites[p := invites[p] - {k}];
          assert (p, k) !in pairs;
          pairs := pairs + {(p, k)};
          count := count + 1;
        }
      }
      assert invites[p] == FreshOnly(inviteTimeout, before, now);
    }

    method SetInviteTimeout(timeout: Time)
      modifies this`inviteTimeout
      ensures View() == old(View()).(timeout := timeout)
    {
      inviteTimeout := timeout;
    }
  }
}
