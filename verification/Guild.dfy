/** The guild service of src/guild/guild.cpp: guilds and the member index. Events are left out. */
module Guild {
  import opened Common

  type GuildId = nat

  datatype Member = Member(session: SessionId, user: string)
  datatype GuildRecord = GuildRecord(id: GuildId, leader: SessionId, name: string, members: map<SessionId, Member>)
  datatype State = State(nextId: nat, guilds: map<GuildId, GuildRecord>, index: map<SessionId, GuildId>)

  const EMPTY: State := State(1, map[], map[])

  // ----- One call -----

  function Create(s: State, leader: SessionId, user: string, name: string): (State, Option<GuildId>) {
    if leader in s.index || name == "" then (s, None)
    else
      var record := GuildRecord(s.nextId, leader, name, map[leader := Member(leader, user)]);
      (State(s.nextId + 1, s.guilds[s.nextId := record], s.index[leader := s.nextId]), Some(s.nextId))
  }

  function Join(s: State, g: GuildId, session: SessionId, user: string): (State, bool) {
    if g !in s.guilds || session in s.index then (s, false)
    else
      var guild := s.guilds[g];
      var members := if session in guild.members then guild.members
                     else guild.members[session := Member(session, user)];
      (s.(guilds := s.guilds[g := guild.(members := members)], index := s.index[session := g]), true)
  }

  function Dissolve(s: State, g: GuildId): State
    requires g in s.guilds
  {
    s.(guilds := s.guilds - {g}, index := s.index - s.guilds[g].members.Keys)
  }

  function DropMember(s: State, g: GuildId, session: SessionId): State
    requires g in s.guilds
  {
    var guild := s.guilds[g];
    s.(guilds := s.guilds[g := guild.(members := guild.members - {session})], index := s.index - {session})
  }

  function Leave(s: State, g: GuildId, session: SessionId): (State, bool) {
    if g !in s.guilds || session !in s.guilds[g].members then (s, false)
    else if s.guilds[g].leader == session then (Dissolve(s, g), true)
    else (DropMember(s, g, session), true)
  }

  function RemoveMember(s: State, session: SessionId): (State, bool) {
    if session !in s.index then (s, false)
    else
      var g := s.index[session];
      if g !in s.guilds || session !in s.guilds[g].members then (s.(index := s.index - {session}), false)
      else if s.guilds[g].leader == session then (Dissolve(s, g), true)
      else (DropMember(s, g, session), true)
  }

  /** The record with member `from` filed under `to`, and `to` leading if `from` did. */
  function ReplaceIn(guild: GuildRecord, from: SessionId, to: SessionId): GuildRecord
    requires from in guild.members
  {
    var rest := guild.members - {from};
    var members := if to in rest then rest else rest[to := guild.members[from].(session := to)];
    guild.(leader := if guild.leader == from then to else guild.leader, members := members)
  }

  function ReplaceMember(s: State, from: SessionId, to: SessionId): (State, bool) {
    if from == to then (s, true)
    else if from !in s.index || to in s.index then (s, false)
    else
      var g := s.index[from];
      if g !in s.guilds || from !in s.guilds[g].members then (s, false)
      else
        (s.(guilds := s.guilds[g := ReplaceIn(s.guilds[g], from, to)],
            index := (s.index - {from})[to := g]), true)
  }

  // ----- What each call does to guilds and members -----

  /** No guild but `g` is added, dropped or changed. */
  ghost predicate OtherGuildsStay(s: State, t: State, g: GuildId) {
    forall h :: h != g ==> (h in t.guilds <==> h in s.guilds) && (h in s.guilds ==> t.guilds[h] == s.guilds[h])
  }

  /** A session in no guild, with a name that is not empty, and only such a one, founds a guild of that
      name under the next id and is its leader and only member. */
  lemma CreatesExactly(s: State, leader: SessionId, user: string, name: string)
    ensures
      var (t, created) := Create(s, leader, user, name);
      && created == (if leader !in s.index && name != "" then Some(s.nextId) else None)
      && (created.None? ==> t == s)
      && (created.Some? ==>
            && t == State(s.nextId + 1, t.guilds, s.index[leader := s.nextId])
            && OtherGuildsStay(s, t, s.nextId) && s.nextId in t.guilds
            && t.guilds[s.nextId] == GuildRecord(s.nextId, leader, name, map[leader := Member(leader, user)]))
  {
  }

  /** Exactly a session in no guild joins an existing one, under its user's name; leader, name, other
      members and other guilds stay. */
  lemma JoinsExactly(s: State, g: GuildId, session: SessionId, user: string)
    ensures
      var (t, ok) := Join(s, g, session, user);
      && (ok <==> g in s.guilds && session !in s.index)
      && (!ok ==> t == s)
      && (ok ==>
            && t.nextId == s.nextId && t.index == s.index[session := g]
            && OtherGuildsStay(s, t, g) && g in t.guilds
            && t.guilds[g] == s.guilds[g].(members := t.guilds[g].members)
            && t.guilds[g].members.Keys == s.guilds[g].members.Keys + {session}
            && (session !in s.guilds[g].members ==> t.guilds[g].members[session] == Member(session, user))
            && forall k :: k in s.guilds[g].members ==> t.guilds[g].members[k] == s.guilds[g].members[k])
  {
  }

  /** The guild loses this member, or is gone with all its members if the member leads it; the others
      stay where they are. */
  ghost predicate LeftOnly(s: State, t: State, g: GuildId, session: SessionId)
    requires g in s.guilds
  {
    && t.nextId == s.nextId && OtherGuildsStay(s, t, g)
    && if s.guilds[g].leader == session then
         && g !in t.guilds
         && (forall k :: k in t.index <==> k in s.index && k !in s.guilds[g].members)
         && (forall k :: k in t.index ==> t.index[k] == s.index[k])
       else
         && g in t.guilds && t.guilds[g] == s.guilds[g].(members := s.guilds[g].members - {session})
         && t.index == s.index - {session}
  }

  /** Exactly a member leaves a guild. */
  lemma LeavesExactly(s: State, g: GuildId, session: SessionId)
    ensures
      var (t, ok) := Leave(s, g, session);
      && (ok <==> g in s.guilds && session in s.guilds[g].members)
      && (if ok then LeftOnly(s, t, g, session) else t == s)
  {
  }

  /** A session is removed exactly from the guild it is filed under, if that lists it; an entry without
      such a guild is only forgotten. */
  lemma RemovesExactly(s: State, session: SessionId)
    ensures
      var (t, ok) := RemoveMember(s, session);
      && (ok <==> session in s.index && s.index[session] in s.guilds
                  && session in s.guilds[s.index[session]].members)
      && (if ok then LeftOnly(s, t, s.index[session], session) else t == s.(index := s.index - {session}))
  {
    assert session !in s.index ==> s.index - {session} == s.index;
    if session in s.index {
      LeavesExactly(s, s.index[session], session);
    }
    hide LeftOnly;
  }

  /** A replacement goes through exactly if the sessions are the same, or the old one is listed in the
      guild it is filed under and the new one is in none. */
  lemma ReplacesExactly(s: State, from: SessionId, to: SessionId)
    ensures
      var (t, ok) := ReplaceMember(s, from, to);
      && (ok <==> || from == to
                  || (from in s.index && to !in s.index && s.index[from] in s.guilds
                      && from in s.guilds[s.index[from]].members))
      && (!ok || from == to ==> t == s)
  {
    hide ReplaceIn;
  }

  // ----- Runs -----

  datatype Op =
    | CreateOp(leader: SessionId, user: string, name: string)
    | JoinOp(g: GuildId, session: SessionId, user: string)
    | LeaveOp(g: GuildId, session: SessionId)
    | RemoveOp(session: SessionId)
    | ReplaceOp(from: SessionId, to: SessionId)

  function Step(s: State, op: Op): State {
    match op
    case CreateOp(leader, user, name) => Create(s, leader, user, name).0
    case JoinOp(g, session, user) => Join(s, g, session, user).0
    case LeaveOp(g, session) => Leave(s, g, session).0
    case RemoveOp(session) => RemoveMember(s, session).0
    case ReplaceOp(from, to) => ReplaceMember(s, from, to).0
  }

  function Run(s: State, ops: seq<Op>): State
    decreases |ops|
  {
    if ops == [] then s else Run(Step(s, ops[0]), ops[1..])
  }

  lemma StepNames(s: State, op: Op, g: GuildId, name: string)
    requires g < s.nextId && (g in s.guilds ==> s.guilds[g].name == name)
    ensures
      var t := Step(s, op);
      g < t.nextId && (g in t.guilds ==> t.guilds[g].name == name)
  {
  }

  lemma {:induction false} RunNames(s: State, ops: seq<Op>, g: GuildId, name: string)
    requires g < s.nextId && (g in s.guilds ==> s.guilds[g].name == name)
    ensures
      var t := Run(s, ops);
      g < t.nextId && (g in t.guilds ==> t.guilds[g].name == name)
    decreases |ops|
  {
    if ops != [] {
      StepNames(s, ops[0], g, name);
      RunNames(Step(s, ops[0]), ops[1..], g, name);
    }
  }

  /** As long as a guild exists, through any run of the service, it bears the name its founder gave
      it: nothing renames it, and its id is not given to another one. */
  lemma NameStays(s: State, leader: SessionId, user: string, name: string, ops: seq<Op>)
    requires leader !in s.index && name != ""
    ensures
      var t := Run(s, [CreateOp(leader, user, name)] + ops);
      s.nextId in t.guilds ==> t.guilds[s.nextId].name == name
  {
    var op := CreateOp(leader, user, name);
    CreatesExactly(s, leader, user, name);
    assert ([op] + ops)[1..] == ops;
    RunNames(Step(s, op), ops, s.nextId, name);
  }

  // ----- Guilds and index agree -----

  ghost predicate RecordsOk(s: State) {
    forall g :: g in s.guilds ==>
      && g < s.nextId
      && s.guilds[g].id == g
      && s.guilds[g].leader in s.guilds[g].members
      && forall k :: k in s.guilds[g].members ==> s.guilds[g].members[k].session == k
  }

  /** The index maps a session to a guild exactly when that guild exists and lists it. */
  ghost predicate IndexOk(s: State) {
    && (forall k :: k in s.index ==> s.index[k] in s.guilds && k in s.guilds[s.index[k]].members)
    && (forall g, k :: g in s.guilds && k in s.guilds[g].members ==> k in s.index && s.index[k] == g)
  }

  ghost predicate Agree(s: State) {
    RecordsOk(s) && IndexOk(s)
  }

  lemma CreateAgrees(s: State, leader: SessionId, user: string, name: string)
    requires Agree(s)
    ensures Agree(Create(s, leader, user, name).0)
  {
    assert s.nextId !in s.guilds;
  }

  lemma JoinAgrees(s: State, g: GuildId, session: SessionId, user: string)
    requires Agree(s)
    ensures Agree(Join(s, g, session, user).0)
  {
    var after := Join(s, g, session, user).0;
    assert RecordsOk(after) by { hide IndexOk; }
    assert IndexOk(after) by { hide RecordsOk; }
  }

  lemma DissolveAgrees(s: State, g: GuildId)
    requires Agree(s) && g in s.guilds
    ensures Agree(Dissolve(s, g)) && s.guilds[g].leader !in Dissolve(s, g).index
  {
    forall h, k | h in s.guilds && h != g && k in s.guilds[h].members
      ensures k !in s.guilds[g].members
    {
      assert s.index[k] == h;
    }
  }

  lemma DropAgrees(s: State, g: GuildId, session: SessionId)
    requires Agree(s) && g in s.guilds && session in s.guilds[g].members && session != s.guilds[g].leader
    ensures Agree(DropMember(s, g, session)) && session !in DropMember(s, g, session).index
  {
    assert s.index[session] == g;
  }

  lemma LeaveAgrees(s: State, g: GuildId, session: SessionId)
    requires Agree(s)
    ensures Agree(Leave(s, g, session).0)
    ensures Leave(s, g, session).1 ==> session !in Leave(s, g, session).0.index
  {
    hide Agree, Dissolve, DropMember;
    if g in s.guilds && session in s.guilds[g].members {
      if s.guilds[g].leader == session {
        DissolveAgrees(s, g);
      } else {
        DropAgrees(s, g, session);
      }
    }
  }

  lemma RemoveAgrees(s: State, session: SessionId)
    requires Agree(s)
    ensures Agree(RemoveMember(s, session).0) && session !in RemoveMember(s, session).0.index
  {
    if session in s.index {
      LeaveAgrees(s, s.index[session], session);
    }
  }

  lemma ReplaceInMembers(guild: GuildRecord, from: SessionId, to: SessionId)
    requires from in guild.members && from != to
    ensures ReplaceIn(guild, from, to).members.Keys == guild.members.Keys - {from} + {to}
  {
  }

  lemma ReplaceKeepsIndex(s: State, from: SessionId, to: SessionId)
    requires IndexOk(s) && from != to && from in s.index && to !in s.index
    ensures IndexOk(ReplaceMember(s, from, to).0)
  {
    var g := s.index[from];
    ReplaceInMembers(s.guilds[g], from, to);
    hide ReplaceIn;
  }

  lemma ReplaceKeepsRecords(s: State, from: SessionId, to: SessionId)
    requires RecordsOk(s) && IndexOk(s) && from != to && from in s.index && to !in s.index
    ensures RecordsOk(ReplaceMember(s, from, to).0)
  {
    var g := s.index[from];
    assert g in s.guilds && from in s.guilds[g].members;
    hide IndexOk;
  }

  lemma ReplaceAgrees(s: State, from: SessionId, to: SessionId)
    requires Agree(s)
    ensures Agree(ReplaceMember(s, from, to).0)
  {
    if from != to && from in s.index && to !in s.index {
      ReplaceKeepsIndex(s, from, to);
      ReplaceKeepsRecords(s, from, to);
      hide ReplaceIn, IndexOk, RecordsOk;
    } else {
      hide ReplaceIn, IndexOk, RecordsOk;
    }
  }

  lemma StepAgrees(s: State, op: Op)
    requires Agree(s)
    ensures Agree(Step(s, op))
  {
    hide Agree, Create, Join, Leave, RemoveMember, ReplaceMember;
    match op
    case CreateOp(leader, user, name) => CreateAgrees(s, leader, user, name);
    case JoinOp(g, session, user) => JoinAgrees(s, g, session, user);
    case LeaveOp(g, session) => LeaveAgrees(s, g, session);
    case RemoveOp(session) => RemoveAgrees(s, session);
    case ReplaceOp(from, to) => ReplaceAgrees(s, from, to);
  }

  /** After every run of the service, guilds and index agree. */
  lemma {:induction false} RunAgrees(s: State, ops: seq<Op>)
    requires Agree(s)
    ensures Agree(Run(s, ops))
    decreases |ops|
  {
    if ops != [] {
      StepAgrees(s, ops[0]);
      RunAgrees(Step(s, ops[0]), ops[1..]);
    }
  }

  /** Being removed is leaving the guild the index names; leaving any other guild is refused. */
  lemma RemovalIsLeaving(ops: seq<Op>, session: SessionId, g: GuildId)
    ensures
      var s := Run(EMPTY, ops);
      if session in s.index && s.index[session] == g then RemoveMember(s, session) == Leave(s, g, session)
      else Leave(s, g, session) == (s, false)
  {
    RunAgrees(EMPTY, ops);
  }

  // ----- Replacing a session is a renaming -----

  function RenameMember(m: Member, from: SessionId, to: SessionId): Member {
    m.(session := Renamed(m.session, from, to))
  }

  function RenameGuild(guild: GuildRecord, from: SessionId, to: SessionId): GuildRecord
    requires to !in guild.members
  {
    var members := RenameKey(guild.members, from, to);
    guild.(leader := Renamed(guild.leader, from, to),
           members := map k | k in members :: RenameMember(members[k], from, to))
  }

  ghost predicate MembersOk(guild: GuildRecord) {
    guild.leader in guild.members && forall k :: k in guild.members ==> guild.members[k].session == k
  }

  lemma ReplaceInRenames(guild: GuildRecord, from: SessionId, to: SessionId)
    requires MembersOk(guild) && from != to && to !in guild.members
    ensures RenameGuild(guild, from, to) == if from in guild.members then ReplaceIn(guild, from, to) else guild
    ensures from !in RenameGuild(guild, from, to).members && RenameGuild(guild, from, to).leader != from
  {
    RenameKeyIs(guild.members, from, to);
    if from in guild.members {
      assert ReplaceIn(guild, from, to).members == RenameGuild(guild, from, to).members;
    } else {
      assert RenameGuild(guild, from, to).members == guild.members;
    }
  }

  lemma ReplaceRenamesGuild(s: State, from: SessionId, to: SessionId, g: GuildId)
    requires Agree(s) && from != to && to !in s.index && g in s.guilds
    ensures
      var after := ReplaceMember(s, from, to).0;
      && to !in s.guilds[g].members
      && g in after.guilds
      && after.guilds[g] == RenameGuild(s.guilds[g], from, to)
      && from !in after.guilds[g].members && after.guilds[g].leader != from
  {
    assert to in s.guilds[g].members ==> to in s.index;
    assert MembersOk(s.guilds[g]);
    ReplaceInRenames(s.guilds[g], from, to);
    assert from in s.guilds[g].members <==> from in s.index && s.index[from] == g;
  }

  /** When the new session is in no guild, replacing a member leaves every guild and the index as
      the image of the old ones under the renaming, and nothing names the old session. */
  lemma ReplaceRenames(s: State, from: SessionId, to: SessionId)
    requires Agree(s) && from != to && to !in s.index
    ensures
      var after := ReplaceMember(s, from, to).0;
      && after.guilds.Keys == s.guilds.Keys
      && (forall g :: g in s.guilds ==>
            to !in s.guilds[g].members && after.guilds[g] == RenameGuild(s.guilds[g], from, to))
      && after.index == RenameKey(s.index, from, to)
      && from !in after.index
      && (forall g :: g in after.guilds ==> from !in after.guilds[g].members && after.guilds[g].leader != from)
      && after.nextId == s.nextId
  {
    ReplaceShape(s, from, to);
    hide ReplaceMember;
    forall g | g in s.guilds
      ensures
        var after := ReplaceMember(s, from, to).0;
        && to !in s.guilds[g].members && after.guilds[g] == RenameGuild(s.guilds[g], from, to)
        && from !in after.guilds[g].members && after.guilds[g].leader != from
    {
      ReplaceRenamesGuild(s, from, to, g);
    }
    hide Agree, RenameGuild, RenameKey;
  }

  lemma ReplaceShape(s: State, from: SessionId, to: SessionId)
    requires Agree(s) && from != to && to !in s.index
    ensures
      var after := ReplaceMember(s, from, to).0;
      && after.guilds.Keys == s.guilds.Keys && after.nextId == s.nextId
      && after.index == RenameKey(s.index, from, to) && from !in after.index
  {
    RenameKeyIs(s.index, from, to);
    hide RenameKey;
  }

  // ----- Removing many sessions -----

  function GuildsWithout(guilds: map<GuildId, GuildRecord>, dead: set<SessionId>): map<GuildId, GuildRecord> {
    map g | g in guilds && guilds[g].leader !in dead :: guilds[g].(members := guilds[g].members - dead)
  }

  function IndexWithout(s: State, dead: set<SessionId>): map<SessionId, GuildId> {
    map k | k in s.index && k !in dead && s.index[k] in s.guilds && s.guilds[s.index[k]].leader !in dead :: s.index[k]
  }

  /** The service without the sessions `dead`: guilds they led are gone, the others have lost
      their dead members. */
  function Without(s: State, dead: set<SessionId>): State {
    s.(guilds := GuildsWithout(s.guilds, dead), index := IndexWithout(s, dead))
  }

  lemma WithoutNobody(s: State)
    requires Agree(s)
    ensures Without(s, {}) == s
  {
    forall g | g in s.guilds ensures s.guilds[g].members - {} == s.guilds[g].members {
    }
    assert GuildsWithout(s.guilds, {}) == s.guilds;
    assert IndexWithout(s, {}) == s.index;
  }

  /** A session is a member of no guild but the one the index names. */
  ghost predicate OnlyIn(guilds: map<GuildId, GuildRecord>, k: SessionId, g: GuildId) {
    forall h :: h in guilds && h != g ==> k !in guilds[h].members && guilds[h].leader != k
  }

  lemma MemberOnlyIn(s: State, k: SessionId)
    requires Agree(s)
    ensures k in s.index ==> s.index[k] in s.guilds && k in s.guilds[s.index[k]].members
    ensures k in s.index ==> OnlyIn(s.guilds, k, s.index[k])
    ensures k !in s.index ==> forall h :: h in s.guilds ==> k !in s.guilds[h].members && s.guilds[h].leader != k
  {
    forall h | h in s.guilds && (k in s.guilds[h].members || s.guilds[h].leader == k)
      ensures k in s.index && s.index[k] == h
    {
      assert s.guilds[h].leader in s.guilds[h].members;
    }
  }

  lemma GuildsOneMore(guilds: map<GuildId, GuildRecord>, dead: set<SessionId>, k: SessionId, g: GuildId)
    requires g in guilds && k in guilds[g].members && OnlyIn(guilds, k, g)
    ensures
      var less, more := GuildsWithout(guilds, dead), GuildsWithout(guilds, dead + {k});
      more == if g !in less then less else if guilds[g].leader == k then less - {g}
              else less[g := less[g].(members := less[g].members - {k})]
  {
    var less, more := GuildsWithout(guilds, dead), GuildsWithout(guilds, dead + {k});
    forall h | h in more ensures more[h].members == if h == g then less[h].members - {k} else less[h].members {
      assert h == g || k !in guilds[h].members;
    }
    assert forall h :: h in more <==> h in less && !(h == g && guilds[g].leader == k);
  }

  lemma IndexOneMore(s: State, dead: set<SessionId>, k: SessionId)
    requires IndexOk(s) && k in IndexWithout(s, dead) && OnlyIn(s.guilds, k, s.index[k])
    ensures
      var less, g := IndexWithout(s, dead), s.index[k];
      IndexWithout(s, dead + {k})
        == if s.guilds[g].leader == k then less - (s.guilds[g].members - dead).Keys else less - {k}
  {
    var more, less, g := IndexWithout(s, dead + {k}), IndexWithout(s, dead), s.index[k];
    forall j | j in less
      ensures j in more <==> j != k && !(s.index[j] == g && s.guilds[g].leader == k)
      ensures j in s.guilds[g].members <==> s.index[j] == g
    {
    }
  }

  /** A session already gone, with its guild or on its own, changes nothing more. */
  lemma OneMoreAbsent(s: State, dead: set<SessionId>, k: SessionId)
    requires Agree(s) && k !in IndexWithout(s, dead)
    ensures Without(s, dead + {k}) == Without(s, dead)
  {
    MemberOnlyIn(s, k);
    if k in dead {
      assert dead + {k} == dead;
    } else if k in s.index {
      var g := s.index[k];
      GuildsOneMore(s.guilds, dead, k, g);
      assert s.guilds[g].leader in dead && g !in GuildsWithout(s.guilds, dead);
      hide GuildsWithout;
      assert IndexWithout(s, dead + {k}) == IndexWithout(s, dead);
    } else {
      AbsentChangesNothing(s, dead, k);
    }
  }

  lemma AbsentChangesNothing(s: State, dead: set<SessionId>, k: SessionId)
    requires k !in s.index
    requires forall h :: h in s.guilds ==> k !in s.guilds[h].members && s.guilds[h].leader != k
    ensures Without(s, dead + {k}) == Without(s, dead)
  {
    assert GuildsWithout(s.guilds, dead + {k}) == GuildsWithout(s.guilds, dead) by {
      forall h | h in s.guilds ensures s.guilds[h].members - (dead + {k}) == s.guilds[h].members - dead {
      }
    }
    assert IndexWithout(s, dead + {k}) == IndexWithout(s, dead);
  }

  lemma OneMorePresent(s: State, dead: set<SessionId>, k: SessionId)
    requires Agree(s) && k in IndexWithout(s, dead)
    ensures
      var g := s.index[k];
      && g in GuildsWithout(s.guilds, dead)
      && Without(s, dead + {k})
         == if s.guilds[g].leader == k then Dissolve(Without(s, dead), g) else DropMember(Without(s, dead), g, k)
  {
    MemberOnlyIn(s, k);
    var g := s.index[k];
    assert g in GuildsWithout(s.guilds, dead) && GuildsWithout(s.guilds, dead)[g].members == s.guilds[g].members - dead;
    GuildsOneMore(s.guilds, dead, k, g);
    IndexOneMore(s, dead, k);
    hide GuildsWithout, IndexWithout, OnlyIn, Agree;
  }

  /** Removing one session more leaves what removing all at once leaves. */
  lemma WithoutOneMore(s: State, dead: set<SessionId>, k: SessionId)
    requires Agree(s)
    ensures RemoveMember(Without(s, dead), k).0 == Without(s, dead + {k})
  {
    if k in IndexWithout(s, dead) {
      var g := s.index[k];
      assert g in GuildsWithout(s.guilds, dead) && GuildsWithout(s.guilds, dead)[g].leader == s.guilds[g].leader;
      assert k in GuildsWithout(s.guilds, dead)[g].members;
      assert IndexWithout(s, dead)[k] == g;
      OneMorePresent(s, dead, k);
    } else {
      OneMoreAbsent(s, dead, k);
    }
    hide GuildsWithout, IndexWithout, Agree, Dissolve, DropMember;
  }

  // ----- The service object -----

  class GuildService {
    var nextGuildId: nat
    var guilds: map<GuildId, GuildRecord>
    var memberIndex: map<SessionId, GuildId>

    function View(): State
      reads this
    {
      State(nextGuildId, guilds, memberIndex)
    }

    constructor ()
      ensures View() == EMPTY
    {
      nextGuildId, guilds, memberIndex := 1, map[], map[];
    }

    method CreateGuild(leader: SessionId, user: string, name: string) returns (id: Option<GuildId>)
      modifies this
      ensures (View(), id) == Create(old(View()), leader, user, name)
    {
      if leader in memberIndex || name == "" {
        return None;
      }
      var record := GuildRecord(nextGuildId, leader, name, map[leader := Member(leader, user)]);
      nextGuildId := nextGuildId + 1;
      guilds := guilds[record.id := record];
      memberIndex := memberIndex[leader := record.id];
      return Some(record.id);
    }

    method JoinGuild(g: GuildId, session: SessionId, user: string) returns (ok: bool)
      modifies this
      ensures (View(), ok) == Join(old(View()), g, session, user)
    {
      if g !in guilds || session in memberIndex {
        return false;
      }
      if session !in guilds[g].members {
        var members := guilds[g].members[session := Member(session, user)];
        guilds := guilds[g := guilds[g].(members := members)];
      } else {
        assert guilds[g := guilds[g]] == guilds;
      }
      memberIndex := memberIndex[session := g];
      return true;
    }

    /** The member loop that leaveGuild and removeMember share. */
    method DissolveGuild(g: GuildId)
      requires g in guilds
      modifies this
      ensures View() == Dissolve(old(View()), g)
    {
      var todo := guilds[g].members.Keys;
      while todo != {}
        modifies this`memberIndex
        invariant todo <= guilds[g].members.Keys
        invariant memberIndex == old(memberIndex) - (guilds[g].members.Keys - todo)
        decreases todo
      {
        var k :| k in todo;
        memberIndex := memberIndex - {k};
        todo := todo - {k};
      }
      assert guilds[g].members.Keys - todo == guilds[g].members.Keys;
      guilds := guilds - {g};
    }

    method LeaveGuild(g: GuildId, session: SessionId) returns (ok: bool)
      modifies this
      ensures (View(), ok) == Leave(old(View()), g, session)
    {
      if g !in guilds || session !in guilds[g].members {
        return false;
      }
      if guilds[g].leader == session {
        DissolveGuild(g);
        return true;
      }
      guilds := guilds[g := guilds[g].(members := guilds[g].members - {session})];
      memberIndex := memberIndex - {session};
      return true;
    }

    method Remove(session: SessionId) returns (ok: bool)
      modifies this
      ensures (View(), ok) == RemoveMember(old(View()), session)
    {
      if session !in memberIndex {
        return false;
      }
      var g := memberIndex[session];
      if g !in guilds || session !in guilds[g].members {
        memberIndex := memberIndex - {session};
        return false;
      }
      if guilds[g].leader == session {
        DissolveGuild(g);
        return true;
      }
      guilds := guilds[g := guilds[g].(members := guilds[g].members - {session})];
      memberIndex := memberIndex - {session};
      return true;
    }

    method ReplaceMemberSession(from: SessionId, to: SessionId) returns (ok: bool)
      modifies this
      ensures (View(), ok) == ReplaceMember(old(View()), from, to)
    {
      if from == to {
        return true;
      }
      if from !in memberIndex || to in memberIndex {
        return false;
      }
      var g := memberIndex[from];
      if g !in guilds || from !in guilds[g].members {
        return false;
      }
      var member := guilds[g].members[from].(session := to);
      var members := guilds[g].members - {from};
      if to !in members {
        members := members[to := member];
      }
      var leader := if guilds[g].leader == from then to else guilds[g].leader;
      guilds := guilds[g := guilds[g].(leader := leader, members := members)];
      memberIndex := (memberIndex - {from})[to := g];
      return true;
    }
  }
}
