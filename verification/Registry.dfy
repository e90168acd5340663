/** The session registry nested in src/net/server.cpp: which session each user is logged in on. */
module Registry {
  import opened Common
  import opened Session

  datatype State = State(records: map<SessionId, UserContext>, active: map<string, SessionId>)

  const EMPTY: State := State(map[], map[])

  // ----- One call -----

  /** The entry of the user recorded for `id` goes, whichever session it names. */
  function Forget(s: State, id: SessionId): map<string, SessionId> {
    if id in s.records then s.active - {s.records[id].user} else s.active
  }

  function Register(s: State, id: SessionId, record: UserContext): (State, bool) {
    if record.user in s.active && s.active[record.user] != id then (s, false)
    else (State(s.records[id := record], Forget(s, id)[record.user := id]), true)
  }

  function Remove(s: State, id: SessionId): State {
    State(s.records - {id}, Forget(s, id))
  }

  /** A registration goes through exactly if the user is active on no other session. Then the session
      is recorded as the user's and the user active on it, whoever it was recorded for before is
      active no more, and no other session or user is touched. */
  lemma RegistersExactly(s: State, id: SessionId, record: UserContext)
    ensures
      var (t, ok) := Register(s, id, record);
      && (ok <==> forall u :: u in s.active && u == record.user ==> s.active[u] == id)
      && (!ok ==> t == s)
      && (ok ==>
            && id in t.records && t.records[id] == record
            && (forall k :: k != id ==>
                  (k in t.records <==> k in s.records) && (k in s.records ==> t.records[k] == s.records[k]))
            && record.user in t.active && t.active[record.user] == id
            && (forall u :: u != record.user ==>
                  && (u in t.active <==> u in s.active && !(id in s.records && s.records[id].user == u))
                  && (u in t.active ==> t.active[u] == s.active[u])))
  {
  }

  /** A removed session has no record, the user it was recorded for is active nowhere, and no other
      session or user is touched. */
  lemma RemovesExactly(s: State, id: SessionId)
    ensures
      var t := Remove(s, id);
      && id !in t.records
      && (forall k :: k != id ==>
            (k in t.records <==> k in s.records) && (k in s.records ==> t.records[k] == s.records[k]))
      && (forall u ::
            && (u in t.active <==> u in s.active && !(id in s.records && s.records[id].user == u))
            && (u in t.active ==> t.active[u] == s.active[u]))
  {
  }

  // ----- The two maps are each other's inverse -----

  ghost predicate Inverse(s: State) {
    && (forall id :: id in s.records ==> s.records[id].user in s.active && s.active[s.records[id].user] == id)
    && (forall u :: u in s.active ==> s.active[u] in s.records && s.records[s.active[u]].user == u)
  }

  lemma RegisterKeepsInverse(s: State, id: SessionId, record: UserContext)
    requires Inverse(s)
    ensures Inverse(Register(s, id, record).0)
  {
  }

  lemma RemoveKeepsInverse(s: State, id: SessionId)
    requires Inverse(s)
    ensures Inverse(Remove(s, id))
  {
  }

  /** While the maps are inverse, a user is active after a registration exactly on the session that is
      recorded for it, and the registering session is nobody else's. */
  lemma ActiveWhereRecorded(s: State, id: SessionId, record: UserContext, u: string, k: SessionId)
    requires Inverse(s) && Register(s, id, record).1
    ensures
      var t := Register(s, id, record).0;
      (u in t.active && t.active[u] == k)
      <==> if k == id then u == record.user
           else u != record.user && k in s.records && s.records[k].user == u
  {
    RegisterKeepsInverse(s, id, record);
    RegistersExactly(s, id, record);
  }

  /** Removing the session a user is active on frees the user exactly when that session's record
      is the user's own. */
  lemma RemoveFrees(s: State, user: string)
    requires user in s.active
    ensures
      var id := s.active[user];
      user !in Remove(s, id).active <==> id in s.records && s.records[id].user == user
  {
  }

  /** The registry without the sessions `dead`. */
  function Without(s: State, dead: set<SessionId>): State {
    State(s.records - dead, map u | u in s.active && s.active[u] !in dead :: s.active[u])
  }

  /** In an inverse pair, removing one session more leaves what removing all at once leaves. */
  lemma WithoutOneMore(s: State, dead: set<SessionId>, id: SessionId)
    requires Inverse(s)
    ensures Remove(Without(s, dead), id) == Without(s, dead + {id})
  {
    var once, more := Remove(Without(s, dead), id), Without(s, dead + {id});
    assert once.records == more.records;
    assert once.active == more.active;
  }

  // ----- The registry object -----

  class SessionRegistry {
    var records: map<SessionId, UserContext>
    var activeUsers: map<string, SessionId>

    function View(): State
      reads this
    {
      State(records, activeUsers)
    }

    constructor ()
      ensures View() == EMPTY
    {
      records, activeUsers := map[], map[];
    }

    method RegisterSession(id: SessionId, record: UserContext) returns (ok: bool)
      modifies this
      ensures (View(), ok) == Register(old(View()), id, record)
    {
      if record.user in activeUsers && activeUsers[record.user] != id {
        return false;
      }
      if id in records {
        activeUsers := activeUsers - {records[id].user};
      }
      activeUsers := activeUsers[record.user := id];
      records := records[id := record];
      return true;
    }

    method RemoveSession(id: SessionId)
      modifies this
      ensures View() == Remove(old(View()), id)
    {
      if id in records {
        activeUsers := activeUsers - {records[id].user};
        records := records - {id};
      } else {
        assert records - {id} == records;
      }
    }

    /** The session a user is logged in on. */
    method HasUser(user: string) returns (id: Option<SessionId>)
      ensures id == if user in View().active then Some(View().active[user]) else None
    {
      id := if user in activeUsers then Some(activeUsers[user]) else None;
    }
  }
}
