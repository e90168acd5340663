/** The write-through, read-through cache of src/inventory/cached_inventory_storage.cpp.

    Main result: started on empty stores it answers every run of calls, with any interleaving
    of transactions, exactly as the persistent store alone would. Started with an empty cache
    over a store that already holds something, it does so if and only if every persisted
    inventory is empty. */
module CachedInventory {
  import opened Common
  import opened InventoryStore

  /** A cached transaction and the pair of transactions it opened underneath. */
  datatype TransactionPair = TransactionPair(persistent: TransactionId, cache: TransactionId)

  datatype Cached = Cached(
    persistent: Store,
    cache: Store,
    pairs: map<TransactionId, TransactionPair>,
    nextTransaction: nat)

  const EMPTY_CACHED: Cached := Cached(EMPTY_STORE, EMPTY_STORE, map[], 1)

  // ----- One call -----

  function Fill(c: Cached, persisted: Option<InventoryState>): Cached {
    match persisted
    case None => c
    case Some(state) => c.(cache := StoreStep(c.cache, SaveInventory(state)).0)
  }

  function Refreshed(c: Cached, id: InventoryId): Cached {
    Fill(c, Find(c.persistent.live, id))
  }

  /** A write goes to the persistent store first; if the cache refuses it, the cache reloads. */
  function Write(c: Cached, op: Op, id: InventoryId): (Cached, Reply) {
    var (persistent, reply) := StoreStep(c.persistent, op);
    if reply == Answer(false) then (c.(persistent := persistent), reply)
    else
      var (cache, cacheReply) := StoreStep(c.cache, op);
      var written := c.(persistent := persistent, cache := cache);
      (if cacheReply == Answer(false) then Refreshed(written, id) else written, reply)
  }

  function CachedStep(c: Cached, op: Op): (Cached, Reply) {
    match op
    case BeginTransaction =>
      var t := c.nextTransaction;
      var (persistent, startedP) := StoreStep(c.persistent, BeginTransaction);
      var (cache, startedC) := StoreStep(c.cache, BeginTransaction);
      (Cached(persistent, cache, c.pairs[t := TransactionPair(startedP.t, startedC.t)], t + 1), Started(t))
    case CommitTransaction(t) =>
      if t !in c.pairs then (c, Done) else
        (c.(persistent := StoreStep(c.persistent, CommitTransaction(c.pairs[t].persistent)).0,
            cache := StoreStep(c.cache, CommitTransaction(c.pairs[t].cache)).0,
            pairs := c.pairs - {t}), Done)
    case RollbackTransaction(t) =>
      if t !in c.pairs then (c, Done) else
        (c.(persistent := StoreStep(c.persistent, RollbackTransaction(c.pairs[t].persistent)).0,
            cache := StoreStep(c.cache, RollbackTransaction(c.pairs[t].cache)).0,
            pairs := c.pairs - {t}), Done)
    case LoadInventory(id) =>
      var cached := Find(c.cache.live, id);
      if cached.Some? then (c, Loaded(cached))
      else (Refreshed(c, id), Loaded(Find(c.persistent.live, id)))
    case SaveInventory(state) => Write(c, op, state.id)
    case AddItem(id, _, _, _) => Write(c, op, id)
    case RemoveItem(id, _, _, _) => Write(c, op, id)
    case SetItem(id, _, _, _) => Write(c, op, id)
    case ChangeLog(id) => (c, Logged(LogOf(c.persistent.live, id)))
  }

  function CachedRun(c: Cached, ops: seq<Op>): (Cached, seq<Reply>)
    decreases |ops|
  {
    if ops == [] then (c, [])
    else
      var (c1, reply) := CachedStep(c, ops[0]);
      var (c2, replies) := CachedRun(c1, ops[1..]);
      (c2, [reply] + replies)
  }

  // ----- The cached store refines the plain one -----

  /** A cached inventory equals its persisted one; an uncached one is absent or empty there. */
  ghost predicate InStep(persistent: Snapshot, cache: Snapshot) {
    && cache.inventories.Keys <= persistent.inventories.Keys
    && forall id :: id in persistent.inventories ==>
         persistent.inventories[id] == ItemsOf(cache, id)
  }

  /** The coupling holds between the stores and between every pair of open snapshots, and all
      three layers number their transactions alike. */
  ghost predicate Coupled(c: Cached) {
    && InStep(c.persistent.live, c.cache.live)
    && c.pairs.Keys == c.persistent.open.Keys == c.cache.open.Keys
    && (forall t :: t in c.pairs ==>
          c.pairs[t] == TransactionPair(t, t) && InStep(c.persistent.open[t], c.cache.open[t]))
    && c.nextTransaction == c.persistent.nextTransaction == c.cache.nextTransaction
  }

  /** Writing the same items into both stores keeps them in step. */
  lemma PutKeepsStep(p: Snapshot, c: Snapshot, id: InventoryId, items: Items)
    requires InStep(p, c)
    ensures ItemsOf(p, id) == ItemsOf(c, id)
    ensures InStep(Put(p, id, items), Put(c, id, items))
    ensures items == ItemsOf(p, id) ==> InStep(Put(p, id, items), c)
  {
  }

  /** A write whose new contents keep the stores in step refines the plain write. */
  lemma WriteRefines(c: Cached, op: Op, id: InventoryId)
    requires Coupled(c)
    requires
      var (persistent, reply) := StoreStep(c.persistent, op);
      var (cache, cacheReply) := StoreStep(c.cache, op);
      && cacheReply == reply
      && persistent.open == c.persistent.open && persistent.nextTransaction == c.persistent.nextTransaction
      && cache.open == c.cache.open && cache.nextTransaction == c.cache.nextTransaction
      && InStep(persistent.live, if reply == Answer(false) then c.cache.live else cache.live)
    ensures
      var (after, reply) := Write(c, op, id);
      Coupled(after) && (after.persistent, reply) == StoreStep(c.persistent, op)
  {
  }

  lemma AddRefines(c: Cached, op: Op)
    requires Coupled(c) && op.AddItem?
    ensures
      var (after, reply) := CachedStep(c, op);
      Coupled(after) && (after.persistent, reply) == StoreStep(c.persistent, op)
  {
    PutKeepsStep(c.persistent.live, c.cache.live, op.id, Plus(ItemsOf(c.persistent.live, op.id), op.item, op.quantity));
    WriteRefines(c, op, op.id);
  }

  lemma RemoveRefines(c: Cached, op: Op)
    requires Coupled(c) && op.RemoveItem?
    ensures
      var (after, reply) := CachedStep(c, op);
      Coupled(after) && (after.persistent, reply) == StoreStep(c.persistent, op)
  {
    var items := ItemsOf(c.persistent.live, op.id);
    PutKeepsStep(c.persistent.live, c.cache.live, op.id, items);
    PutKeepsStep(c.persistent.live, c.cache.live, op.id, Minus(items, op.item, op.quantity));
    WriteRefines(c, op, op.id);
  }

  lemma SetRefines(c: Cached, op: Op)
    requires Coupled(c) && op.SetItem?
    ensures
      var (after, reply) := CachedStep(c, op);
      Coupled(after) && (after.persistent, reply) == StoreStep(c.persistent, op)
  {
    PutKeepsStep(c.persistent.live, c.cache.live, op.id, Assign(ItemsOf(c.persistent.live, op.id), op.item, op.quantity));
    WriteRefines(c, op, op.id);
  }

  lemma EndRefines(c: Cached, op: Op)
    requires Coupled(c)
    requires op.CommitTransaction? || op.RollbackTransaction?
    ensures
      var (after, reply) := CachedStep(c, op);
      Coupled(after) && (after.persistent, reply) == StoreStep(c.persistent, op)
  {
    if op.t !in c.pairs {
      assert c.persistent.open - {op.t} == c.persistent.open;
    }
  }

  lemma StepRefines(c: Cached, op: Op)
    requires Coupled(c)
    ensures
      var (after, reply) := CachedStep(c, op);
      Coupled(after) && (after.persistent, reply) == StoreStep(c.persistent, op)
  {
    match op
    case AddItem(_, _, _, _) => AddRefines(c, op);
    case RemoveItem(_, _, _, _) => RemoveRefines(c, op);
    case SetItem(_, _, _, _) => SetRefines(c, op);
    case CommitTransaction(_) => EndRefines(c, op);
    case RollbackTransaction(_) => EndRefines(c, op);
    case LoadInventory(id) => assert ItemsOf(c.persistent.live, id) == ItemsOf(c.cache.live, id);
    case _ =>
  }

  lemma {:induction false} RunRefines(c: Cached, ops: seq<Op>)
    requires Coupled(c)
    ensures
      var (after, replies) := CachedRun(c, ops);
      Coupled(after) && (after.persistent, replies) == StoreRun(c.persistent, ops)
    decreases |ops|
  {
    if ops != [] {
      StepRefines(c, ops[0]);
      RunRefines(CachedStep(c, ops[0]).0, ops[1..]);
    }
  }

  /** From empty stores the cache is invisible: every run gets the replies of the plain store. */
  lemma CacheIsInvisible(ops: seq<Op>)
    ensures CachedRun(EMPTY_CACHED, ops).1 == StoreRun(EMPTY_STORE, ops).1
  {
    RunRefines(EMPTY_CACHED, ops);
  }

  // ----- What the cache itself holds, in step or not -----

  /** A load answers what the cache holds, or else what is persisted, and keeps the answer: a second
      load gives it again, whatever has become of the persisted inventory. */
  lemma LoadsExactly(c: Cached, id: InventoryId, later: Store)
    ensures
      var (t, reply) := CachedStep(c, LoadInventory(id));
      var (held, stored) := (c.cache.live.inventories, c.persistent.live.inventories);
      && reply == Loaded(if id in held then Some(InventoryState(id, held[id]))
                         else if id in stored then Some(InventoryState(id, stored[id])) else None)
      && t.persistent == c.persistent && t.pairs == c.pairs && t.nextTransaction == c.nextTransaction
      && (forall k :: k in t.cache.live.inventories <==> k in held || (k == id && k in stored))
      && (forall k :: k in held ==> t.cache.live.inventories[k] == held[k])
      && (reply.state.Some? ==> CachedStep(t.(persistent := later), LoadInventory(id)).1 == reply)
  {
  }

  /** An addition or removal is answered by the persistent store. If it is refused there, the cache is
      not touched; if only the cache refuses it, the cache takes over the persisted inventory. */
  lemma WritesExactly(c: Cached, op: Op)
    requires op.AddItem? || op.RemoveItem?
    ensures
      var (t, reply) := CachedStep(c, op);
      var (cache, cacheReply) := StoreStep(c.cache, op);
      && (t.persistent, reply) == StoreStep(c.persistent, op)
      && (reply == Answer(false) ==> t.cache == c.cache)
      && (reply == Answer(true) && cacheReply == Answer(true) ==> t.cache == cache)
      && (reply == Answer(true) && cacheReply == Answer(false) ==>
            && op.id in t.persistent.live.inventories && op.id in t.cache.live.inventories
            && t.cache.live.inventories[op.id] == t.persistent.live.inventories[op.id])
      && t.pairs == c.pairs && t.nextTransaction == c.nextTransaction
  {
  }

  /** Whatever the cache holds, once it has refused a removal that went through, loads answer what is
      persisted again. */
  lemma RefusalHeals(c: Cached, id: InventoryId, item: ItemId, quantity: U32, reason: string)
    requires
      var op := RemoveItem(id, item, quantity, reason);
      StoreStep(c.persistent, op).1 == Answer(true) && StoreStep(c.cache, op).1 == Answer(false)
    ensures
      var t := CachedStep(c, RemoveItem(id, item, quantity, reason)).0;
      CachedStep(t, LoadInventory(id)).1 == StoreStep(t.persistent, LoadInventory(id)).1
  {
    var t := CachedStep(c, RemoveItem(id, item, quantity, reason)).0;
    WritesExactly(c, RemoveItem(id, item, quantity, reason));
    LoadsExactly(t, id, t.persistent);
    hide CachedStep;
  }

  // ----- A cold cache over a store that already holds something -----

  /** A server restart: a store without open transactions under a new, empty cache. */
  function Cold(persistent: Snapshot): Cached {
    Cached(Store(persistent, map[], 1), EMPTY_STORE, map[], 1)
  }

  ghost predicate Invisible(c: Cached) {
    forall ops: seq<Op> :: CachedRun(c, ops).1 == StoreRun(c.persistent, ops).1
  }

  predicate AllEmpty(persistent: Snapshot) {
    forall id :: id in persistent.inventories ==> persistent.inventories[id] == map[]
  }

  /** Adding an item to a persisted inventory the cache has not loaded leaves the cache holding
      that item alone, so the next load answers without the rest. */
  lemma ColdAddHidesItems(persistent: Snapshot, id: InventoryId, item: ItemId)
    requires id in persistent.inventories && item in persistent.inventories[id]
    ensures
      var ops := [AddItem(id, item + 1, 1, ""), LoadInventory(id)];
      CachedRun(Cold(persistent), ops).1 != StoreRun(Cold(persistent).persistent, ops).1
  {
    var c := Cold(persistent);
    var add := AddItem(id, item + 1, 1, "");
    var load := LoadInventory(id);
    assert [add, load][1..] == [load] && [load][1..] == [];
    var c1 := CachedStep(c, add).0;
    var p1 := StoreStep(c.persistent, add).0;
    assert CachedRun(c1, [load]).1 == [CachedStep(c1, load).1] + CachedRun(CachedStep(c1, load).0, []).1;
    assert StoreRun(p1, [load]).1 == [StoreStep(p1, load).1] + StoreRun(StoreStep(p1, load).0, []).1;
    assert item !in CachedStep(c1, load).1.state.value.items;
    assert item in StoreStep(p1, load).1.state.value.items;
    assert CachedRun(c, [add, load]).1[1] == CachedStep(c1, load).1;
    assert StoreRun(c.persistent, [add, load]).1[1] == StoreStep(p1, load).1;
  }

  /** A cold cache is invisible exactly when every persisted inventory is empty. */
  lemma ColdCacheExact(persistent: Snapshot)
    ensures Invisible(Cold(persistent)) <==> AllEmpty(persistent)
  {
    var c := Cold(persistent);
    if AllEmpty(persistent) {
      forall ops: seq<Op> ensures CachedRun(c, ops).1 == StoreRun(c.persistent, ops).1 {
        RunRefines(c, ops);
      }
    } else {
      var id :| id in persistent.inventories && persistent.inventories[id] != map[];
      var item :| item in persistent.inventories[id];
      ColdAddHidesItems(persistent, id, item);
    }
  }

  // ----- The storage object -----

  class CachedInventoryStorage {
    const persistent: InMemoryInventoryStorage
    const cache: InMemoryInventoryStorage
    var transactions: map<TransactionId, TransactionPair>
    var nextTransactionId: nat

    ghost predicate Valid()
      reads this, persistent, cache
    {
      && persistent != cache
      && persistent.Valid() && cache.Valid()
    }

    ghost function State(): Cached
      reads this, persistent, cache
    {
      Cached(persistent.State(), cache.State(), transactions, nextTransactionId)
    }

    constructor (persistent: InMemoryInventoryStorage, cache: InMemoryInventoryStorage)
      requires persistent != cache && persistent.Valid() && cache.Valid()
      ensures Valid() && this.persistent == persistent && this.cache == cache
      ensures State() == Cached(persistent.State(), cache.State(), map[], 1)
    {
      this.persistent, this.cache := persistent, cache;
      transactions, nextTransactionId := map[], 1;
    }

    method Begin() returns (t: TransactionId)
      requires Valid()
      modifies this, persistent, cache
      ensures Valid() && (State(), Started(t)) == CachedStep(old(State()), BeginTransaction)
    {
      t := nextTransactionId;
      nextTransactionId := nextTransactionId + 1;
      var inPersistent := persistent.Begin();
      var inCache := cache.Begin();
      transactions := transactions[t := TransactionPair(inPersistent, inCache)];
    }

    method Commit(t: TransactionId)
      requires Valid()
      modifies this, persistent, cache
      ensures Valid() && (State(), Done) == CachedStep(old(State()), CommitTransaction(t))
    {
      if t !in transactions {
        return;
      }
      persistent.Commit(transactions[t].persistent);
      cache.Commit(transactions[t].cache);
      transactions := transactions - {t};
    }

    method Rollback(t: TransactionId)
      requires Valid()
      modifies this, persistent, cache
      ensures Valid() && (State(), Done) == CachedStep(old(State()), RollbackTransaction(t))
    {
      if t !in transactions {
        return;
      }
      persistent.Rollback(transactions[t].persistent);
      cache.Rollback(transactions[t].cache);
      transactions := transactions - {t};
    }

    method Load(id: InventoryId) returns (state: Option<InventoryState>)
      requires Valid()
      modifies cache
      ensures Valid() && (State(), Loaded(state)) == CachedStep(old(State()), LoadInventory(id))
    {
      state := cache.Load(id);
      if state.Some? {
        return;
      }
      state := persistent.Load(id);
      if state.Some? {
        cache.Save(state.value);
      }
    }

    method Save(state: InventoryState)
      requires Valid()
      modifies persistent, cache
      ensures Valid() && (State(), Done) == CachedStep(old(State()), SaveInventory(state))
    {
      persistent.Save(state);
      cache.Save(state);
    }

    method Add(id: InventoryId, item: ItemId, quantity: U32, reason: string) returns (ok: bool)
      requires Valid()
      modifies persistent, cache
      ensures Valid() && (State(), Answer(ok)) == CachedStep(old(State()), AddItem(id, item, quantity, reason))
    {
      ok := persistent.Add(id, item, quantity, reason);
      if ok {
        // Both stores refuse an addition on its quantity alone, so the cache cannot refuse here
        // and its reload never happens.
        var cached := cache.Add(id, item, quantity, reason);
        assert cached;
      }
    }

    method Remove(id: InventoryId, item: ItemId, quantity: U32, reason: string) returns (ok: bool)
      requires Valid()
      modifies persistent, cache
      ensures Valid() && (State(), Answer(ok)) == CachedStep(old(State()), RemoveItem(id, item, quantity, reason))
    {
      ok := persistent.Remove(id, item, quantity, reason);
      if ok {
        var cached := cache.Remove(id, item, quantity, reason);
        if !cached {
          RefreshCache(id);
        }
      }
    }

    method SetQuantity(id: InventoryId, item: ItemId, quantity: U32, reason: string)
      requires Valid()
      modifies persistent, cache
      ensures Valid() && (State(), Done) == CachedStep(old(State()), SetItem(id, item, quantity, reason))
    {
      persistent.SetQuantity(id, item, quantity, reason);
      cache.SetQuantity(id, item, quantity, reason);
    }

    method Log(id: InventoryId) returns (log: seq<Change>)
      ensures (State(), Logged(log)) == CachedStep(State(), ChangeLog(id))
    {
      log := persistent.Log(id);
    }

    method RefreshCache(id: InventoryId)
      requires Valid()
      modifies cache
      ensures Valid() && State() == Refreshed(old(State()), id)
    {
      var state := persistent.Load(id);
      if state.Some? {
        cache.Save(state.value);
      }
    }
  }
}
