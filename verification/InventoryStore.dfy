/** The snapshot-transaction store of src/inventory/in_memory_inventory_storage.cpp.

    `Store` is the value of one storage object, `StoreStep` what one call does to it and
    answers. The class performs the calls in place and is proved against `StoreStep`; the
    lemmas speak of every run of calls. */
module InventoryStore {
  import opened Common

  type InventoryId = nat
  type ItemId = nat
  type TransactionId = nat
  type Items = map<ItemId, U32>

  datatype InventoryState = InventoryState(id: InventoryId, items: Items)

  datatype ChangeType = Add | Remove | Set

  datatype Change = Change(
    id: nat,
    inventory: InventoryId,
    item: ItemId,
    quantity: U32,
    kind: ChangeType,
    reason: string)

  /** What a transaction saves at its begin and what the store holds now. */
  datatype Snapshot = Snapshot(
    inventories: map<InventoryId, Items>,
    log: map<InventoryId, seq<Change>>,
    nextChange: nat)

  datatype Store = Store(live: Snapshot, open: map<TransactionId, Snapshot>, nextTransaction: nat)

  const EMPTY_STORE: Store := Store(Snapshot(map[], map[], 1), map[], 1)

  datatype Op =
    | BeginTransaction
    | CommitTransaction(t: TransactionId)
    | RollbackTransaction(t: TransactionId)
    | LoadInventory(id: InventoryId)
    | SaveInventory(state: InventoryState)
    | AddItem(id: InventoryId, item: ItemId, quantity: U32, reason: string)
    | RemoveItem(id: InventoryId, item: ItemId, quantity: U32, reason: string)
    | SetItem(id: InventoryId, item: ItemId, quantity: U32, reason: string)
    | ChangeLog(id: InventoryId)

  datatype Reply =
    | Started(t: TransactionId)
    | Done
    | Loaded(state: Option<InventoryState>)
    | Answer(ok: bool)
    | Logged(changes: seq<Change>)

  // ----- One call -----

  function ItemsOf(s: Snapshot, id: InventoryId): Items {
    if id in s.inventories then s.inventories[id] else map[]
  }

  function LogOf(s: Snapshot, id: InventoryId): seq<Change> {
    if id in s.log then s.log[id] else []
  }

  function Quantity(items: Items, item: ItemId): U32 {
    if item in items then items[item] else 0
  }

  /** `items[item] += quantity` on 32-bit quantities. */
  function Plus(items: Items, item: ItemId, quantity: U32): Items {
    items[item := (Quantity(items, item) + quantity) % U32_SIZE]
  }

  function Minus(items: Items, item: ItemId, quantity: U32): Items {
    if Quantity(items, item) <= quantity then items - {item}
    else items[item := items[item] - quantity]
  }

  function Assign(items: Items, item: ItemId, quantity: U32): Items {
    if quantity == 0 then items - {item} else items[item := quantity]
  }

  function Put(s: Snapshot, id: InventoryId, items: Items): Snapshot {
    s.(inventories := s.inventories[id := items])
  }

  function Record(s: Snapshot, id: InventoryId, item: ItemId, quantity: U32, kind: ChangeType,
                  reason: string): Snapshot
  {
    var change := Change(s.nextChange, id, item, quantity, kind, reason);
    s.(log := s.log[id := LogOf(s, id) + [change]], nextChange := s.nextChange + 1)
  }

  function Added(s: Snapshot, id: InventoryId, item: ItemId, quantity: U32, reason: string): Snapshot {
    Record(Put(s, id, Plus(ItemsOf(s, id), item, quantity)), id, item, quantity, Add, reason)
  }

  /** A refused removal still leaves the inventory it looked in behind, possibly empty. */
  function Removed(s: Snapshot, id: InventoryId, item: ItemId, quantity: U32, reason: string): (Snapshot, bool) {
    if quantity == 0 then (s, false)
    else if item !in ItemsOf(s, id) || ItemsOf(s, id)[item] < quantity then
      (Put(s, id, ItemsOf(s, id)), false)
    else
      (Record(Put(s, id, Minus(ItemsOf(s, id), item, quantity)), id, item, quantity, Remove, reason), true)
  }

  function Assigned(s: Snapshot, id: InventoryId, item: ItemId, quantity: U32, reason: string): Snapshot {
    Record(Put(s, id, Assign(ItemsOf(s, id), item, quantity)), id, item, quantity, Set, reason)
  }

  function Find(s: Snapshot, id: InventoryId): Option<InventoryState> {
    if id in s.inventories then Some(InventoryState(id, s.inventories[id])) else None
  }

  function StoreStep(s: Store, op: Op): (Store, Reply) {
    match op
    case BeginTransaction =>
      (Store(s.live, s.open[s.nextTransaction := s.live], s.nextTransaction + 1), Started(s.nextTransaction))
    case CommitTransaction(t) => (s.(open := s.open - {t}), Done)
    case RollbackTransaction(t) =>
      (if t in s.open then s.(live := s.open[t], open := s.open - {t}) else s, Done)
    case LoadInventory(id) => (s, Loaded(Find(s.live, id)))
    case SaveInventory(state) => (s.(live := Put(s.live, state.id, state.items)), Done)
    case AddItem(id, item, quantity, reason) =>
      if quantity == 0 then (s, Answer(false))
      else (s.(live := Added(s.live, id, item, quantity, reason)), Answer(true))
    case RemoveItem(id, item, quantity, reason) =>
      var (live, ok) := Removed(s.live, id, item, quantity, reason);
      (s.(live := live), Answer(ok))
    case SetItem(id, item, quantity, reason) => (s.(live := Assigned(s.live, id, item, quantity, reason)), Done)
    case ChangeLog(id) => (s, Logged(LogOf(s.live, id)))
  }

  function StoreRun(s: Store, ops: seq<Op>): (Store, seq<Reply>)
    decreases |ops|
  {
    if ops == [] then (s, [])
    else
      var (s1, reply) := StoreStep(s, ops[0]);
      var (s2, replies) := StoreRun(s1, ops[1..]);
      (s2, [reply] + replies)
  }

  // ----- What each call does to every quantity -----

  ghost predicate Has(s: Snapshot, id: InventoryId, item: ItemId) {
    id in s.inventories && item in s.inventories[id]
  }

  ghost function Count(s: Snapshot, id: InventoryId, item: ItemId): nat {
    if Has(s, id, item) then s.inventories[id][item] else 0
  }

  /** Every item of every inventory but this one is there or not as before, in the same quantity. */
  ghost predicate OthersStay(s: Snapshot, t: Snapshot, id: InventoryId, item: ItemId) {
    forall i: InventoryId, k: ItemId :: i != id || k != item ==>
      (Has(t, i, k) <==> Has(s, i, k)) && Count(t, i, k) == Count(s, i, k)
  }

  /** This change, under the next id, is the last of its inventory's log; no other log grows. */
  ghost predicate Logs(s: Snapshot, t: Snapshot, id: InventoryId, item: ItemId, quantity: U32, kind: ChangeType,
                       reason: string)
  {
    && t.nextChange == s.nextChange + 1
    && t.log.Keys == s.log.Keys + {id}
    && t.log[id] == (if id in s.log then s.log[id] else []) + [Change(s.nextChange, id, item, quantity, kind, reason)]
    && forall i :: i in s.log && i != id ==> t.log[i] == s.log[i]
  }

  ghost predicate LogsNothing(s: Snapshot, t: Snapshot) {
    t.nextChange == s.nextChange && t.log == s.log
  }

  /** An addition is refused for nothing but a count of zero, and then changes nothing; otherwise
      the quantity grows by the count, modulo 2^32, and the addition is logged. */
  lemma AddsExactly(s: Store, id: InventoryId, item: ItemId, quantity: U32, reason: string)
    ensures
      var (t, reply) := StoreStep(s, AddItem(id, item, quantity, reason));
      && reply == Answer(quantity > 0) && (quantity == 0 ==> t == s)
      && (quantity > 0 ==>
            && Has(t.live, id, item) && Count(t.live, id, item) == (Count(s.live, id, item) + quantity) % 0x1_0000_0000
            && OthersStay(s.live, t.live, id, item) && Logs(s.live, t.live, id, item, quantity, Add, reason))
      && t.open == s.open && t.nextTransaction == s.nextTransaction
  {
  }

  /** A removal is accepted exactly for a positive count of which at least as much is held. Then the
      quantity falls by it, the item goes exactly when nothing is left, and the removal is logged. */
  lemma RemovesExactly(s: Store, id: InventoryId, item: ItemId, quantity: U32, reason: string)
    ensures
      var (t, reply) := StoreStep(s, RemoveItem(id, item, quantity, reason));
      var held := Count(s.live, id, item);
      && reply == Answer(0 < quantity <= held)
      && (reply == Answer(true) ==>
            && Count(t.live, id, item) == held - quantity && (Has(t.live, id, item) <==> quantity < held)
            && OthersStay(s.live, t.live, id, item) && Logs(s.live, t.live, id, item, quantity, Remove, reason))
      && (reply == Answer(false) ==>
            && OthersStay(s.live, t.live, id, item) && (Has(t.live, id, item) <==> Has(s.live, id, item))
            && Count(t.live, id, item) == held && LogsNothing(s.live, t.live))
      && t.open == s.open && t.nextTransaction == s.nextTransaction
  {
  }

  /** A setting makes the quantity what it says, zero removing the item, and is logged. */
  lemma SetsExactly(s: Store, id: InventoryId, item: ItemId, quantity: U32, reason: string)
    ensures
      var (t, reply) := StoreStep(s, SetItem(id, item, quantity, reason));
      && reply == Done
      && Count(t.live, id, item) == quantity && (Has(t.live, id, item) <==> quantity > 0)
      && OthersStay(s.live, t.live, id, item) && Logs(s.live, t.live, id, item, quantity, Set, reason)
      && t.open == s.open && t.nextTransaction == s.nextTransaction
  {
  }

  /** What is read is what is there, and nothing for an inventory nobody has touched; a bulk save
      replaces one inventory and logs nothing. */
  lemma ReadsAndSaves(s: Store, id: InventoryId, items: Items)
    ensures
      var (t, reply) := StoreStep(s, LoadInventory(id));
      && t == s && reply.Loaded? && (reply.state.Some? <==> id in s.live.inventories)
      && (reply.state.Some? ==> reply.state.value.id == id && reply.state.value.items == s.live.inventories[id])
    ensures StoreStep(s, ChangeLog(id)) == (s, Logged(if id in s.live.log then s.live.log[id] else []))
    ensures
      var (t, reply) := StoreStep(s, SaveInventory(InventoryState(id, items)));
      && reply == Done && LogsNothing(s.live, t.live) && t.open == s.open && t.nextTransaction == s.nextTransaction
      && id in t.live.inventories && t.live.inventories[id] == items
      && t.live.inventories.Keys == s.live.inventories.Keys + {id}
      && forall i :: i in s.live.inventories && i != id ==> t.live.inventories[i] == s.live.inventories[i]
  {
  }

  /** A begin saves what is live under a new id. A commit forgets its own snapshot and nothing else;
      a rollback makes it live again. Ids that are not open do nothing. */
  lemma TransactionsExactly(s: Store, t: TransactionId)
    ensures
      var (b, reply) := StoreStep(s, BeginTransaction);
      && reply == Started(s.nextTransaction) && b.nextTransaction == s.nextTransaction + 1 && b.live == s.live
      && b.open.Keys == s.open.Keys + {s.nextTransaction} && b.open[s.nextTransaction] == s.live
      && forall o :: o in s.open && o != s.nextTransaction ==> b.open[o] == s.open[o]
    ensures
      var (c, reply) := StoreStep(s, CommitTransaction(t));
      && reply == Done && c.live == s.live && c.nextTransaction == s.nextTransaction && c.open.Keys == s.open.Keys - {t}
      && forall o :: o in c.open ==> c.open[o] == s.open[o]
    ensures
      var (r, reply) := StoreStep(s, RollbackTransaction(t));
      && reply == Done && r.live == (if t in s.open then s.open[t] else s.live) && r.nextTransaction == s.nextTransaction
      && r.open.Keys == s.open.Keys - {t} && forall o :: o in r.open ==> r.open[o] == s.open[o]
  {
  }

  // ----- Over runs: the balance of the log -----

  /** What a log says is held of an item: its additions less its removals since it was last set. */
  function Balance(log: seq<Change>, item: ItemId): int {
    if log == [] then 0
    else
      var (rest, last) := (log[..|log| - 1], log[|log| - 1]);
      if last.item != item then Balance(rest, item)
      else
        match last.kind
        case Add => Balance(rest, item) + last.quantity
        case Remove => Balance(rest, item) - last.quantity
        case Set => last.quantity
  }

  lemma BalanceSnoc(log: seq<Change>, change: Change, item: ItemId)
    ensures Balance(log + [change], item)
         == if change.item != item then Balance(log, item)
            else if change.kind == Add then Balance(log, item) + change.quantity
            else if change.kind == Remove then Balance(log, item) - change.quantity
            else change.quantity
  {
    assert (log + [change])[..|log|] == log;
  }

  function Entries(s: Snapshot, id: InventoryId): seq<Change> {
    if id in s.log then s.log[id] else []
  }

  /** Every quantity is the balance of its inventory's log, modulo 2^32. */
  ghost predicate Balanced(s: Snapshot) {
    forall id: InventoryId, item: ItemId :: Count(s, id, item) == Balance(Entries(s, id), item) % 0x1_0000_0000
  }

  lemma ChangeBalances(s: Snapshot, t: Snapshot, id: InventoryId, item: ItemId, quantity: U32, kind: ChangeType,
                       reason: string)
    requires Balanced(s) && OthersStay(s, t, id, item) && Logs(s, t, id, item, quantity, kind, reason)
    requires
      var held := Count(s, id, item);
      Count(t, id, item) == match kind
                            case Add => (held + quantity) % 0x1_0000_0000
                            case Remove => held - quantity
                            case Set => quantity
    ensures Balanced(t)
  {
    hide Balance, Has, Count;
    var change := Change(s.nextChange, id, item, quantity, kind, reason);
    forall i: InventoryId, k: ItemId ensures Count(t, i, k) == Balance(Entries(t, i), k) % 0x1_0000_0000 {
      assert Count(s, i, k) == Balance(Entries(s, i), k) % 0x1_0000_0000;
      if i == id {
        BalanceSnoc(Entries(s, id), change, k);
      } else {
        assert Entries(t, i) == Entries(s, i);
      }
    }
  }

  lemma StepBalances(s: Store, op: Op)
    requires Balanced(s.live) && (forall t :: t in s.open ==> Balanced(s.open[t])) && !op.SaveInventory?
    ensures
      var after := StoreStep(s, op).0;
      Balanced(after.live) && (forall t :: t in after.open ==> Balanced(after.open[t]))
  {
    var after := StoreStep(s, op).0;
    match op
    case AddItem(id, item, quantity, reason) =>
      AddsExactly(s, id, item, quantity, reason);
      hide StoreStep, Balanced, OthersStay, Logs;
      if quantity > 0 {
        ChangeBalances(s.live, after.live, id, item, quantity, Add, reason);
      }
    case RemoveItem(id, item, quantity, reason) =>
      RemovesExactly(s, id, item, quantity, reason);
      if StoreStep(s, op).1 == Answer(true) {
        hide StoreStep, Balanced, OthersStay, Logs;
        ChangeBalances(s.live, after.live, id, item, quantity, Remove, reason);
      } else {
        hide StoreStep, Count, Has, Balance;
        SameBalances(s.live, after.live, id, item);
      }
    case SetItem(id, item, quantity, reason) =>
      SetsExactly(s, id, item, quantity, reason);
      hide StoreStep, Balanced, OthersStay, Logs;
      ChangeBalances(s.live, after.live, id, item, quantity, Set, reason);
    case _ =>
      hide Balanced;
  }

  lemma SameBalances(s: Snapshot, t: Snapshot, id: InventoryId, item: ItemId)
    requires Balanced(s) && OthersStay(s, t, id, item) && Count(t, id, item) == Count(s, id, item) && t.log == s.log
    ensures Balanced(t)
  {
    hide Balance, Has, Count;
    forall i: InventoryId, k: ItemId ensures Count(t, i, k) == Balance(Entries(t, i), k) % 0x1_0000_0000 {
      assert Count(s, i, k) == Balance(Entries(s, i), k) % 0x1_0000_0000;
    }
  }

  /** Over every run that never bulk-saves, what is held of an item is what its log's additions, less
      its removals, come to since it was last set, modulo 2^32, in the store and in every snapshot
      still open. */
  lemma {:induction false} RunBalances(s: Store, ops: seq<Op>)
    requires Balanced(s.live) && (forall t :: t in s.open ==> Balanced(s.open[t]))
    requires forall op :: op in ops ==> !op.SaveInventory?
    ensures
      var after := StoreRun(s, ops).0;
      Balanced(after.live) && (forall t :: t in after.open ==> Balanced(after.open[t]))
    decreases |ops|
  {
    hide Balanced, StoreStep;
    if ops != [] {
      StepBalances(s, ops[0]);
      RunBalances(StoreStep(s, ops[0]).0, ops[1..]);
    }
  }

  // ----- The log replays to the items -----

  function Effect(items: Items, change: Change): Items {
    match change.kind
    case Add => Plus(items, change.item, change.quantity)
    case Remove => Minus(items, change.item, change.quantity)
    case Set => Assign(items, change.item, change.quantity)
  }

  function Replay(log: seq<Change>): Items {
    if log == [] then map[] else Effect(Replay(log[..|log| - 1]), log[|log| - 1])
  }

  ghost predicate Replays(s: Snapshot) {
    forall id: InventoryId :: ItemsOf(s, id) == Replay(LogOf(s, id))
  }

  lemma ReplaySnoc(log: seq<Change>, change: Change)
    ensures Replay(log + [change]) == Effect(Replay(log), change)
  {
    assert (log + [change])[..|log|] == log;
  }

  lemma RecordReplays(s: Snapshot, id: InventoryId, item: ItemId, quantity: U32, kind: ChangeType, reason: string)
    requires Replays(s)
    ensures
      var change := Change(s.nextChange, id, item, quantity, kind, reason);
      Replays(Record(Put(s, id, Effect(ItemsOf(s, id), change)), id, item, quantity, kind, reason))
  {
    var change := Change(s.nextChange, id, item, quantity, kind, reason);
    var after := Record(Put(s, id, Effect(ItemsOf(s, id), change)), id, item, quantity, kind, reason);
    ReplaySnoc(LogOf(s, id), change);
    hide Effect, Replay;
    forall other: InventoryId ensures ItemsOf(after, other) == Replay(LogOf(after, other)) {
      assert ItemsOf(s, other) == Replay(LogOf(s, other));
    }
  }

  lemma StepReplays(s: Store, op: Op)
    requires Replays(s.live) && (forall t :: t in s.open ==> Replays(s.open[t]))
    requires !op.SaveInventory?
    ensures
      var after := StoreStep(s, op).0;
      Replays(after.live) && (forall t :: t in after.open ==> Replays(after.open[t]))
  {
    match op
    case AddItem(id, item, quantity, reason) => RecordReplays(s.live, id, item, quantity, Add, reason);
    case RemoveItem(id, item, quantity, reason) =>
      RecordReplays(s.live, id, item, quantity, Remove, reason);
      assert ItemsOf(s.live, id) == Replay(LogOf(s.live, id));
      if !Removed(s.live, id, item, quantity, reason).1 {
        var after := Removed(s.live, id, item, quantity, reason).0;
        forall other: InventoryId ensures ItemsOf(after, other) == Replay(LogOf(after, other)) {
          assert ItemsOf(s.live, other) == Replay(LogOf(s.live, other));
        }
      }
    case SetItem(id, item, quantity, reason) => RecordReplays(s.live, id, item, quantity, Set, reason);
    case _ =>
  }

  /** Over every run that never bulk-saves, each inventory is the replay of its own change log,
      in the store and in every snapshot still open. */
  lemma {:induction false} RunReplays(s: Store, ops: seq<Op>)
    requires Replays(s.live) && (forall t :: t in s.open ==> Replays(s.open[t]))
    requires forall op :: op in ops ==> !op.SaveInventory?
    ensures
      var after := StoreRun(s, ops).0;
      Replays(after.live) && (forall t :: t in after.open ==> Replays(after.open[t]))
    decreases |ops|
  {
    if ops != [] {
      StepReplays(s, ops[0]);
      RunReplays(StoreStep(s, ops[0]).0, ops[1..]);
    }
  }

  // ----- Change ids -----

  /** Every logged change sits in its own inventory's log, below the next id. */
  ghost predicate IdsBelow(s: Snapshot) {
    forall id, k :: id in s.log && 0 <= k < |s.log[id]| ==>
      s.log[id][k].inventory == id && s.log[id][k].id < s.nextChange
  }

  /** Along one log the ids rise strictly. */
  ghost predicate IdsRise(s: Snapshot) {
    forall id, j, k :: id in s.log && 0 <= j < k < |s.log[id]| ==> s.log[id][j].id < s.log[id][k].id
  }

  /** No id is used in two logs. */
  ghost predicate IdsDistinct(s: Snapshot) {
    forall a, b, j, k :: a in s.log && b in s.log && a != b && 0 <= j < |s.log[a]| && 0 <= k < |s.log[b]| ==>
      s.log[a][j].id != s.log[b][k].id
  }

  ghost predicate IdsOrdered(s: Snapshot) {
    IdsBelow(s) && IdsRise(s) && IdsDistinct(s)
  }

  lemma RecordRises(s: Snapshot, id: InventoryId, item: ItemId, quantity: U32, kind: ChangeType, reason: string)
    requires IdsBelow(s) && IdsRise(s)
    ensures IdsRise(Record(s, id, item, quantity, kind, reason))
  {
    var after := Record(s, id, item, quantity, kind, reason);
    forall other, j, k | other in after.log && 0 <= j < k < |after.log[other]|
      ensures after.log[other][j].id < after.log[other][k].id
    {
      assert other in s.log && after.log[other][j] == s.log[other][j];
    }
  }

  lemma RecordOrdered(s: Snapshot, id: InventoryId, item: ItemId, quantity: U32, kind: ChangeType, reason: string)
    requires IdsOrdered(s)
    ensures IdsOrdered(Record(s, id, item, quantity, kind, reason))
  {
    var after := Record(s, id, item, quantity, kind, reason);
    assert IdsBelow(after);
    RecordRises(s, id, item, quantity, kind, reason);
    hide IdsRise;
    forall a, b, j, k | a in after.log && b in after.log && a != b && 0 <= j < |after.log[a]| && 0 <= k < |after.log[b]|
      ensures after.log[a][j].id != after.log[b][k].id
    {
      var oldA := a in s.log && j < |s.log[a]|;
      var oldB := b in s.log && k < |s.log[b]|;
      assert oldA ==> after.log[a][j] == s.log[a][j];
      assert oldB ==> after.log[b][k] == s.log[b][k];
      assert !oldA ==> after.log[a][j].id == s.nextChange;
      assert !oldB ==> after.log[b][k].id == s.nextChange;
    }
  }

  lemma {:induction false} RunOrdersIds(s: Store, ops: seq<Op>)
    requires IdsOrdered(s.live) && (forall t :: t in s.open ==> IdsOrdered(s.open[t]))
    ensures
      var after := StoreRun(s, ops).0;
      IdsOrdered(after.live) && (forall t :: t in after.open ==> IdsOrdered(after.open[t]))
    decreases |ops|
  {
    if ops != [] {
      StepOrdersIds(s, ops[0]);
      RunOrdersIds(StoreStep(s, ops[0]).0, ops[1..]);
    }
  }

  lemma StepOrdersIds(s: Store, op: Op)
    requires IdsOrdered(s.live) && (forall t :: t in s.open ==> IdsOrdered(s.open[t]))
    ensures
      var after := StoreStep(s, op).0;
      IdsOrdered(after.live) && (forall t :: t in after.open ==> IdsOrdered(after.open[t]))
  {
    match op
    case AddItem(id, item, quantity, reason) =>
      RecordOrdered(Put(s.live, id, Plus(ItemsOf(s.live, id), item, quantity)), id, item, quantity, Add, reason);
    case RemoveItem(id, item, quantity, reason) =>
      RecordOrdered(Put(s.live, id, Minus(ItemsOf(s.live, id), item, quantity)), id, item, quantity, Remove, reason);
    case SetItem(id, item, quantity, reason) =>
      RecordOrdered(Put(s.live, id, Assign(ItemsOf(s.live, id), item, quantity)), id, item, quantity, Set, reason);
    case _ =>
  }

  // ----- Rollback -----

  predicate Ends(op: Op, t: TransactionId) {
    op == CommitTransaction(t) || op == RollbackTransaction(t)
  }

  lemma {:induction false} RunKeepsSnapshot(s: Store, ops: seq<Op>, t: TransactionId)
    requires t in s.open && t < s.nextTransaction
    requires forall op :: op in ops ==> !Ends(op, t)
    ensures
      var after := StoreRun(s, ops).0;
      t in after.open && after.open[t] == s.open[t] && t < after.nextTransaction
    decreases |ops|
  {
    if ops != [] {
      assert !Ends(ops[0], t);
      RunKeepsSnapshot(StoreStep(s, ops[0]).0, ops[1..], t);
    }
  }

  /** Whatever calls, other transactions included, run between a begin and its rollback, the
      rollback puts inventories, logs and the next change id back as they were at the begin. */
  lemma RollbackRestores(s: Store, ops: seq<Op>)
    requires forall op :: op in ops ==> !Ends(op, s.nextTransaction)
    ensures
      var begun := StoreStep(s, BeginTransaction).0;
      var ran := StoreRun(begun, ops).0;
      var back := StoreStep(ran, RollbackTransaction(s.nextTransaction)).0;
      back.live == s.live && back.open == ran.open - {s.nextTransaction}
  {
    RunKeepsSnapshot(StoreStep(s, BeginTransaction).0, ops, s.nextTransaction);
  }

  // ----- The storage object -----

  class InMemoryInventoryStorage {
    var nextTransactionId: nat
    var nextChangeId: nat
    var activeTransactions: set<TransactionId>
    var transactionSnapshots: map<TransactionId, Snapshot>
    var inventories: map<InventoryId, Items>
    var changes: map<InventoryId, seq<Change>>

    ghost predicate Valid()
      reads this
    {
      && activeTransactions == transactionSnapshots.Keys
      && forall t :: t in transactionSnapshots ==> t < nextTransactionId
    }

    function Live(): Snapshot
      reads this
    {
      Snapshot(inventories, changes, nextChangeId)
    }

    ghost function State(): Store
      reads this
    {
      Store(Live(), transactionSnapshots, nextTransactionId)
    }

    constructor ()
      ensures Valid() && State() == EMPTY_STORE
    {
      nextTransactionId, nextChangeId := 1, 1;
      activeTransactions, transactionSnapshots := {}, map[];
      inventories, changes := map[], map[];
    }

    method Begin() returns (t: TransactionId)
      requires Valid()
      modifies this
      ensures Valid() && (State(), Started(t)) == StoreStep(old(State()), BeginTransaction)
    {
      t := nextTransactionId;
      nextTransactionId := nextTransactionId + 1;
      activeTransactions := activeTransactions + {t};
      transactionSnapshots := transactionSnapshots[t := Live()];
    }

    method Commit(t: TransactionId)
      requires Valid()
      modifies this
      ensures Valid() && (State(), Done) == StoreStep(old(State()), CommitTransaction(t))
    {
      activeTransactions := activeTransactions - {t};
      transactionSnapshots := transactionSnapshots - {t};
    }

    method Rollback(t: TransactionId)
      requires Valid()
      modifies this
      ensures Valid() && (State(), Done) == StoreStep(old(State()), RollbackTransaction(t))
    {
      if t in transactionSnapshots {
        var snapshot := transactionSnapshots[t];
        inventories, changes, nextChangeId := snapshot.inventories, snapshot.log, snapshot.nextChange;
        transactionSnapshots := transactionSnapshots - {t};
      }
      activeTransactions := activeTransactions - {t};
    }

    method Load(id: InventoryId) returns (state: Option<InventoryState>)
      ensures (State(), Loaded(state)) == StoreStep(State(), LoadInventory(id))
    {
      state := if id in inventories then Some(InventoryState(id, inventories[id])) else None;
    }

    method Save(state: InventoryState)
      requires Valid()
      modifies this
      ensures Valid() && (State(), Done) == StoreStep(old(State()), SaveInventory(state))
    {
      inventories := inventories[state.id := state.items];
    }

    method GetOrCreate(id: InventoryId)
      modifies this`inventories
      ensures inventories == old(inventories)[id := ItemsOf(old(Live()), id)]
    {
      if id !in inventories {
        inventories := inventories[id := map[]];
      }
    }

    method RecordChange(id: InventoryId, item: ItemId, quantity: U32, kind: ChangeType, reason: string)
      modifies this`changes, this`nextChangeId
      ensures Live() == Record(old(Live()), id, item, quantity, kind, reason)
    {
      var change := Change(nextChangeId, id, item, quantity, kind, reason);
      nextChangeId := nextChangeId + 1;
      if id in changes {
        changes := changes[id := changes[id] + [change]];
      } else {
        changes := changes[id := [] + [change]];
      }
    }

    method Add(id: InventoryId, item: ItemId, quantity: U32, reason: string) returns (ok: bool)
      requires Valid()
      modifies this
      ensures Valid() && (State(), Answer(ok)) == StoreStep(old(State()), AddItem(id, item, quantity, reason))
    {
      if quantity == 0 {
        return false;
      }
      GetOrCreate(id);
      var items := inventories[id];
      var held: U32 := if item in items then items[item] else 0;
      var updated: Items := items[item := (held + quantity) % U32_SIZE];
      inventories := inventories[id := updated];
      assert Live() == Put(old(Live()), id, Plus(ItemsOf(old(Live()), id), item, quantity));
      RecordChange(id, item, quantity, ChangeType.Add, reason);
      return true;
    }

    method Remove(id: InventoryId, item: ItemId, quantity: U32, reason: string) returns (ok: bool)
      requires Valid()
      modifies this
      ensures Valid() && (State(), Answer(ok)) == StoreStep(old(State()), RemoveItem(id, item, quantity, reason))
    {
      if quantity == 0 {
        return false;
      }
      GetOrCreate(id);
      var items := inventories[id];
      if item !in items || items[item] < quantity {
        return false;
      }
      if items[item] - quantity == 0 {
        inventories := inventories[id := items - {item}];
      } else {
        inventories := inventories[id := items[item := items[item] - quantity]];
      }
      assert Live() == Put(old(Live()), id, Minus(ItemsOf(old(Live()), id), item, quantity));
      RecordChange(id, item, quantity, ChangeType.Remove, reason);
      return true;
    }

    method SetQuantity(id: InventoryId, item: ItemId, quantity: U32, reason: string)
      requires Valid()
      modifies this
      ensures Valid() && (State(), Done) == StoreStep(old(State()), SetItem(id, item, quantity, reason))
    {
      GetOrCreate(id);
      if quantity == 0 {
        inventories := inventories[id := inventories[id] - {item}];
      } else {
        var updated: Items := inventories[id][item := quantity];
        inventories := inventories[id := updated];
      }
      assert Live() == Put(old(Live()), id, Assign(ItemsOf(old(Live()), id), item, quantity));
      RecordChange(id, item, quantity, ChangeType.Set, reason);
    }

    method Log(id: InventoryId) returns (log: seq<Change>)
      ensures (State(), Logged(log)) == StoreStep(State(), ChangeLog(id))
    {
      log := if id in changes then changes[id] else [];
    }
  }
}
