/** The capacity-bounded reward inventory of src/reward/inventory.cpp and the all-or-nothing
    grant of src/reward/reward_service.cpp.

    Main result: a failed grant puts the items back exactly, for every inventory and item list,
    if and only if the capacity is below 2^32. */
module Reward {
  import opened Common

  type ItemId = nat
  type GrantId = nat
  type Items = map<ItemId, U32>

  datatype Status = Pending | Completed | Failed
  datatype RewardItem = RewardItem(item: ItemId, quantity: U32)
  datatype GrantResult = GrantCompleted | GrantDuplicate | GrantFailed

  datatype State = State(capacity: nat, items: Items, grants: map<GrantId, Status>)

  // ----- One call -----

  function Quantity(items: Items, item: ItemId): U32 {
    if item in items then items[item] else 0
  }

  ghost function Total(items: Items): nat
    decreases |items|
  {
    if items == map[] then 0
    else
      var k :| k in items;
      items[k] + Total(items - {k})
  }

  /** `items[item] += quantity` on 32-bit quantities. */
  function Plus(items: Items, r: RewardItem): Items {
    items[r.item := (Quantity(items, r.item) + r.quantity) % U32_SIZE]
  }

  ghost predicate Fits(capacity: nat, items: Items, r: RewardItem) {
    r.quantity != 0 && Total(items) + r.quantity <= capacity
  }

  function Take(items: Items, r: RewardItem): Items {
    if r.quantity == 0 || r.item !in items then items
    else if items[r.item] <= r.quantity then items - {r.item}
    else items[r.item := items[r.item] - r.quantity]
  }

  function TakeAll(items: Items, rs: seq<RewardItem>): Items
    decreases |rs|
  {
    if rs == [] then items else TakeAll(Take(items, rs[0]), rs[1..])
  }

  /** The items put in before the first that does not fit, and whether all of them fit. */
  ghost function PutAll(capacity: nat, items: Items, rs: seq<RewardItem>): (Items, nat)
    ensures PutAll(capacity, items, rs).1 <= |rs|
    decreases |rs|
  {
    if rs == [] || !Fits(capacity, items, rs[0]) then (items, 0)
    else
      var (rest, n) := PutAll(capacity, Plus(items, rs[0]), rs[1..]);
      (rest, n + 1)
  }

  ghost function Grant(s: State, id: GrantId, rs: seq<RewardItem>): (State, GrantResult) {
    if id in s.grants && s.grants[id] != Failed then (s, GrantDuplicate)
    else
      var (put, n) := PutAll(s.capacity, s.items, rs);
      if n == |rs| then (State(s.capacity, put, s.grants[id := Completed]), GrantCompleted)
      else (State(s.capacity, TakeAll(put, rs[..n]), s.grants[id := Failed]), GrantFailed)
  }

  // ----- Sums -----

  function Part(items: Items, ks: set<ItemId>): Items {
    map k | k in ks && k in items :: items[k]
  }

  lemma {:induction false} TotalSplit(items: Items, k: ItemId)
    requires k in items
    ensures Total(items) == items[k] + Total(items - {k})
    decreases |items|
  {
    var j :| j in items && Total(items) == items[j] + Total(items - {j});
    if j != k {
      TotalSplit(items - {j}, k);
      TotalSplit(items - {k}, j);
      assert items - {j} - {k} == items - {k} - {j};
    }
  }

  lemma TotalBounds(items: Items, k: ItemId)
    ensures Quantity(items, k) <= Total(items)
  {
    if k in items {
      TotalSplit(items, k);
    }
  }

  lemma TotalPlus(capacity: nat, items: Items, r: RewardItem)
    requires capacity < U32_SIZE && Fits(capacity, items, r)
    ensures Quantity(items, r.item) + r.quantity < U32_SIZE
    ensures Total(Plus(items, r)) == Total(items) + r.quantity
  {
    TotalBounds(items, r.item);
    var after := Plus(items, r);
    TotalSplit(after, r.item);
    if r.item in items {
      TotalSplit(items, r.item);
      assert after - {r.item} == items - {r.item};
    } else {
      assert after - {r.item} == items;
    }
  }

  function SumFor(rs: seq<RewardItem>, item: ItemId): nat {
    if rs == [] then 0
    else (if rs[0].item == item then rs[0].quantity else 0) + SumFor(rs[1..], item)
  }

  function SumAll(rs: seq<RewardItem>): nat {
    if rs == [] then 0 else rs[0].quantity + SumAll(rs[1..])
  }

  ghost predicate Positive(items: Items) {
    forall k :: k in items ==> items[k] > 0
  }

  /** `after` is `before` with the counts of `rs` added, repeated ids and all. */
  ghost predicate Adds(before: Items, rs: seq<RewardItem>, after: Items) {
    forall k :: (k in after <==> k in before || SumFor(rs, k) > 0)
      && Quantity(after, k) == Quantity(before, k) + SumFor(rs, k)
  }

  // ----- A completed grant adds exactly the list -----

  lemma SumForStep(r: RewardItem, rs: seq<RewardItem>, k: ItemId)
    ensures SumFor([r] + rs, k) == (if r.item == k then r.quantity else 0) + SumFor(rs, k)
  {
    assert ([r] + rs)[1..] == rs;
  }

  lemma PutAllStep(items: Items, r: RewardItem, rs: seq<RewardItem>, put: Items)
    requires r.quantity > 0 && Quantity(items, r.item) + r.quantity < U32_SIZE
    requires Adds(Plus(items, r), rs, put)
    ensures Adds(items, [r] + rs, put)
  {
    hide SumFor;
    forall k
      ensures k in put <==> k in items || SumFor([r] + rs, k) > 0
      ensures Quantity(put, k) == Quantity(items, k) + SumFor([r] + rs, k)
    {
      SumForStep(r, rs, k);
    }
  }

  lemma PrefixStep(r: RewardItem, rs: seq<RewardItem>, n: nat)
    requires n <= |rs|
    ensures ([r] + rs)[..n + 1] == [r] + rs[..n]
  {
  }

  lemma {:induction false} PutAllAdds(capacity: nat, items: Items, rs: seq<RewardItem>)
    requires capacity < U32_SIZE && Positive(items)
    ensures
      var (put, n) := PutAll(capacity, items, rs);
      Adds(items, rs[..n], put) && (forall r :: r in rs[..n] ==> r.quantity > 0)
    decreases |rs|
  {
    if rs != [] && Fits(capacity, items, rs[0]) {
      var r, after := rs[0], Plus(items, rs[0]);
      TotalPlus(capacity, items, r);
      PutAllAdds(capacity, after, rs[1..]);
      var (put, n) := PutAll(capacity, after, rs[1..]);
      assert PutAll(capacity, items, rs) == (put, n + 1) && r.quantity > 0;
      assert rs == [r] + rs[1..];
      PrefixStep(r, rs[1..], n);
      hide Adds, Total, PutAll, Fits, Plus;
      PutAllStep(items, r, rs[1..][..n], put);
    }
  }

  lemma {:induction false} PutAllTotal(capacity: nat, items: Items, rs: seq<RewardItem>)
    requires capacity < U32_SIZE && Total(items) <= capacity
    ensures
      var (put, n) := PutAll(capacity, items, rs);
      && Total(put) == Total(items) + SumAll(rs[..n]) <= capacity
      && (n < |rs| ==> !Fits(capacity, put, rs[n]))
    decreases |rs|
  {
    if rs != [] && Fits(capacity, items, rs[0]) {
      var n := PutAll(capacity, items, rs).1;
      TotalPlus(capacity, items, rs[0]);
      PutAllTotal(capacity, Plus(items, rs[0]), rs[1..]);
      assert rs[..n][1..] == rs[1..][..n - 1];
    }
  }

  lemma AddsKeepsPositive(before: Items, rs: seq<RewardItem>, after: Items)
    requires Positive(before) && Adds(before, rs, after)
    ensures Positive(after)
  {
    forall k | k in after ensures after[k] > 0 {
      assert Quantity(after, k) == Quantity(before, k) + SumFor(rs, k);
    }
  }

  // ----- A failed grant undoes itself, front to back -----

  /** Taking the first item back off a total that still holds the rest. */
  lemma TakeFirst(before: Items, rs: seq<RewardItem>, put: Items)
    requires rs != [] && rs[0].quantity > 0 && Positive(before) && Adds(before, rs, put)
    ensures Adds(before, rs[1..], Take(put, rs[0]))
  {
    forall k
      ensures k in Take(put, rs[0]) <==> k in before || SumFor(rs[1..], k) > 0
      ensures Quantity(Take(put, rs[0]), k) == Quantity(before, k) + SumFor(rs[1..], k)
    {
      assert SumFor(rs, k) == (if rs[0].item == k then rs[0].quantity else 0) + SumFor(rs[1..], k);
      assert k in before ==> before[k] > 0;
    }
  }

  lemma {:induction false} TakeAllUndoes(before: Items, rs: seq<RewardItem>, put: Items)
    requires Positive(before) && Adds(before, rs, put)
    requires forall r :: r in rs ==> r.quantity > 0
    ensures TakeAll(put, rs) == before
    decreases |rs|
  {
    if rs == [] {
      assert put == before by {
        assert forall k :: k in put <==> k in before;
        assert forall k :: k in put ==> Quantity(put, k) == Quantity(before, k);
      }
    } else {
      TakeFirst(before, rs, put);
      TakeAllUndoes(before, rs[1..], Take(put, rs[0]));
    }
  }

  /** A grant on an inventory within its capacity adds exactly the list or nothing at all. A
      completed one has only positive counts, an id is completed at most once, and the total
      never passes the capacity. */
  lemma GrantIsAtomic(s: State, id: GrantId, rs: seq<RewardItem>)
    requires s.capacity < U32_SIZE && Positive(s.items) && Total(s.items) <= s.capacity
    ensures
      var (after, result) := Grant(s, id, rs);
      && after.capacity == s.capacity && Positive(after.items) && Total(after.items) <= s.capacity
      && (result == GrantCompleted ==>
            && Adds(s.items, rs, after.items) && (forall r :: r in rs ==> r.quantity > 0)
            && Total(after.items) == Total(s.items) + SumAll(rs)
            && !(id in s.grants && s.grants[id] == Completed) && after.grants == s.grants[id := Completed])
      && (result != GrantCompleted ==> after.items == s.items)
      && (id in s.grants && s.grants[id] == Completed ==> after == s && result == GrantDuplicate)
  {
    var (put, n) := PutAll(s.capacity, s.items, rs);
    PutAllAdds(s.capacity, s.items, rs);
    PutAllTotal(s.capacity, s.items, rs);
    AddsKeepsPositive(s.items, rs[..n], put);
    if n == |rs| {
      assert rs[..n] == rs;
    } else {
      TakeAllUndoes(s.items, rs[..n], put);
    }
  }

  /** A grant on an empty inventory completes exactly when every count is positive and they fit. */
  lemma {:induction false} PutAllComplete(capacity: nat, items: Items, rs: seq<RewardItem>)
    requires capacity < U32_SIZE && Total(items) <= capacity
    ensures PutAll(capacity, items, rs).1 == |rs|
       <==> (forall r :: r in rs ==> r.quantity > 0) && Total(items) + SumAll(rs) <= capacity
    decreases |rs|
  {
    if rs != [] {
      assert rs[0] in rs && forall r :: r in rs <==> r == rs[0] || r in rs[1..];
      if Fits(capacity, items, rs[0]) {
        TotalPlus(capacity, items, rs[0]);
        PutAllComplete(capacity, Plus(items, rs[0]), rs[1..]);
      }
    }
  }

  /** A grant id that is pending or completed is a duplicate; any other grant completes exactly when
      every count is positive and they fit on top of what is there, and fails otherwise. A duplicate
      changes nothing, and the others leave their mark. */
  lemma GrantsExactly(s: State, id: GrantId, rs: seq<RewardItem>)
    requires s.capacity < 0x1_0000_0000 && Total(s.items) <= s.capacity
    ensures
      var (after, result) := Grant(s, id, rs);
      var open := id !in s.grants || s.grants[id] == Failed;
      var fits := (forall r :: r in rs ==> r.quantity > 0) && Total(s.items) + SumAll(rs) <= s.capacity;
      && (result == GrantDuplicate <==> !open) && (result == GrantDuplicate ==> after == s)
      && (result == GrantCompleted <==> open && fits)
      && (result == GrantCompleted ==> after.grants == s.grants[id := Completed])
      && (result == GrantFailed <==> open && !fits)
      && (result == GrantFailed ==> after.grants == s.grants[id := Failed])
  {
    PutAllComplete(s.capacity, s.items, rs);
    hide PutAll, TakeAll, Total, SumAll;
  }

  /** Adding counts modulo 2^32, taking counts down to nothing and then drops the item; both leave
      every other item alone. */
  lemma OneItemOnly(items: Items, r: RewardItem, k: ItemId)
    ensures
      var (more, less) := (Plus(items, r), Take(items, r));
      && (k in more <==> k in items || k == r.item)
      && Quantity(more, k) == (if k == r.item then (Quantity(items, k) + r.quantity) % 0x1_0000_0000 else Quantity(items, k))
      && (k in less <==> k in items && (k == r.item && r.quantity > 0 ==> items[k] > r.quantity))
      && (k in less ==> less[k] == if k == r.item then items[k] - r.quantity else items[k])
  {
  }

  // ----- When the capacity lets a 32-bit quantity wrap -----

  /** Every failed grant, on every inventory of this capacity, puts the items back. */
  ghost predicate Atomic(capacity: nat) {
    forall s: State, id: GrantId, rs: seq<RewardItem>
      | s.capacity == capacity && Positive(s.items) && Total(s.items) <= capacity ::
      Grant(s, id, rs).1 == GrantFailed ==> Grant(s, id, rs).0.items == s.items
  }

  /** One item of a kind, topped up by 2^32 - 1 of it, wraps to zero; undoing a grant that then
      fails erases the kind altogether. */
  lemma WrapLosesItems(capacity: nat)
    requires U32_SIZE <= capacity
    ensures
      var items: Items := map[7 := 1];
      var rs := [RewardItem(7, 0xFFFF_FFFF), RewardItem(7, 0)];
      Positive(items) && Total(items) == 1 &&
      Grant(State(capacity, items, map[]), 1, rs) == (State(capacity, map[], map[1 := Failed]), GrantFailed)
  {
    var items: Items := map[7 := 1];
    var first, second := RewardItem(7, 0xFFFF_FFFF), RewardItem(7, 0);
    var rs := [first, second];
    TotalSplit(items, 7);
    assert items - {7} == map[];
    assert Plus(items, first) == map[7 := 0];
    assert rs[1..] == [second];
    assert PutAll(capacity, map[7 := 0], [second]) == (map[7 := 0], 0);
    assert PutAll(capacity, items, rs) == (map[7 := 0], 1);
    assert rs[..1] == [first] && [first][1..] == [];
    assert Take(map[7 := 0], first) == map[];
    assert TakeAll(map[7 := 0], [first]) == TakeAll(Take(map[7 := 0], first), []);
  }

  /** Failed grants restore the items, for all inventories and lists, exactly when the capacity
      is below 2^32. */
  lemma AtomicExactly(capacity: nat)
    ensures Atomic(capacity) <==> capacity < U32_SIZE
  {
    if capacity < U32_SIZE {
      forall s: State, id: GrantId, rs: seq<RewardItem>
        | s.capacity == capacity && Positive(s.items) && Total(s.items) <= capacity
        ensures Grant(s, id, rs).1 == GrantFailed ==> Grant(s, id, rs).0.items == s.items
      {
        GrantIsAtomic(s, id, rs);
      }
    } else {
      WrapLosesItems(capacity);
      var s := State(capacity, map[7 := 1], map[]);
      var after := Grant(s, 1, [RewardItem(7, 0xFFFF_FFFF), RewardItem(7, 0)]).0;
      assert 7 in s.items && 7 !in after.items;
    }
  }

  // ----- Client totals -----

  /** validateClientRewards accepts exactly the lists that are short enough, have only positive
      counts and whose true, unwrapped total is within the limit. */
  method ValidateClientRewards(rs: seq<RewardItem>, maxItems: nat, maxTotal: U32) returns (ok: bool)
    ensures ok <==> |rs| <= maxItems && (forall r :: r in rs ==> r.quantity > 0) && SumAll(rs) <= maxTotal
  {
    if |rs| > maxItems {
      return false;
    }
    var total: U32 := 0;
    for i := 0 to |rs|
      invariant total == SumAll(rs[..i]) <= maxTotal
      invariant forall r :: r in rs[..i] ==> r.quantity > 0
    {
      SumAllPrefix(rs, i);
      assert rs[i] in rs;
      if rs[i].quantity == 0 || rs[i].quantity > maxTotal || total > maxTotal - rs[i].quantity {
        return false;
      }
      total := total + rs[i].quantity;
      assert rs[..i + 1] == rs[..i] + [rs[i]];
    }
    assert rs[..|rs|] == rs;
    return true;
  }

  lemma {:induction false} SumAllPrefix(rs: seq<RewardItem>, i: nat)
    requires i < |rs|
    ensures SumAll(rs[..i + 1]) == SumAll(rs[..i]) + rs[i].quantity
    ensures SumAll(rs[..i + 1]) <= SumAll(rs)
    decreases |rs|
  {
    assert rs[..i + 1][1..] == rs[1..][..i];
    if i > 0 {
      assert rs[..i][1..] == rs[1..][..i - 1];
      SumAllPrefix(rs[1..], i - 1);
    }
  }

  // ----- The inventory and service objects -----

  class Inventory {
    const capacity: nat
    var items: Items
    var grantStatus: map<GrantId, Status>

    function View(): State
      reads this
    {
      State(capacity, items, grantStatus)
    }

    constructor (capacity: nat)
      ensures View() == State(capacity, map[], map[])
    {
      this.capacity := capacity;
      items, grantStatus := map[], map[];
    }

    method BeginGrant(id: GrantId) returns (ok: bool)
      modifies this`grantStatus
      ensures ok <==> !(id in old(grantStatus) && old(grantStatus)[id] != Failed)
      ensures grantStatus == if ok then old(grantStatus)[id := Pending] else old(grantStatus)
    {
      if id in grantStatus && (grantStatus[id] == Completed || grantStatus[id] == Pending) {
        return false;
      }
      grantStatus := grantStatus[id := Pending];
      return true;
    }

    method CommitGrant(id: GrantId)
      modifies this`grantStatus
      ensures grantStatus == old(grantStatus)[id := Completed]
    {
      grantStatus := grantStatus[id := Completed];
    }

    method FailGrant(id: GrantId)
      modifies this`grantStatus
      ensures grantStatus == old(grantStatus)[id := Failed]
    {
      grantStatus := grantStatus[id := Failed];
    }

    method TotalQuantity() returns (total: nat)
      ensures total == Total(items)
    {
      total := 0;
      var todo := items.Keys;
      assert Part(items, todo) == items;
      while todo != {}
        invariant todo <= items.Keys
        invariant total + Total(Part(items, todo)) == Total(items)
        decreases todo
      {
        ghost var left := Part(items, todo);
        var k :| k in todo;
        TotalSplit(left, k);
        assert left - {k} == Part(items, todo - {k});
        total := total + items[k];
        todo := todo - {k};
      }
    }

    method AddItem(r: RewardItem) returns (ok: bool)
      modifies this`items
      ensures ok <==> Fits(capacity, old(items), r)
      ensures items == if ok then Plus(old(items), r) else old(items)
    {
      if r.quantity == 0 {
        return false;
      }
      var total := TotalQuantity();
      if total + r.quantity > capacity {
        return false;
      }
      var held: U32 := if r.item in items then items[r.item] else 0;
      items := items[r.item := (held + r.quantity) % U32_SIZE];
      return true;
    }

    method RemoveItem(r: RewardItem)
      modifies this`items
      ensures items == Take(old(items), r)
    {
      if r.quantity == 0 || r.item !in items {
        return;
      }
      if items[r.item] <= r.quantity {
        items := items - {r.item};
      } else {
        items := items[r.item := items[r.item] - r.quantity];
      }
    }
  }

  /** grantRewardsDetailed: put the items in one by one; on the first refusal take back those put
      in, in the order they went in. */
  method GrantRewardsDetailed(inventory: Inventory, id: GrantId, rs: seq<RewardItem>) returns (result: GrantResult)
    modifies inventory
    ensures (inventory.View(), result) == Grant(old(inventory.View()), id, rs)
  {
    var begun := inventory.BeginGrant(id);
    if !begun {
      return GrantDuplicate;
    }
    ghost var (put, n) := PutAll(inventory.capacity, inventory.items, rs);
    var applied: seq<RewardItem> := [];
    for i := 0 to |rs|
      invariant applied == rs[..i] && i <= n
      invariant inventory.grantStatus == old(inventory.grantStatus)[id := Pending]
      invariant PutAll(inventory.capacity, inventory.items, rs[i..]) == (put, n - i)
    {
      var ok := inventory.AddItem(rs[i]);
      if !ok {
        assert i == n;
        ghost var full := inventory.items;
        assert applied[0..] == applied;
        for j := 0 to |applied|
          modifies inventory`items
          invariant TakeAll(inventory.items, applied[j..]) == TakeAll(full, applied)
        {
          inventory.RemoveItem(applied[j]);
          assert applied[j..][1..] == applied[j + 1..];
        }
        assert applied[|applied|..] == [] && applied == rs[..n];
        inventory.FailGrant(id);
        assert inventory.grantStatus == old(inventory.grantStatus)[id := Failed];
        assert inventory.items == TakeAll(put, rs[..n]);
        return GrantFailed;
      }
      applied := applied + [rs[i]];
      assert rs[i..][1..] == rs[i + 1..];
    }
    inventory.CommitGrant(id);
    assert inventory.grantStatus == old(inventory.grantStatus)[id := Completed];
    return GrantCompleted;
  }
}
