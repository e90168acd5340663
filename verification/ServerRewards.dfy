/** Rewards over whole runs of the server: paid at most once for an instance, and conserved.

    Main results: over every run no instance has two recorded dungeon results, and a granted
    instance has ended; every stored quantity is what it was at the start plus the counts of the
    recorded dungeon results and accepted inventory updates, modulo 2^32, and an inventory's
    version counts exactly those lines. */
module ServerRewards {
  import opened Common
  import opened Server
  import ServerFrames
  import ServerInvariant
  import Session
  import Party
  import Instances
  import Reward
  import InventoryStore
  import CachedInventory

  // ----- What was credited -----

  /** One accepted line: so many of an item for an inventory. */
  datatype Line = Line(inventory: nat, item: nat, count: U32)

  function LinesFor(inventory: nat, items: Items): seq<Line> {
    if items == [] then []
    else [Line(inventory, items[0].item, items[0].quantity)] + LinesFor(inventory, items[1..])
  }

  /** The lines an event was told were accepted: all of an OK answer's, none of any other's. */
  ghost function Credit(s: State, e: Event): seq<Line>
    requires Enabled(s, e)
  {
    match e
    case Deliver(id, _, _, ResultReq(_, rewards), _) =>
      if Step(s, e).1 == Recorded && id in s.characters then LinesFor(s.characters[id], rewards) else []
    case Deliver(_, _, _, UpdateReq(character, items), _) =>
      if Step(s, e).1.Updated? && Step(s, e).1.ok then LinesFor(character, items) else []
    case _ => []
  }

  ghost function Ledger(s: State, es: seq<Event>): seq<Line>
    requires Runs(s, es)
    decreases |es|
  {
    if es == [] then [] else Credit(s, es[0]) + Ledger(Next(s, es[0]), es[1..])
  }

  function SumOf(lines: seq<Line>, inventory: nat, item: nat): nat {
    if lines == [] then 0
    else
      (if lines[0].inventory == inventory && lines[0].item == item then lines[0].count else 0)
      + SumOf(lines[1..], inventory, item)
  }

  function CountOf(lines: seq<Line>, inventory: nat): nat {
    if lines == [] then 0 else (if lines[0].inventory == inventory then 1 else 0) + CountOf(lines[1..], inventory)
  }

  lemma {:induction false} CreditsAppend(a: seq<Line>, b: seq<Line>, inventory: nat, item: nat)
    ensures SumOf(a + b, inventory, item) == SumOf(a, inventory, item) + SumOf(b, inventory, item)
    ensures CountOf(a + b, inventory) == CountOf(a, inventory) + CountOf(b, inventory)
    decreases |a|
  {
    if a == [] {
      assert a + b == b;
    } else {
      assert (a + b)[1..] == a[1..] + b;
      CreditsAppend(a[1..], b, inventory, item);
    }
  }

  // ----- What the store holds -----

  function Held(c: CachedInventory.Cached, inventory: nat, item: nat): U32 {
    InventoryStore.Quantity(InventoryStore.ItemsOf(c.persistent.live, inventory), item)
  }

  function Version(c: CachedInventory.Cached, inventory: nat): nat {
    |InventoryStore.LogOf(c.persistent.live, inventory)|
  }

  /** `after` holds what `before` did plus these lines, modulo 2^32, one log entry a line. */
  ghost predicate Credited(before: CachedInventory.Cached, after: CachedInventory.Cached, lines: seq<Line>) {
    && (forall v, k :: Held(after, v, k) == (Held(before, v, k) + SumOf(lines, v, k)) % U32_SIZE)
    && (forall v :: Version(after, v) == Version(before, v) + CountOf(lines, v))
  }

  lemma CreditedNothing(c: CachedInventory.Cached, after: CachedInventory.Cached)
    requires after.persistent.live == c.persistent.live
    ensures Credited(c, after, [])
  {
  }

  lemma ModAdd(a: nat, b: nat, c: nat)
    ensures ((a + b) % U32_SIZE + c) % U32_SIZE == (a + (b + c)) % U32_SIZE
  {
  }

  lemma CreditedThen(a: CachedInventory.Cached, b: CachedInventory.Cached, c: CachedInventory.Cached,
                     first: seq<Line>, second: seq<Line>)
    requires Credited(a, b, first) && Credited(b, c, second)
    ensures Credited(a, c, first + second)
  {
    hide Held, Version, SumOf, CountOf;
    forall v, k
      ensures Held(c, v, k) == (Held(a, v, k) + SumOf(first + second, v, k)) % U32_SIZE
    {
      CreditsAppend(first, second, v, k);
      ModAdd(Held(a, v, k), SumOf(first, v, k), SumOf(second, v, k));
    }
    forall v ensures Version(c, v) == Version(a, v) + CountOf(first + second, v) {
      CreditsAppend(first, second, v, 0);
    }
  }

  // ----- One deposit -----

  predicate AllPositive(items: Items) {
    forall r :: r in items ==> r.quantity > 0
  }

  lemma AddCredits(c: CachedInventory.Cached, inventory: nat, r: Reward.RewardItem, reason: string)
    ensures
      var (after, reply) := CachedInventory.CachedStep(c, InventoryStore.AddItem(inventory, r.item, r.quantity, reason));
      && (reply == InventoryStore.Answer(true) <==> r.quantity > 0)
      && after.persistent.open == c.persistent.open && after.nextTransaction == c.nextTransaction
      && after.persistent.nextTransaction == c.persistent.nextTransaction && after.pairs == c.pairs
      && (r.quantity > 0 ==> Credited(c, after, [Line(inventory, r.item, r.quantity)]))
  {
    var line := Line(inventory, r.item, r.quantity);
    var after := CachedInventory.CachedStep(c, InventoryStore.AddItem(inventory, r.item, r.quantity, reason)).0;
    if r.quantity > 0 {
      assert after.persistent.live == InventoryStore.Added(c.persistent.live, inventory, r.item, r.quantity, reason);
      OneLineCredits(c, after, line, reason);
      hide Credited;
    }
  }

  lemma OneLineCredits(c: CachedInventory.Cached, after: CachedInventory.Cached, line: Line, reason: string)
    requires after.persistent.live
          == InventoryStore.Added(c.persistent.live, line.inventory, line.item, line.count, reason)
    ensures Credited(c, after, [line])
  {
    assert [line][1..] == [];
    forall v ensures Version(after, v) == Version(c, v) + CountOf([line], v) {
    }
    forall v, k ensures Held(after, v, k) == (Held(c, v, k) + SumOf([line], v, k)) % U32_SIZE {
    }
  }

  /** Adding stops at the first line of count zero; before it every line is credited. */
  lemma {:induction false} AddAllCredits(c: CachedInventory.Cached, inventory: nat, items: Items, reason: string)
    ensures
      var (after, ok) := AddAll(c, inventory, items, reason);
      && (ok <==> AllPositive(items))
      && after.persistent.open == c.persistent.open && after.nextTransaction == c.nextTransaction
      && after.persistent.nextTransaction == c.persistent.nextTransaction && after.pairs == c.pairs
      && (ok ==> Credited(c, after, LinesFor(inventory, items)))
    decreases |items|
  {
    if items == [] {
      CreditedNothing(c, c);
    } else {
      var add := InventoryStore.AddItem(inventory, items[0].item, items[0].quantity, reason);
      var next := CachedInventory.CachedStep(c, add).0;
      AddCredits(c, inventory, items[0], reason);
      AddAllCredits(next, inventory, items[1..], reason);
      hide CachedInventory.CachedStep, Credited;
      assert items[0] in items && forall r :: r in items <==> r == items[0] || r in items[1..];
      if AllPositive(items) {
        CreditedThen(c, next, AddAll(c, inventory, items, reason).0,
                     [Line(inventory, items[0].item, items[0].quantity)], LinesFor(inventory, items[1..]));
      }
    }
  }

  /** A deposit goes through exactly when every count is positive; then it credits its lines, and
      otherwise it leaves the store as it was. */
  lemma DepositCredits(c: CachedInventory.Cached, inventory: nat, items: Items, reason: string)
    requires CachedInventory.Coupled(c)
    ensures
      var (after, ok) := Deposit(c, inventory, items, reason);
      && (ok <==> AllPositive(items))
      && (if ok then Credited(c, after, LinesFor(inventory, items)) else after.persistent.live == c.persistent.live)
      && CachedInventory.Coupled(after)
  {
    ServerInvariant.DepositCouples(c, inventory, items, reason);
    var begun := CachedInventory.CachedStep(c, InventoryStore.BeginTransaction).0;
    assert begun.persistent.live == c.persistent.live;
    assert c.nextTransaction in begun.persistent.open && begun.persistent.open[c.nextTransaction] == c.persistent.live;
    assert c.nextTransaction in begun.pairs && begun.pairs[c.nextTransaction].persistent == c.nextTransaction;
    AddAllCredits(begun, inventory, items, reason);
    var (added, ok) := AddAll(begun, inventory, items, reason);
    hide Credited, AddAll, CachedInventory.Coupled;
    if ok {
      var after := CachedInventory.CachedStep(added, InventoryStore.CommitTransaction(c.nextTransaction)).0;
      assert after.persistent.live == added.persistent.live;
      SameLiveCredits(c, begun, added, after, LinesFor(inventory, items));
    }
  }

  lemma SameLiveCredits(c: CachedInventory.Cached, begun: CachedInventory.Cached, added: CachedInventory.Cached,
                        after: CachedInventory.Cached, lines: seq<Line>)
    requires Credited(begun, added, lines)
    requires begun.persistent.live == c.persistent.live && after.persistent.live == added.persistent.live
    ensures Credited(c, after, lines)
  {
  }

  // ----- Every step credits what it answered -----

  /** A grant on a new reward inventory is no duplicate, and completes exactly when no count is
      zero and the counts fit. */
  lemma GrantCompletes(id: Reward.GrantId, rewards: Items)
    ensures
      var result := Reward.Grant(Reward.State(REWARD_CAPACITY, map[], map[]), id, rewards).1;
      result == if AllPositive(rewards) && Reward.SumAll(rewards) <= REWARD_CAPACITY then Reward.GrantCompleted
                else Reward.GrantFailed
  {
    Reward.PutAllComplete(REWARD_CAPACITY, map[], rewards);
    hide Reward.PutAll, Reward.SumAll;
  }

  lemma PayOutCredits(s: State, i: Instances.InstanceId, character: nat, rewards: Items)
    requires CachedInventory.Coupled(s.storage)
    ensures
      var (t, reply) := PayOut(s, i, character, rewards);
      && (reply == Recorded ==> Credited(s.storage, t.storage, LinesFor(character, rewards)))
      && (reply != Recorded ==> t.storage.persistent.live == s.storage.persistent.live)
      && reply != Refused(InventoryFailed) && CachedInventory.Coupled(t.storage)
  {
    DepositCredits(s.storage, character, rewards, "dungeon_reward");
    GrantCompletes(s.nextGrant, rewards);
    PayOutShape(s, i, character, rewards);
    hide PayOut, Credited, Deposit, CachedInventory.Coupled, Reward.Grant, Reward.SumAll, AllPositive;
  }

  lemma ConcludeCredits(s: State, sid: SessionId, i: Instances.InstanceId, to: Instances.Phase, rewards: Items)
    requires CachedInventory.Coupled(s.storage)
    ensures
      var (t, reply) := Conclude(s, sid, i, to, rewards);
      && (reply == Recorded ==>
            sid in s.characters && Credited(s.storage, t.storage, LinesFor(s.characters[sid], rewards)))
      && (reply != Recorded ==> t.storage.persistent.live == s.storage.persistent.live)
      && reply != Refused(InventoryFailed) && CachedInventory.Coupled(t.storage)
  {
    var ended := s.(instances := Instances.RequestTransition(s.instances, i, to, s.parties).0);
    if sid in s.characters {
      PayOutCredits(ended, i, s.characters[sid], rewards);
    }
    hide Credited, LinesFor, PayOut, CachedInventory.Coupled, Instances.RequestTransition;
  }

  lemma ResultCredits(s: State, sid: SessionId, cleared: bool, rewards: Items)
    requires CachedInventory.Coupled(s.storage)
    ensures
      var (t, reply) := Result(s, sid, cleared, rewards);
      && (reply == Recorded ==>
            sid in s.characters && Credited(s.storage, t.storage, LinesFor(s.characters[sid], rewards)))
      && (reply != Recorded ==> t.storage.persistent.live == s.storage.persistent.live)
      && reply != Refused(InventoryFailed) && CachedInventory.Coupled(t.storage)
  {
    if sid in s.playing {
      ConcludeCredits(s, sid, s.playing[sid], if cleared then Instances.Clear else Instances.Fail, rewards);
    }
    ServerFrames.ResultIs(s, sid, cleared, rewards);
    hide Result, Conclude, Credited, LinesFor, CachedInventory.Coupled;
  }

  lemma UpdateCredits(s: State, character: nat, items: Items)
    requires CachedInventory.Coupled(s.storage)
    ensures
      var (t, reply) := Update(s, character, items);
      && reply.Updated? && (reply.ok <==> AllPositive(items)) && reply.version == Version(t.storage, character)
      && (if reply.ok then Credited(s.storage, t.storage, LinesFor(character, items))
          else t.storage.persistent.live == s.storage.persistent.live)
      && CachedInventory.Coupled(t.storage)
  {
    DepositCredits(s.storage, character, items, "inventory_update");
    hide Credited, Deposit, CachedInventory.Coupled;
  }

  /** What a request credits, given its answer. */
  ghost function CreditFor(s: State, sid: SessionId, r: Request, reply: Reply): seq<Line> {
    match r
    case ResultReq(_, rewards) =>
      if reply == Recorded && sid in s.characters then LinesFor(s.characters[sid], rewards) else []
    case UpdateReq(character, items) => if reply.Updated? && reply.ok then LinesFor(character, items) else []
    case _ => []
  }

  lemma HandleCredits(s: State, sid: SessionId, r: Request, now: Time)
    requires sid in s.sessions && CachedInventory.Coupled(s.storage)
    ensures
      var (t, reply) := Handle(s, sid, r, now);
      Credited(s.storage, t.storage, CreditFor(s, sid, r, reply)) && CachedInventory.Coupled(t.storage)
  {
    var (t, reply) := Handle(s, sid, r, now);
    ServerFrames.HandleFrame(s, sid, r, now);
    if t.storage.persistent.live == s.storage.persistent.live {
      CreditedNothing(s.storage, t.storage);
    }
    hide Credited, Login, Logout, Reconnect, Match, Enter, Result, Update, CreateGuild, JoinGuild, LeaveGuild,
         CachedInventory.Coupled;
    match r
    case ResultReq(cleared, rewards) => ResultCredits(s, sid, cleared, rewards);
    case UpdateReq(character, items) => UpdateCredits(s, character, items);
    case _ => hide Handle;
  }

  lemma PacketCredits(s: State, sid: SessionId, v: U16, stamp: Option<Session.Stamp>, r: Request, now: Time)
    requires sid in s.sessions && CachedInventory.Coupled(s.storage)
    ensures
      var (t, reply) := Packet(s, sid, v, stamp, r, now);
      Credited(s.storage, t.storage, CreditFor(s, sid, r, reply)) && CachedInventory.Coupled(t.storage)
  {
    CreditedNothing(s.storage, s.storage);
    ServerFrames.AdmitFrame(s, sid, v, stamp, now);
    ServerFrames.PacketIs(s, sid, v, stamp, r, now);
    hide Packet, Handle, Admit, Receive, Credited, LinesFor, CachedInventory.Coupled;
    HandleCredits(Admit(Receive(s, sid, v, now), sid, stamp).0, sid, r, now);
  }

  lemma CreditIs(s: State, id: SessionId, v: U16, stamp: Option<Session.Stamp>, r: Request, now: Time)
    requires id in s.sessions
    ensures
      var e := Deliver(id, v, stamp, r, now);
      && Next(s, e) == Packet(s, id, v, stamp, r, now).0
      && Credit(s, e) == CreditFor(s, id, r, Packet(s, id, v, stamp, r, now).1)
  {
    hide Packet, LinesFor;
  }

  lemma StepCredits(s: State, e: Event)
    requires Enabled(s, e) && CachedInventory.Coupled(s.storage)
    ensures Credited(s.storage, Next(s, e).storage, Credit(s, e)) && CachedInventory.Coupled(Next(s, e).storage)
  {
    if e.Deliver? {
      CreditIs(s, e.id, e.version, e.stamp, e.request, e.now);
      PacketCredits(s, e.id, e.version, e.stamp, e.request, e.now);
      hide Next, Credit, CreditFor, Packet, Credited, CachedInventory.Coupled;
    } else {
      CreditedNothing(s.storage, s.storage);
      ServerFrames.QuietFrame(s, e);
      hide Next, Party.Step, Credited, CachedInventory.Coupled;
    }
  }

  // ----- Conservation over every run -----

  lemma {:induction false} RunConserves(s: State, es: seq<Event>)
    requires Runs(s, es) && CachedInventory.Coupled(s.storage)
    ensures Credited(s.storage, After(s, es).storage, Ledger(s, es))
    ensures CachedInventory.Coupled(After(s, es).storage)
    decreases |es|
  {
    hide Next, Enabled, Credited, Credit, CachedInventory.Coupled;
    if es == [] {
      CreditedNothing(s.storage, s.storage);
    } else {
      var next := Next(s, es[0]);
      StepCredits(s, es[0]);
      RunConserves(next, es[1..]);
      CreditedThen(s.storage, next.storage, After(s, es).storage, Credit(s, es[0]), Ledger(next, es[1..]));
    }
  }

  /** From an empty server, after any events: every quantity a load answers is the sum of the
      accepted counts modulo 2^32, and an inventory's version is the number of accepted lines. */
  lemma Conservation(es: seq<Event>, inventory: nat, item: nat)
    requires Runs(START, es)
    ensures
      var t, lines := After(START, es), Ledger(START, es);
      && Held(t.storage, inventory, item) == SumOf(lines, inventory, item) % U32_SIZE
      && Version(t.storage, inventory) == CountOf(lines, inventory)
      && CachedInventory.CachedStep(t.storage, InventoryStore.LoadInventory(inventory)).1
         == InventoryStore.Loaded(InventoryStore.Find(t.storage.persistent.live, inventory))
  {
    RunConserves(START, es);
    assert Held(START.storage, inventory, item) == 0 && Version(START.storage, inventory) == 0;
    CachedInventory.StepRefines(After(START, es).storage, InventoryStore.LoadInventory(inventory));
    hide CachedInventory.CachedStep, CachedInventory.Coupled, Held, Version, SumOf, CountOf;
  }

  lemma UpdateDelivered(s: State, sid: SessionId, v: U16, stamp: Option<Session.Stamp>, character: nat, items: Items,
                        now: Time)
    requires sid in s.sessions
    ensures
      var (admitted, packet) :=
        (Admit(Receive(s, sid, v, now), sid, stamp).0, Packet(s, sid, v, stamp, UpdateReq(character, items), now));
      !packet.1.Updated? || packet == Update(admitted, character, items)
  {
    ServerFrames.PacketIs(s, sid, v, stamp, UpdateReq(character, items), now);
    hide Packet, Admit, Receive, Update;
  }

  lemma UpdateAnswers(s: State, sid: SessionId, v: U16, stamp: Option<Session.Stamp>, character: nat, items: Items,
                      now: Time)
    requires sid in s.sessions && CachedInventory.Coupled(s.storage)
    ensures
      var (t, reply) := Packet(s, sid, v, stamp, UpdateReq(character, items), now);
      reply.Updated? ==> reply.version == Version(t.storage, character) && (reply.ok <==> AllPositive(items))
  {
    ServerFrames.AdmitFrame(s, sid, v, stamp, now);
    UpdateDelivered(s, sid, v, stamp, character, items, now);
    hide Packet, Credited, Update, Version, CachedInventory.Coupled, Receive, Admit;
    UpdateCredits(Admit(Receive(s, sid, v, now), sid, stamp).0, character, items);
  }

  /** The version an inventory update is answered with, accepted or not, counts the lines accepted
      for that inventory so far, its own included; it is accepted when no count is zero. */
  lemma VersionCountsLines(es: seq<Event>, sid: SessionId, v: U16, stamp: Option<Session.Stamp>, character: nat,
                           items: Items, now: Time)
    requires Runs(START, es) && sid in After(START, es).sessions
    ensures
      var s, e := After(START, es), Deliver(sid, v, stamp, UpdateReq(character, items), now);
      Step(s, e).1.Updated? ==>
        && Step(s, e).1.version == CountOf(Ledger(START, es), character) + CountOf(Credit(s, e), character)
        && (Step(s, e).1.ok <==> AllPositive(items))
  {
    var s, e := After(START, es), Deliver(sid, v, stamp, UpdateReq(character, items), now);
    Conservation(es, character, 0);
    RunConserves(START, es);
    hide CachedInventory.Coupled, Runs, After, Ledger, Packet, CountOf;
    UpdateAnswers(s, sid, v, stamp, character, items, now);
    StepCredits(s, e);
    hide Version, Held, SumOf, Credit;
  }
}
