/** The reading and writing primitives of src/net/protocol.cpp as they work on a buffer and an
    offset, and four encode/decode pairs built from them: one with a list of strings, one with
    a leading boolean, one with reward items, one with strings alone. Each is proved to write
    and read the fields of its layout in `Protocol`. */
module MessageCodec {
  import opened Common
  import opened Framing
  import opened Protocol

  lemma Regroup(a: Buffer, b: Buffer, c: Buffer)
    ensures a + b + c == a + (b + c)
  {
  }

  class ByteWriter {
    var out: Buffer

    constructor ()
      ensures out == []
    {
      out := [];
    }

    method WriteBool(b: bool)
      modifies this
      ensures out == old(out) + PutField(FBool(b))
    {
      out := out + [if b then 1 else 0];
    }

    method WriteU16(v: U16)
      modifies this
      ensures out == old(out) + PutField(FU16(v))
    {
      ShiftsAreBigEndian(v, 0);
      out := out + [v / 0x100 % 0x100] + [v % 0x100];
    }

    method WriteU32(v: U32)
      modifies this
      ensures out == old(out) + PutField(FU32(v))
    {
      ShiftsAreBigEndian(0, v);
      out := out + [v / 0x100_0000 % 0x100, v / 0x1_0000 % 0x100, v / 0x100 % 0x100, v % 0x100];
    }

    method WriteU64(v: U64)
      modifies this
      ensures out == old(out) + PutField(FU64(v))
    {
      var bytes := BytesOfU64(v);
      out := out + bytes;
    }

    method WriteText(t: Text)
      modifies this
      ensures out == old(out) + PutField(FText(t))
    {
      var length := Min(|t|, LIMIT);
      assert t[..length] == Clip(t);
      hide BigEndian, Clip;
      WriteU16(length);
      out := out + t[..length];
    }

    method WriteTexts(ts: seq<Text>)
      modifies this
      ensures out == old(out) + PutField(FTexts(ts))
    {
      var length := Min(|ts|, LIMIT);
      assert ts[..length] == Clip(ts);
      hide BigEndian, Clip, PutEach;
      Regroup(out, PutField(FU16(length)), PutEach(ts[..length]));
      WriteU16(length);
      WriteEachText(ts[..length]);
    }

    method WriteEachText(ts: seq<Text>)
      modifies this
      ensures out == old(out) + PutEach(ts)
    {
      hide PutText;
      for i := 0 to |ts|
        invariant out == old(out) + PutEach(ts[..i])
      {
        PutEachSnoc(ts, i);
        WriteText(ts[i]);
      }
      assert ts[..|ts|] == ts;
    }

    method WriteItems(items: seq<Item>)
      modifies this
      ensures out == old(out) + PutField(FItems(items))
    {
      var length := Min(|items|, LIMIT);
      assert items[..length] == Clip(items);
      hide BigEndian, Clip, PutItems;
      Regroup(out, PutField(FU16(length)), PutItems(items[..length]));
      WriteU16(length);
      WriteEachItem(items[..length]);
    }

    method WriteEachItem(items: seq<Item>)
      modifies this
      ensures out == old(out) + PutItems(items)
    {
      for i := 0 to |items|
        invariant out == old(out) + PutItems(items[..i])
      {
        PutItemsSnoc(items, i);
        WriteU32(items[i].id);
        WriteU32(items[i].count);
      }
      assert items[..|items|] == items;
    }
  }

  lemma {:induction false} PutEachSnoc(ts: seq<Text>, i: nat)
    requires i < |ts|
    ensures PutEach(ts[..i + 1]) == PutEach(ts[..i]) + PutField(FText(ts[i]))
    decreases |ts|
  {
    hide PutText;
    assert ts[..i + 1][1..] == ts[1..][..i];
    if i > 0 {
      assert ts[..i][1..] == ts[1..][..i - 1];
      PutEachSnoc(ts[1..], i - 1);
    }
  }

  lemma {:induction false} PutItemsSnoc(items: seq<Item>, i: nat)
    requires i < |items|
    ensures PutItems(items[..i + 1])
         == PutItems(items[..i]) + PutField(FU32(items[i].id)) + PutField(FU32(items[i].count))
    decreases |items|
  {
    hide BigEndian;
    assert items[..i + 1][1..] == items[1..][..i];
    if i > 0 {
      assert items[..i][1..] == items[1..][..i - 1];
      PutItemsSnoc(items[1..], i - 1);
    }
  }

  /** Each reader answers None and stops, or advances the offset past what it read. */
  class ByteReader {
    const payload: Buffer
    var offset: nat

    ghost predicate Valid()
      reads this
    {
      offset <= |payload|
    }

    ghost function Rest(): Buffer
      requires Valid()
      reads this
    {
      payload[offset..]
    }

    constructor (payload: Buffer)
      ensures Valid() && this.payload == payload && Rest() == payload
    {
      this.payload, offset := payload, 0;
    }

    method ReadBool() returns (b: Option<bool>)
      requires Valid()
      modifies this
      ensures Valid() && GetField(KBool, old(Rest())) == if b.None? then Bad else Got(FBool(b.value), Rest())
    {
      if offset == |payload| {
        return None;
      }
      b := Some(payload[offset] != 0);
      offset := offset + 1;
    }

    method ReadU16() returns (v: Option<U16>)
      requires Valid()
      modifies this
      ensures Valid() && GetU16(old(Rest())) == if v.None? then Bad else Got(v.value, Rest())
    {
      if offset + 2 > |payload| {
        return None;
      }
      BigEndianOfValueOf(Rest(), 2);
      assert Rest()[..2] == payload[offset..offset + 2];
      v := Some(Value(payload[offset..offset + 2]));
      offset := offset + 2;
    }

    method ReadU32() returns (v: Option<U32>)
      requires Valid()
      modifies this
      ensures Valid() && GetU32(old(Rest())) == if v.None? then Bad else Got(v.value, Rest())
    {
      if offset + 4 > |payload| {
        return None;
      }
      BigEndianOfValueOf(Rest(), 4);
      assert Rest()[..4] == payload[offset..offset + 4];
      v := Some(Value(payload[offset..offset + 4]));
      offset := offset + 4;
    }

    method ReadU64() returns (v: Option<U64>)
      requires Valid()
      modifies this
      ensures Valid() && GetU64(old(Rest())) == if v.None? then Bad else Got(v.value, Rest())
    {
      if offset + 8 > |payload| {
        return None;
      }
      ghost var bytes := Rest()[..8];
      BigEndianOfValueOf(Rest(), 8);
      var acc: nat := 0;
      for i := 0 to 8
        invariant acc == Value(bytes[..i])
      {
        assert bytes[..i + 1][..i] == bytes[..i];
        acc := acc * 0x100 + payload[offset + i];
      }
      assert bytes[..8] == bytes;
      v := Some(acc);
      offset := offset + 8;
    }

    method ReadText() returns (t: Option<Text>)
      requires Valid()
      modifies this
      ensures Valid() && GetText(old(Rest())) == if t.None? then Bad else Got(t.value, Rest())
    {
      var size := ReadU16();
      if size.None? || offset + size.value > |payload| {
        return None;
      }
      assert Rest()[..size.value] == payload[offset..offset + size.value];
      t := Some(payload[offset..offset + size.value]);
      offset := offset + size.value;
    }

    method ReadTexts() returns (ts: Option<seq<Text>>)
      requires Valid()
      modifies this
      ensures Valid() && GetTextList(old(Rest())) == if ts.None? then Bad else Got(ts.value, Rest())
    {
      hide GetTexts;
      var count := ReadU16();
      if count.None? {
        return None;
      }
      ts := ReadEachText(count.value);
    }

    method ReadEachText(n: nat) returns (ts: Option<seq<Text>>)
      requires Valid()
      modifies this
      ensures Valid() && GetTexts(old(Rest()), n) == if ts.None? then Bad else Got(ts.value, Rest())
    {
      hide GetText;
      ghost var all := GetTexts(Rest(), n);
      var got: seq<Text> := [];
      PrefixedNone(all);
      for i := 0 to n
        invariant Valid()
        invariant all == Prefixed(got, GetTexts(Rest(), n - i))
      {
        var t := ReadText();
        if t.None? {
          return None;
        }
        PrefixedTwice(got, [t.value], GetTexts(Rest(), n - i - 1));
        got := got + [t.value];
      }
      assert got + [] == got;
      return Some(got);
    }

    method ReadItem() returns (item: Option<Item>)
      requires Valid()
      modifies this
      ensures Valid() && GetItem(old(Rest())) == if item.None? then Bad else Got(item.value, Rest())
    {
      hide GetU32;
      var id := ReadU32();
      if id.None? {
        return None;
      }
      var count := ReadU32();
      if count.None? {
        return None;
      }
      return Some(Item(id.value, count.value));
    }

    method ReadItems() returns (items: Option<seq<Item>>)
      requires Valid()
      modifies this
      ensures Valid() && GetItemList(old(Rest())) == if items.None? then Bad else Got(items.value, Rest())
    {
      hide GetItems;
      var count := ReadU16();
      if count.None? {
        return None;
      }
      items := ReadEachItem(count.value);
    }

    method ReadEachItem(n: nat) returns (items: Option<seq<Item>>)
      requires Valid()
      modifies this
      ensures Valid() && GetItems(old(Rest()), n) == if items.None? then Bad else Got(items.value, Rest())
    {
      hide GetItem;
      ghost var all := GetItems(Rest(), n);
      var got: seq<Item> := [];
      PrefixedNone(all);
      for i := 0 to n
        invariant Valid()
        invariant all == Prefixed(got, GetItems(Rest(), n - i))
      {
        var item := ReadItem();
        if item.None? {
          return None;
        }
        PrefixedTwice(got, [item.value], GetItems(Rest(), n - i - 1));
        got := got + [item.value];
      }
      assert got + [] == got;
      return Some(got);
    }
  }

  function Prefixed<T>(got: seq<T>, g: Parsed<seq<T>>): Parsed<seq<T>> {
    match g
    case Bad => Bad
    case Got(more, r) => Got(got + more, r)
  }

  lemma PrefixedNone<T>(g: Parsed<seq<T>>)
    ensures Prefixed([], g) == g
  {
    if g.Got? {
      assert [] + g.value == g.value;
    }
  }

  lemma PrefixedTwice<T>(a: seq<T>, b: seq<T>, g: Parsed<seq<T>>)
    ensures Prefixed(a, Prefixed(b, g)) == Prefixed(a + b, g)
  {
    if g.Got? {
      assert a + (b + g.value) == a + b + g.value;
    }
  }

  // ----- Following a layout field by field -----

  /** The fields before position `k` of the layout have been read as `fs`, leaving `rest`. */
  ghost predicate Reached(layout: Layout, p: Buffer, k: nat, fs: Fields, rest: Buffer) {
    k <= |layout| && GetFields(layout, p) == Prefixed(fs, GetFields(layout[k..], rest))
  }

  lemma AtStart(layout: Layout, p: Buffer)
    ensures Reached(layout, p, 0, [], p)
  {
    assert layout[0..] == layout;
    PrefixedNone(GetFields(layout, p));
  }

  lemma Advance(layout: Layout, p: Buffer, k: nat, fs: Fields, rest: Buffer)
    requires Reached(layout, p, k, fs, rest) && k < |layout|
    ensures
      match GetField(layout[k], rest)
      case Bad => Decode(layout, p) == None
      case Got(f, r) => Reached(layout, p, k + 1, fs + [f], r)
  {
    assert layout[k..][1..] == layout[k + 1..];
    var g := GetField(layout[k], rest);
    hide GetField;
    if g.Got? {
      PrefixedTwice(fs, [g.value], GetFields(layout[k + 1..], g.rest));
    }
  }

  lemma AtEnd(layout: Layout, p: Buffer, fs: Fields, rest: Buffer)
    requires Reached(layout, p, |layout|, fs, rest)
    ensures Decode(layout, p) == if rest == [] then Some(fs) else None
  {
    assert fs + [] == fs;
  }

  // ----- Reading the next field of a layout -----

  ghost function Append(fs: Fields, f: Field): Fields {
    fs + [f]
  }

  /** The reader has read the first `k` fields of the layout, as `fs`. */
  ghost predicate Following(r: ByteReader, layout: Layout, k: nat, fs: Fields)
    reads r
  {
    r.Valid() && Reached(layout, r.payload, k, fs, r.Rest())
  }

  lemma FollowStart(r: ByteReader, layout: Layout)
    requires r.Valid() && r.Rest() == r.payload
    ensures Following(r, layout, 0, [])
  {
    AtStart(layout, r.payload);
  }

  lemma FollowEnd(r: ByteReader, layout: Layout, fs: Fields)
    requires Following(r, layout, |layout|, fs)
    ensures Decode(layout, r.payload) == if r.offset == |r.payload| then Some(fs) else None
  {
    AtEnd(layout, r.payload, fs, r.Rest());
  }

  method NextBool(r: ByteReader, ghost layout: Layout, ghost k: nat, ghost fs: Fields) returns (v: Option<bool>)
    requires Following(r, layout, k, fs) && k < |layout| && layout[k] == KBool
    modifies r
    ensures v.None? ==> Decode(layout, r.payload) == None
    ensures v.Some? ==> Following(r, layout, k + 1, Append(fs, FBool(v.value)))
  {
    hide GetU16, GetU32, GetU64, GetText, GetTextList, GetItemList, Reached, Decode;
    Advance(layout, r.payload, k, fs, r.Rest());
    v := r.ReadBool();
  }

  method NextU16(r: ByteReader, ghost layout: Layout, ghost k: nat, ghost fs: Fields) returns (v: Option<U16>)
    requires Following(r, layout, k, fs) && k < |layout| && layout[k] == KU16
    modifies r
    ensures v.None? ==> Decode(layout, r.payload) == None
    ensures v.Some? ==> Following(r, layout, k + 1, Append(fs, FU16(v.value)))
  {
    hide GetU16, GetU32, GetU64, GetText, GetTextList, GetItemList, Reached, Decode;
    Advance(layout, r.payload, k, fs, r.Rest());
    v := r.ReadU16();
  }

  method NextU32(r: ByteReader, ghost layout: Layout, ghost k: nat, ghost fs: Fields) returns (v: Option<U32>)
    requires Following(r, layout, k, fs) && k < |layout| && layout[k] == KU32
    modifies r
    ensures v.None? ==> Decode(layout, r.payload) == None
    ensures v.Some? ==> Following(r, layout, k + 1, Append(fs, FU32(v.value)))
  {
    hide GetU16, GetU32, GetU64, GetText, GetTextList, GetItemList, Reached, Decode;
    Advance(layout, r.payload, k, fs, r.Rest());
    v := r.ReadU32();
  }

  method NextU64(r: ByteReader, ghost layout: Layout, ghost k: nat, ghost fs: Fields) returns (v: Option<U64>)
    requires Following(r, layout, k, fs) && k < |layout| && layout[k] == KU64
    modifies r
    ensures v.None? ==> Decode(layout, r.payload) == None
    ensures v.Some? ==> Following(r, layout, k + 1, Append(fs, FU64(v.value)))
  {
    hide GetU16, GetU32, GetU64, GetText, GetTextList, GetItemList, Reached, Decode;
    Advance(layout, r.payload, k, fs, r.Rest());
    v := r.ReadU64();
  }

  method NextText(r: ByteReader, ghost layout: Layout, ghost k: nat, ghost fs: Fields) returns (v: Option<Text>)
    requires Following(r, layout, k, fs) && k < |layout| && layout[k] == KText
    modifies r
    ensures v.None? ==> Decode(layout, r.payload) == None
    ensures v.Some? ==> Following(r, layout, k + 1, Append(fs, FText(v.value)))
  {
    hide GetU16, GetU32, GetU64, GetText, GetTextList, GetItemList, Reached, Decode;
    Advance(layout, r.payload, k, fs, r.Rest());
    v := r.ReadText();
  }

  method NextTexts(r: ByteReader, ghost layout: Layout, ghost k: nat, ghost fs: Fields) returns (v: Option<seq<Text>>)
    requires Following(r, layout, k, fs) && k < |layout| && layout[k] == KTexts
    modifies r
    ensures v.None? ==> Decode(layout, r.payload) == None
    ensures v.Some? ==> Following(r, layout, k + 1, Append(fs, FTexts(v.value)))
  {
    hide GetU16, GetU32, GetU64, GetText, GetTextList, GetItemList, Reached, Decode;
    Advance(layout, r.payload, k, fs, r.Rest());
    v := r.ReadTexts();
  }

  method NextItems(r: ByteReader, ghost layout: Layout, ghost k: nat, ghost fs: Fields) returns (v: Option<seq<Item>>)
    requires Following(r, layout, k, fs) && k < |layout| && layout[k] == KItems
    modifies r
    ensures v.None? ==> Decode(layout, r.payload) == None
    ensures v.Some? ==> Following(r, layout, k + 1, Append(fs, FItems(v.value)))
  {
    hide GetU16, GetU32, GetU64, GetText, GetTextList, GetItemList, Reached, Decode;
    Advance(layout, r.payload, k, fs, r.Rest());
    v := r.ReadItems();
  }

  // ----- Messages -----

  datatype LoginRequestMsg = LoginRequestMsg(userId: Text, password: Text) {
    function Fields(): Fields { [FText(userId), FText(password)] }
  }

  datatype GuildEventMsg = GuildEventMsg(kind: U16, guildId: U64, actor: Text, members: seq<Text>, message: Text) {
    function Fields(): Fields { [FU16(kind), FU64(guildId), FText(actor), FTexts(members), FText(message)] }
  }

  datatype DungeonResultMsg = DungeonResultMsg(result: U16, timeSec: U32, deaths: U16, rewards: seq<Item>) {
    function Fields(): Fields { [FU16(result), FU32(timeSec), FU16(deaths), FItems(rewards)] }
  }

  datatype MatchFoundMsg = MatchFoundMsg(
    success: bool, code: Text, message: Text, partyId: U64, instanceId: U64, endpoint: Text, ticket: Text)
  {
    function Fields(): Fields {
      [FBool(success), FText(code), FText(message), FU64(partyId), FU64(instanceId), FText(endpoint), FText(ticket)]
    }
  }

  lemma EncodeSnoc(fs: Fields, f: Field)
    ensures Encode(fs + [f]) == Encode(fs) + PutField(f)
  {
    hide PutField;
    if fs == [] {
      assert [f][1..] == [];
      assert [] + [f] == [f];
      assert Encode([f]) == PutField(f) + [];
    } else {
      assert (fs + [f])[1..] == fs[1..] + [f];
      EncodeSnoc(fs[1..], f);
    }
  }

  lemma NothingEncoded()
    ensures Encode([]) == []
  {
  }

  lemma LoginRequestMsgFields(m: LoginRequestMsg)
    ensures Append(Append([], FText(m.userId)), FText(m.password))
         == m.Fields()
  {
  }

  method EncodeLoginRequest(m: LoginRequestMsg) returns (out: Buffer)
    ensures out == Encode(m.Fields())
  {
    hide PutField, Encode;
    var w := new ByteWriter();
    ghost var fs: Fields := [];
    NothingEncoded();
    w.WriteText(m.userId);
    EncodeSnoc(fs, FText(m.userId));
    fs := fs + [FText(m.userId)];
    w.WriteText(m.password);
    EncodeSnoc(fs, FText(m.password));
    fs := fs + [FText(m.password)];
    assert fs == m.Fields();
    return w.out;
  }

  lemma LoginRequestLayout()
    ensures
      var l := LayoutFor(LoginReq);
      |l| == 2 && l[0] == KText && l[1] == KText
  {
  }

  method DecodeLoginRequest(p: Buffer) returns (m: Option<LoginRequestMsg>)
    ensures Decode(LayoutFor(LoginReq), p) == if m.None? then None else Some(m.value.Fields())
  {
    hide *;
    ghost var layout := LayoutFor(LoginReq);
    LoginRequestLayout();
    var r := new ByteReader(p);
    FollowStart(r, layout);
    ghost var fs: Fields := [];
    var userId := NextText(r, layout, 0, fs);
    if userId.None? { return None; }
    fs := Append(fs, FText(userId.value));
    var password := NextText(r, layout, 1, fs);
    if password.None? { return None; }
    fs := Append(fs, FText(password.value));
    FollowEnd(r, layout, fs);
    if r.offset != |p| { return None; }
    m := Some(LoginRequestMsg(userId.value, password.value));
    LoginRequestMsgFields(m.value);
  }

  lemma GuildEventMsgFields(m: GuildEventMsg)
    ensures Append(Append(Append(Append(Append([], FU16(m.kind)), FU64(m.guildId)), FText(m.actor)), FTexts(m.members)),
                   FText(m.message))
         == m.Fields()
  {
  }

  method EncodeGuildEvent(m: GuildEventMsg) returns (out: Buffer)
    ensures out == Encode(m.Fields())
  {
    hide PutField, Encode;
    var w := new ByteWriter();
    ghost var fs: Fields := [];
    NothingEncoded();
    w.WriteU16(m.kind);
    EncodeSnoc(fs, FU16(m.kind));
    fs := fs + [FU16(m.kind)];
    w.WriteU64(m.guildId);
    EncodeSnoc(fs, FU64(m.guildId));
    fs := fs + [FU64(m.guildId)];
    w.WriteText(m.actor);
    EncodeSnoc(fs, FText(m.actor));
    fs := fs + [FText(m.actor)];
    w.WriteTexts(m.members);
    EncodeSnoc(fs, FTexts(m.members));
    fs := fs + [FTexts(m.members)];
    w.WriteText(m.message);
    EncodeSnoc(fs, FText(m.message));
    fs := fs + [FText(m.message)];
    assert fs == m.Fields();
    return w.out;
  }

  lemma GuildEventLayout()
    ensures
      var l := LayoutFor(GuildEvent);
      |l| == 5 && l[0] == KU16 && l[1] == KU64 && l[2] == KText && l[3] == KTexts && l[4] == KText
  {
  }

  method DecodeGuildEvent(p: Buffer) returns (m: Option<GuildEventMsg>)
    ensures Decode(LayoutFor(GuildEvent), p) == if m.None? then None else Some(m.value.Fields())
  {
    hide *;
    ghost var layout := LayoutFor(GuildEvent);
    GuildEventLayout();
    var r := new ByteReader(p);
    FollowStart(r, layout);
    ghost var fs: Fields := [];
    var kind := NextU16(r, layout, 0, fs);
    if kind.None? { return None; }
    fs := Append(fs, FU16(kind.value));
    var guildId := NextU64(r, layout, 1, fs);
    if guildId.None? { return None; }
    fs := Append(fs, FU64(guildId.value));
    var actor := NextText(r, layout, 2, fs);
    if actor.None? { return None; }
    fs := Append(fs, FText(actor.value));
    var members := NextTexts(r, layout, 3, fs);
    if members.None? { return None; }
    fs := Append(fs, FTexts(members.value));
    var message := NextText(r, layout, 4, fs);
    if message.None? { return None; }
    fs := Append(fs, FText(message.value));
    FollowEnd(r, layout, fs);
    if r.offset != |p| { return None; }
    m := Some(GuildEventMsg(kind.value, guildId.value, actor.value, members.value, message.value));
    GuildEventMsgFields(m.value);
  }

  lemma DungeonResultMsgFields(m: DungeonResultMsg)
    ensures Append(Append(Append(Append([], FU16(m.result)), FU32(m.timeSec)), FU16(m.deaths)), FItems(m.rewards))
         == m.Fields()
  {
  }

  method EncodeDungeonResultNotify(m: DungeonResultMsg) returns (out: Buffer)
    ensures out == Encode(m.Fields())
  {
    hide PutField, Encode;
    var w := new ByteWriter();
    ghost var fs: Fields := [];
    NothingEncoded();
    w.WriteU16(m.result);
    EncodeSnoc(fs, FU16(m.result));
    fs := fs + [FU16(m.result)];
    w.WriteU32(m.timeSec);
    EncodeSnoc(fs, FU32(m.timeSec));
    fs := fs + [FU32(m.timeSec)];
    w.WriteU16(m.deaths);
    EncodeSnoc(fs, FU16(m.deaths));
    fs := fs + [FU16(m.deaths)];
    w.WriteItems(m.rewards);
    EncodeSnoc(fs, FItems(m.rewards));
    fs := fs + [FItems(m.rewards)];
    assert fs == m.Fields();
    return w.out;
  }

  lemma DungeonResultNotifyLayout()
    ensures
      var l := LayoutFor(DungeonResultNotify);
      |l| == 4 && l[0] == KU16 && l[1] == KU32 && l[2] == KU16 && l[3] == KItems
  {
  }

  method DecodeDungeonResultNotify(p: Buffer) returns (m: Option<DungeonResultMsg>)
    ensures Decode(LayoutFor(DungeonResultNotify), p) == if m.None? then None else Some(m.value.Fields())
  {
    hide *;
    ghost var layout := LayoutFor(DungeonResultNotify);
    DungeonResultNotifyLayout();
    var r := new ByteReader(p);
    FollowStart(r, layout);
    ghost var fs: Fields := [];
    var result := NextU16(r, layout, 0, fs);
    if result.None? { return None; }
    fs := Append(fs, FU16(result.value));
    var timeSec := NextU32(r, layout, 1, fs);
    if timeSec.None? { return None; }
    fs := Append(fs, FU32(timeSec.value));
    var deaths := NextU16(r, layout, 2, fs);
    if deaths.None? { return None; }
    fs := Append(fs, FU16(deaths.value));
    var rewards := NextItems(r, layout, 3, fs);
    if rewards.None? { return None; }
    fs := Append(fs, FItems(rewards.value));
    FollowEnd(r, layout, fs);
    if r.offset != |p| { return None; }
    m := Some(DungeonResultMsg(result.value, timeSec.value, deaths.value, rewards.value));
    DungeonResultMsgFields(m.value);
  }

  lemma MatchFoundMsgFields(m: MatchFoundMsg)
    ensures Append(Append(Append(Append(Append(Append(Append([], FBool(m.success)), FText(m.code)), FText(m.message)),
                   FU64(m.partyId)), FU64(m.instanceId)), FText(m.endpoint)), FText(m.ticket))
         == m.Fields()
  {
  }

  method EncodeMatchFoundNotify(m: MatchFoundMsg) returns (out: Buffer)
    ensures out == Encode(m.Fields())
  {
    hide PutField, Encode;
    var w := new ByteWriter();
    ghost var fs: Fields := [];
    NothingEncoded();
    w.WriteBool(m.success);
    EncodeSnoc(fs, FBool(m.success));
    fs := fs + [FBool(m.success)];
    w.WriteText(m.code);
    EncodeSnoc(fs, FText(m.code));
    fs := fs + [FText(m.code)];
    w.WriteText(m.message);
    EncodeSnoc(fs, FText(m.message));
    fs := fs + [FText(m.message)];
    w.WriteU64(m.partyId);
    EncodeSnoc(fs, FU64(m.partyId));
    fs := fs + [FU64(m.partyId)];
    w.WriteU64(m.instanceId);
    EncodeSnoc(fs, FU64(m.instanceId));
    fs := fs + [FU64(m.instanceId)];
    w.WriteText(m.endpoint);
    EncodeSnoc(fs, FText(m.endpoint));
    fs := fs + [FText(m.endpoint)];
    w.WriteText(m.ticket);
    EncodeSnoc(fs, FText(m.ticket));
    fs := fs + [FText(m.ticket)];
    assert fs == m.Fields();
    return w.out;
  }

  lemma MatchFoundNotifyLayout()
    ensures
      var l := LayoutFor(MatchFoundNotify);
      |l| == 7 && l[0] == KBool && l[1] == KText && l[2] == KText && l[3] == KU64 && l[4] == KU64
      && l[5] == KText && l[6] == KText
  {
  }

  method DecodeMatchFoundNotify(p: Buffer) returns (m: Option<MatchFoundMsg>)
    ensures Decode(LayoutFor(MatchFoundNotify), p) == if m.None? then None else Some(m.value.Fields())
  {
    hide *;
    ghost var layout := LayoutFor(MatchFoundNotify);
    MatchFoundNotifyLayout();
    var r := new ByteReader(p);
    FollowStart(r, layout);
    ghost var fs: Fields := [];
    var success := NextBool(r, layout, 0, fs);
    if success.None? { return None; }
    fs := Append(fs, FBool(success.value));
    var code := NextText(r, layout, 1, fs);
    if code.None? { return None; }
    fs := Append(fs, FText(code.value));
    var message := NextText(r, layout, 2, fs);
    if message.None? { return None; }
    fs := Append(fs, FText(message.value));
    var partyId := NextU64(r, layout, 3, fs);
    if partyId.None? { return None; }
    fs := Append(fs, FU64(partyId.value));
    var instanceId := NextU64(r, layout, 4, fs);
    if instanceId.None? { return None; }
    fs := Append(fs, FU64(instanceId.value));
    var endpoint := NextText(r, layout, 5, fs);
    if endpoint.None? { return None; }
    fs := Append(fs, FText(endpoint.value));
    var ticket := NextText(r, layout, 6, fs);
    if ticket.None? { return None; }
    fs := Append(fs, FText(ticket.value));
    FollowEnd(r, layout, fs);
    if r.offset != |p| { return None; }
    m := Some(MatchFoundMsg(success.value, code.value, message.value, partyId.value, instanceId.value, endpoint.value,
                            ticket.value));
    MatchFoundMsgFields(m.value);
  }

}
