/** The message formats of src/net/protocol.cpp.

    Every message is a fixed sequence of fields, its layout; encoding writes them one after
    another and decoding reads them back and insists on consuming the whole payload. Strings are
    byte strings. Main results, for all layouts: decoding an encoded message gives it back with
    every string and list clipped to 65535; a payload that decodes re-encodes to itself, up to
    the value of a leading boolean byte. */
module Protocol {
  import opened Common
  import opened Framing

  type Text = seq<Byte>

  datatype Item = Item(id: U32, count: U32)

  datatype Kind = KBool | KU16 | KU32 | KU64 | KText | KTexts | KItems

  datatype Field =
    | FBool(b: bool)
    | FU16(u16: U16)
    | FU32(u32: U32)
    | FU64(u64: U64)
    | FText(text: Text)
    | FTexts(texts: seq<Text>)
    | FItems(items: seq<Item>)

  type Layout = seq<Kind>
  type Fields = seq<Field>

  const LIMIT: nat := 0xFFFF

  // ----- Writing -----

  function Clip<T>(s: seq<T>): (r: seq<T>)
    ensures |r| <= LIMIT
  {
    if |s| <= LIMIT then s else s[..LIMIT]
  }

  function PutText(t: Text): Buffer {
    BigEndian(|Clip(t)|, 2) + Clip(t)
  }

  function PutEach(ts: seq<Text>): Buffer {
    if ts == [] then [] else PutText(ts[0]) + PutEach(ts[1..])
  }

  function PutItems(items: seq<Item>): Buffer {
    if items == [] then []
    else BigEndian(items[0].id, 4) + BigEndian(items[0].count, 4) + PutItems(items[1..])
  }

  function PutTextList(ts: seq<Text>): Buffer {
    BigEndian(|Clip(ts)|, 2) + PutEach(Clip(ts))
  }

  function PutItemList(items: seq<Item>): Buffer {
    BigEndian(|Clip(items)|, 2) + PutItems(Clip(items))
  }

  function PutField(f: Field): Buffer {
    match f
    case FBool(b) => [if b then 1 else 0]
    case FU16(v) => BigEndian(v, 2)
    case FU32(v) => BigEndian(v, 4)
    case FU64(v) => BigEndian(v, 8)
    case FText(t) => PutText(t)
    case FTexts(ts) => PutTextList(ts)
    case FItems(items) => PutItemList(items)
  }

  function Encode(fs: Fields): Buffer {
    if fs == [] then [] else PutField(fs[0]) + Encode(fs[1..])
  }

  // ----- Reading -----

  datatype Parsed<T> = Bad | Got(value: T, rest: Buffer)

  function GetU16(p: Buffer): Parsed<U16> {
    BigEndianOfValueOf(p, 2);
    if |p| < 2 then Bad else Got(Value(p[..2]), p[2..])
  }

  function GetU32(p: Buffer): Parsed<U32> {
    BigEndianOfValueOf(p, 4);
    if |p| < 4 then Bad else Got(Value(p[..4]), p[4..])
  }

  function GetU64(p: Buffer): Parsed<U64> {
    BigEndianOfValueOf(p, 8);
    if |p| < 8 then Bad else Got(Value(p[..8]), p[8..])
  }

  lemma BigEndianOfValueOf(p: Buffer, n: nat)
    requires n == 2 || n == 4 || n == 8
    ensures n <= |p| ==> Value(p[..n]) < Pow256(n) && BigEndian(Value(p[..n]), n) == p[..n]
    ensures Pow256(2) == 0x1_0000 && Pow256(4) == 0x1_0000_0000 && Pow256(8) == 0x1_0000_0000_0000_0000
  {
    Powers();
    if n <= |p| {
      BigEndianOfValue(p[..n]);
    }
  }

  function GetText(p: Buffer): Parsed<Text> {
    match GetU16(p)
    case Bad => Bad
    case Got(n, r) => if |r| < n then Bad else Got(r[..n], r[n..])
  }

  function GetTexts(p: Buffer, n: nat): Parsed<seq<Text>>
    decreases n
  {
    if n == 0 then Got([], p)
    else
      match GetText(p)
      case Bad => Bad
      case Got(t, r) =>
        match GetTexts(r, n - 1)
        case Bad => Bad
        case Got(ts, r2) => Got([t] + ts, r2)
  }

  function GetTextList(p: Buffer): Parsed<seq<Text>> {
    match GetU16(p)
    case Bad => Bad
    case Got(n, r) => GetTexts(r, n)
  }

  function GetItem(p: Buffer): Parsed<Item> {
    match GetU32(p)
    case Bad => Bad
    case Got(id, r) =>
      match GetU32(r)
      case Bad => Bad
      case Got(count, r2) => Got(Item(id, count), r2)
  }

  function GetItems(p: Buffer, n: nat): Parsed<seq<Item>>
    decreases n
  {
    if n == 0 then Got([], p)
    else
      match GetItem(p)
      case Bad => Bad
      case Got(item, r) =>
        match GetItems(r, n - 1)
        case Bad => Bad
        case Got(items, r2) => Got([item] + items, r2)
  }

  function GetItemList(p: Buffer): Parsed<seq<Item>> {
    match GetU16(p)
    case Bad => Bad
    case Got(n, r) => GetItems(r, n)
  }

  function GetField(k: Kind, p: Buffer): Parsed<Field> {
    match k
    case KBool => if p == [] then Bad else Got(FBool(p[0] != 0), p[1..])
    case KU16 => (match GetU16(p) case Bad => Bad case Got(v, r) => Got(FU16(v), r))
    case KU32 => (match GetU32(p) case Bad => Bad case Got(v, r) => Got(FU32(v), r))
    case KU64 => (match GetU64(p) case Bad => Bad case Got(v, r) => Got(FU64(v), r))
    case KText => (match GetText(p) case Bad => Bad case Got(t, r) => Got(FText(t), r))
    case KTexts => (match GetTextList(p) case Bad => Bad case Got(ts, r) => Got(FTexts(ts), r))
    case KItems => (match GetItemList(p) case Bad => Bad case Got(items, r) => Got(FItems(items), r))
  }

  function GetFields(layout: Layout, p: Buffer): Parsed<Fields>
    decreases |layout|
  {
    if layout == [] then Got([], p)
    else
      match GetField(layout[0], p)
      case Bad => Bad
      case Got(f, r) =>
        match GetFields(layout[1..], r)
        case Bad => Bad
        case Got(fs, r2) => Got([f] + fs, r2)
  }

  /** The payload must hold exactly the fields of the layout. */
  function Decode(layout: Layout, p: Buffer): Option<Fields> {
    match GetFields(layout, p)
    case Bad => None
    case Got(fs, r) => if r == [] then Some(fs) else None
  }

  // ----- The bytes themselves -----

  lemma FourBytes(v: U32)
    ensures BigEndian(v, 4) == [v / 0x100_0000, v / 0x1_0000 % 0x100, v / 0x100 % 0x100, v % 0x100]
  {
    ShiftsAreBigEndian(0, v);
  }

  lemma {:induction false} BigEndianSplits(v: nat, n: nat)
    ensures BigEndian(v, n + 4) == BigEndian(v / 0x1_0000_0000, n) + BigEndian(v % 0x1_0000_0000, 4)
  {
    var w := v % 0x1_0000_0000;
    assert BigEndian(v, n + 4) == BigEndian(v / 0x100, n + 3) + [v % 0x100];
    assert BigEndian(v / 0x100, n + 3) == BigEndian(v / 0x100 / 0x100, n + 2) + [v / 0x100 % 0x100];
    assert BigEndian(v / 0x100 / 0x100, n + 2)
        == BigEndian(v / 0x100 / 0x100 / 0x100, n + 1) + [v / 0x100 / 0x100 % 0x100];
    assert BigEndian(v / 0x100 / 0x100 / 0x100, n + 1)
        == BigEndian(v / 0x100 / 0x100 / 0x100 / 0x100, n) + [v / 0x100 / 0x100 / 0x100 % 0x100];
    FourBytes(w);
    DigitsOfRest(v);
  }

  lemma DigitsOfRest(v: nat)
    ensures
      var w := v % 0x1_0000_0000;
      && v / 0x100 / 0x100 / 0x100 / 0x100 == v / 0x1_0000_0000
      && v / 0x100 / 0x100 / 0x100 % 0x100 == w / 0x100_0000 && v / 0x100 / 0x100 % 0x100 == w / 0x1_0000 % 0x100
      && v / 0x100 % 0x100 == w / 0x100 % 0x100 && v % 0x100 == w % 0x100
  {
    var (q1, q2, q3) := (v / 0x100, v / 0x100 / 0x100, v / 0x100 / 0x100 / 0x100);
    DigitsSum(q3 / 0x100, q3 % 0x100, q2 % 0x100, q1 % 0x100, v % 0x100);
    assert v == 0x1_0000_0000 * (q3 / 0x100) + 0x100_0000 * (q3 % 0x100) + 0x1_0000 * (q2 % 0x100) + 0x100 * (q1 % 0x100)
                + v % 0x100;
  }

  lemma DigitsSum(rest: nat, a: Byte, b: Byte, c: Byte, d: Byte)
    ensures
      var w := 0x100_0000 * a as int + 0x1_0000 * b as int + 0x100 * c as int + d as int;
      var v := 0x1_0000_0000 * rest + w;
      && v / 0x1_0000_0000 == rest && v % 0x1_0000_0000 == w
      && w / 0x100_0000 == a && w / 0x1_0000 % 0x100 == b && w / 0x100 % 0x100 == c && w % 0x100 == d
  {
    var low := 0x100 * c as int + d as int;
    var w := 0x100_0000 * a as int + 0x1_0000 * b as int + low;
    assert w / 0x100_0000 == a;
    assert w / 0x1_0000 == 0x100 * a as int + b as int;
    assert w / 0x100 == 0x1_0000 * a as int + 0x100 * b as int + c as int;
    LastDigit(0x100 * a as int + b as int, a, b);
    LastDigit(w / 0x100, 0x100 * a as int + b as int, c);
    LastDigit(w, w / 0x100, d);
  }

  lemma LastDigit(v: nat, q: nat, r: Byte)
    requires v == 0x100 * q + r
    ensures v % 0x100 == r
  {
  }

  lemma TwoBytesOf(v: U16)
    ensures BigEndian(v, 2) == [v / 0x100, v % 0x100]
  {
    TwoBytes(v);
  }

  /** A boolean is one byte, and a number its bytes with the highest first. */
  lemma NumberBytes(b: bool, u16: U16, u32: U32, u64: U64)
    ensures PutField(FBool(b)) == if b then [1] else [0]
    ensures PutField(FU16(u16)) == [u16 / 0x100, u16 % 0x100]
    ensures PutField(FU32(u32)) == [u32 / 0x100_0000, u32 / 0x1_0000 % 0x100, u32 / 0x100 % 0x100, u32 % 0x100]
    ensures PutField(FU64(u64)) == PutField(FU32(u64 / 0x1_0000_0000)) + PutField(FU32(u64 % 0x1_0000_0000))
  {
    TwoBytesOf(u16);
    FourBytes(u32);
    BigEndianSplits(u64, 4);
    hide BigEndian;
  }

  /** A string is at most its first 65535 bytes, behind two bytes of their number. */
  lemma TextBytes(t: Text)
    ensures
      var n := if |t| < 0xFFFF then |t| else 0xFFFF;
      PutField(FText(t)) == PutField(FU16(n)) + t[..n]
  {
    hide BigEndian;
  }

  /** A list of strings is their number in two bytes, at most 65535, and so many of the strings. */
  lemma TextListBytes(ts: seq<Text>)
    ensures
      var n := if |ts| < 0xFFFF then |ts| else 0xFFFF;
      PutField(FTexts(ts)) == PutField(FU16(n)) + Encode(Texts(ts[..n]))
  {
    var n := if |ts| < 0xFFFF then |ts| else 0xFFFF;
    assert Clip(ts) == ts[..n];
    EachIsEncoded(ts[..n]);
    hide BigEndian, PutEach, Encode, Texts;
  }

  lemma ItemListIs(items: seq<Item>, n: nat)
    requires n == if |items| < 0xFFFF then |items| else 0xFFFF
    ensures PutField(FItems(items)) == BigEndian(n, 2) + PutItems(items[..n])
  {
    assert Clip(items) == items[..n];
    hide BigEndian, PutItems;
  }

  lemma CountFirst(count: Buffer, body: Buffer)
    requires |count| == 2
    ensures |count + body| == 2 + |body| && (count + body)[..2] == count
  {
  }

  lemma ItemOfList(items: seq<Item>, n: nat, i: nat)
    requires n == if |items| < 0xFFFF then |items| else 0xFFFF
    requires i < n
    ensures 10 + 8 * i <= |PutField(FItems(items))|
    ensures PutField(FItems(items))[2 + 8 * i..10 + 8 * i] == BigEndian(items[i].id, 4) + BigEndian(items[i].count, 4)
  {
    var first := items[..n];
    ItemListIs(items, n);
    ItemBytes(first, i);
    assert first[i] == items[i];
    BehindCount(BigEndian(n, 2), PutItems(first), 8 * i);
    hide BigEndian, PutItems, PutField;
  }

  /** A list of items is their number in two bytes, at most 65535, and for so many of them four bytes
      of id and four of count. */
  lemma ItemListBytes(items: seq<Item>, i: nat)
    ensures
      var n := if |items| < 0xFFFF then |items| else 0xFFFF;
      var out := PutField(FItems(items));
      && |out| == 2 + 8 * n && out[..2] == PutField(FU16(n))
      && (i < n ==> out[2 + 8 * i..10 + 8 * i] == PutField(FU32(items[i].id)) + PutField(FU32(items[i].count)))
  {
    var n := if |items| < 0xFFFF then |items| else 0xFFFF;
    ItemListIs(items, n);
    ItemsLength(items[..n]);
    CountFirst(BigEndian(n, 2), PutItems(items[..n]));
    if i < n {
      ItemOfList(items, n, i);
    }
    hide BigEndian, PutItems, PutItemList;
  }

  lemma BehindCount(count: Buffer, body: Buffer, k: nat)
    requires |count| == 2 && k + 8 <= |body|
    ensures (count + body)[2 + k..10 + k] == body[k..k + 8]
  {
  }

  function Texts(ts: seq<Text>): Fields {
    seq(|ts|, i requires 0 <= i < |ts| => FText(ts[i]))
  }

  lemma {:induction false} EachIsEncoded(ts: seq<Text>)
    ensures PutEach(ts) == Encode(Texts(ts))
  {
    if ts != [] {
      EachIsEncoded(ts[1..]);
      assert Texts(ts)[1..] == Texts(ts[1..]);
    }
  }

  lemma {:induction false} ItemsLength(items: seq<Item>)
    ensures |PutItems(items)| == 8 * |items|
  {
    if items != [] {
      ItemsLength(items[1..]);
    }
  }

  lemma {:induction false} ItemBytes(items: seq<Item>, i: nat)
    requires i < |items|
    ensures |PutItems(items)| == 8 * |items|
    ensures PutItems(items)[8 * i..8 * i + 8] == BigEndian(items[i].id, 4) + BigEndian(items[i].count, 4)
    decreases i
  {
    ItemsLength(items);
    ItemsLength(items[1..]);
    if i > 0 {
      ItemBytes(items[1..], i - 1);
      assert PutItems(items)[8 * i..8 * i + 8] == PutItems(items[1..])[8 * (i - 1)..8 * (i - 1) + 8];
    }
  }

  // ----- Decoding what was encoded -----

  function KindOf(f: Field): Kind {
    match f
    case FBool(_) => KBool
    case FU16(_) => KU16
    case FU32(_) => KU32
    case FU64(_) => KU64
    case FText(_) => KText
    case FTexts(_) => KTexts
    case FItems(_) => KItems
  }

  function LayoutOf(fs: Fields): Layout {
    seq(|fs|, i requires 0 <= i < |fs| => KindOf(fs[i]))
  }

  function ClipEach(ts: seq<Text>): seq<Text> {
    seq(|ts|, i requires 0 <= i < |ts| => Clip(ts[i]))
  }

  function ClipField(f: Field): Field {
    match f
    case FText(t) => FText(Clip(t))
    case FTexts(ts) => FTexts(ClipEach(Clip(ts)))
    case FItems(items) => FItems(Clip(items))
    case _ => f
  }

  function ClipAll(fs: Fields): Fields {
    seq(|fs|, i requires 0 <= i < |fs| => ClipField(fs[i]))
  }

  lemma NumberBack(v: nat, n: nat, rest: Buffer)
    requires n == 2 || n == 4 || n == 8
    requires v < Pow256(n)
    ensures
      var p := BigEndian(v, n) + rest;
      n <= |p| && Value(p[..n]) == v && p[n..] == rest
  {
    ValueOfBigEndian(v, n);
    assert (BigEndian(v, n) + rest)[..n] == BigEndian(v, n);
  }

  lemma TextBack(t: Text, rest: Buffer)
    ensures GetText(PutText(t) + rest) == Got(Clip(t), rest)
  {
    Powers();
    NumberBack(|Clip(t)|, 2, Clip(t) + rest);
    assert PutText(t) + rest == BigEndian(|Clip(t)|, 2) + (Clip(t) + rest);
    assert (Clip(t) + rest)[..|Clip(t)|] == Clip(t) && (Clip(t) + rest)[|Clip(t)|..] == rest;
  }

  lemma {:induction false} TextsBack(ts: seq<Text>, rest: Buffer)
    ensures GetTexts(PutEach(ts) + rest, |ts|) == Got(ClipEach(ts), rest)
  {
    hide PutText, GetText;
    if ts == [] {
      assert [] + rest == rest;
    } else {
      assert PutEach(ts) + rest == PutText(ts[0]) + (PutEach(ts[1..]) + rest);
      TextBack(ts[0], PutEach(ts[1..]) + rest);
      TextsBack(ts[1..], rest);
      assert ClipEach(ts) == [Clip(ts[0])] + ClipEach(ts[1..]);
    }
  }

  lemma ItemBack(item: Item, rest: Buffer)
    ensures GetItem(BigEndian(item.id, 4) + BigEndian(item.count, 4) + rest) == Got(item, rest)
  {
    Powers();
    assert BigEndian(item.id, 4) + BigEndian(item.count, 4) + rest
        == BigEndian(item.id, 4) + (BigEndian(item.count, 4) + rest);
    NumberBack(item.id, 4, BigEndian(item.count, 4) + rest);
    NumberBack(item.count, 4, rest);
  }

  lemma {:induction false} ItemsBack(items: seq<Item>, rest: Buffer)
    ensures GetItems(PutItems(items) + rest, |items|) == Got(items, rest)
  {
    hide GetItem;
    if items == [] {
      assert [] + rest == rest;
    } else {
      var head := BigEndian(items[0].id, 4) + BigEndian(items[0].count, 4);
      assert PutItems(items) + rest == head + (PutItems(items[1..]) + rest);
      ItemBack(items[0], PutItems(items[1..]) + rest);
      ItemsBack(items[1..], rest);
      assert items == [items[0]] + items[1..];
    }
  }

  lemma TextListBack(ts: seq<Text>, rest: Buffer)
    ensures GetTextList(PutTextList(ts) + rest) == Got(ClipEach(Clip(ts)), rest)
  {
    hide GetTexts, PutEach;
    var body := PutEach(Clip(ts));
    Powers();
    assert PutTextList(ts) + rest == BigEndian(|Clip(ts)|, 2) + (body + rest);
    NumberBack(|Clip(ts)|, 2, body + rest);
    TextsBack(Clip(ts), rest);
  }

  lemma ItemListBack(items: seq<Item>, rest: Buffer)
    ensures GetItemList(PutItemList(items) + rest) == Got(Clip(items), rest)
  {
    hide GetItems, PutItems;
    var body := PutItems(Clip(items));
    Powers();
    assert PutItemList(items) + rest == BigEndian(|Clip(items)|, 2) + (body + rest);
    NumberBack(|Clip(items)|, 2, body + rest);
    ItemsBack(Clip(items), rest);
  }

  lemma FieldBack(f: Field, rest: Buffer)
    ensures GetField(KindOf(f), PutField(f) + rest) == Got(ClipField(f), rest)
  {
    hide PutText, GetText, GetTextList, GetItemList, PutTextList, PutItemList, BigEndian, Value;
    Powers();
    match f
    case FBool(b) =>
    case FU16(v) => NumberBack(v, 2, rest);
    case FU32(v) => NumberBack(v, 4, rest);
    case FU64(v) => NumberBack(v, 8, rest);
    case FText(t) => TextBack(t, rest);
    case FTexts(ts) => TextListBack(ts, rest);
    case FItems(items) => ItemListBack(items, rest);
  }

  lemma {:induction false} FieldsBack(fs: Fields, rest: Buffer)
    ensures GetFields(LayoutOf(fs), Encode(fs) + rest) == Got(ClipAll(fs), rest)
  {
    hide GetField, PutField, ClipField, KindOf;
    if fs == [] {
      assert [] + rest == rest;
    } else {
      assert Encode(fs) + rest == PutField(fs[0]) + (Encode(fs[1..]) + rest);
      FieldBack(fs[0], Encode(fs[1..]) + rest);
      FieldsBack(fs[1..], rest);
      assert LayoutOf(fs)[1..] == LayoutOf(fs[1..]);
      assert ClipAll(fs) == [ClipField(fs[0])] + ClipAll(fs[1..]);
    }
  }

  /** Decoding an encoded message gives it back with every string and list clipped to 65535. */
  lemma RoundTrip(fs: Fields)
    ensures Decode(LayoutOf(fs), Encode(fs)) == Some(ClipAll(fs))
  {
    FieldsBack(fs, []);
    assert Encode(fs) + [] == Encode(fs);
  }

  ghost predicate Fits(f: Field) {
    match f
    case FText(t) => |t| <= LIMIT
    case FTexts(ts) => |ts| <= LIMIT && forall i :: 0 <= i < |ts| ==> |ts[i]| <= LIMIT
    case FItems(items) => |items| <= LIMIT
    case _ => true
  }

  /** A message comes back unchanged exactly when nothing in it is over the limit. */
  lemma RoundTripExact(fs: Fields)
    ensures Decode(LayoutOf(fs), Encode(fs)) == Some(fs) <==> forall i :: 0 <= i < |fs| ==> Fits(fs[i])
  {
    RoundTrip(fs);
    forall i | 0 <= i < |fs| ensures ClipField(fs[i]) == fs[i] <==> Fits(fs[i]) {
      FitsIsUnclipped(fs[i]);
    }
    assert forall i :: 0 <= i < |fs| ==> ClipAll(fs)[i] == ClipField(fs[i]);
    if forall i :: 0 <= i < |fs| ==> Fits(fs[i]) {
      assert ClipAll(fs) == fs;
    }
  }

  lemma FitsIsUnclipped(f: Field)
    ensures ClipField(f) == f <==> Fits(f)
  {
    if f.FTexts? {
      if ClipEach(Clip(f.texts)) == f.texts {
        assert |f.texts| <= LIMIT;
        forall i | 0 <= i < |f.texts| ensures |f.texts[i]| <= LIMIT {
          assert ClipEach(Clip(f.texts))[i] == Clip(f.texts[i]);
        }
      }
    }
  }

  // ----- Encoding what was decoded -----

  lemma NumberForth(p: Buffer, n: nat)
    requires n == 2 || n == 4 || n == 8
    requires n <= |p|
    ensures BigEndian(Value(p[..n]), n) + p[n..] == p
  {
    BigEndianOfValueOf(p, n);
  }

  lemma TextForth(p: Buffer)
    ensures GetText(p).Got? ==> |GetText(p).value| <= LIMIT && p == PutText(GetText(p).value) + GetText(p).rest
  {
    if GetText(p).Got? {
      NumberForth(p, 2);
      var n, r := Value(p[..2]), p[2..];
      BigEndianOfValueOf(p, 2);
      assert r == r[..n] + r[n..];
      assert p == BigEndian(n, 2) + (r[..n] + r[n..]);
    }
  }

  lemma {:induction false} TextsForth(p: Buffer, n: nat)
    ensures
      var g := GetTexts(p, n);
      g.Got? ==> |g.value| == n && p == PutEach(g.value) + g.rest
    decreases n
  {
    hide GetText, PutText;
    if n == 0 {
      assert [] + p == p;
    } else {
      TextForth(p);
      if GetText(p).Got? {
        TextsForth(GetText(p).rest, n - 1);
        var g := GetTexts(p, n);
        if g.Got? {
          var tail := GetTexts(GetText(p).rest, n - 1).value;
          assert g.value[1..] == tail;
        }
      }
    }
  }

  lemma ItemForth(p: Buffer)
    ensures
      var g := GetItem(p);
      g.Got? ==> p == BigEndian(g.value.id, 4) + BigEndian(g.value.count, 4) + g.rest
  {
    if 8 <= |p| {
      NumberForth(p, 4);
      NumberForth(p[4..], 4);
    }
  }

  lemma {:induction false} ItemsForth(p: Buffer, n: nat)
    ensures
      var g := GetItems(p, n);
      g.Got? ==> |g.value| == n && p == PutItems(g.value) + g.rest
    decreases n
  {
    hide GetItem;
    if n == 0 {
      assert [] + p == p;
    } else {
      ItemForth(p);
      if GetItem(p).Got? {
        ItemsForth(GetItem(p).rest, n - 1);
        var g := GetItems(p, n);
        if g.Got? {
          assert g.value[1..] == GetItems(GetItem(p).rest, n - 1).value;
        }
      }
    }
  }

  /** A payload in which a leading boolean is spelled 0 or 1. */
  function Normalised(layout: Layout, p: Buffer): Buffer {
    if layout != [] && layout[0] == KBool && p != [] then [if p[0] == 0 then 0 else 1] + p[1..] else p
  }

  lemma TextListForth(p: Buffer)
    ensures
      var g := GetTextList(p);
      g.Got? ==> p == PutTextList(g.value) + g.rest
  {
    hide GetTexts, PutEach;
    if 2 <= |p| {
      NumberForth(p, 2);
      BigEndianOfValueOf(p, 2);
      TextsForth(p[2..], Value(p[..2]));
    }
  }

  lemma ItemListForth(p: Buffer)
    ensures
      var g := GetItemList(p);
      g.Got? ==> p == PutItemList(g.value) + g.rest
  {
    hide GetItems, PutItems;
    if 2 <= |p| {
      NumberForth(p, 2);
      BigEndianOfValueOf(p, 2);
      ItemsForth(p[2..], Value(p[..2]));
    }
  }

  lemma FieldForth(k: Kind, p: Buffer)
    ensures
      var g := GetField(k, p);
      g.Got? ==> KindOf(g.value) == k && Normalised([k], p) == PutField(g.value) + g.rest
  {
    hide GetText, PutText, GetTextList, GetItemList, PutTextList, PutItemList;
    if GetField(k, p).Got? {
      match k
      case KBool =>
      case KU16 => NumberForth(p, 2);
      case KU32 => NumberForth(p, 4);
      case KU64 => NumberForth(p, 8);
      case KText => TextForth(p);
      case KTexts => TextListForth(p);
      case KItems => ItemListForth(p);
    }
  }

  lemma LayoutPrepend(f: Field, fs: Fields)
    ensures LayoutOf([f] + fs) == [KindOf(f)] + LayoutOf(fs)
    ensures Encode([f] + fs) == PutField(f) + Encode(fs)
  {
    assert ([f] + fs)[1..] == fs;
  }

  lemma {:induction false} FieldsForth(layout: Layout, p: Buffer)
    requires forall i :: 0 < i < |layout| ==> layout[i] != KBool
    ensures
      var g := GetFields(layout, p);
      g.Got? ==> LayoutOf(g.value) == layout && Normalised(layout, p) == Encode(g.value) + g.rest
    decreases |layout|
  {
    hide GetField, PutField, KindOf;
    if layout == [] {
      assert [] + p == p;
    } else {
      FieldForth(layout[0], p);
      var first := GetField(layout[0], p);
      if first.Got? {
        FieldsForth(layout[1..], first.rest);
        assert Normalised(layout[1..], first.rest) == first.rest;
        assert Normalised(layout, p) == Normalised([layout[0]], p);
        var others := GetFields(layout[1..], first.rest);
        if others.Got? {
          hide LayoutOf, Encode, Normalised;
          LayoutPrepend(first.value, others.value);
          assert layout == [layout[0]] + layout[1..];
        }
      }
    }
  }

  /** A payload that decodes re-encodes to itself, up to the spelling of a leading boolean. */
  lemma Reencodes(layout: Layout, p: Buffer)
    requires forall i :: 0 < i < |layout| ==> layout[i] != KBool
    ensures Decode(layout, p).Some? ==>
      LayoutOf(Decode(layout, p).value) == layout && Encode(Decode(layout, p).value) == Normalised(layout, p)
  {
    FieldsForth(layout, p);
    if Decode(layout, p).Some? {
      assert Encode(Decode(layout, p).value) + [] == Encode(Decode(layout, p).value);
    }
  }

  // ----- The messages -----

  datatype Message =
    | LoginReq | LoginRes | VersionReject | LogoutReq | LogoutRes | SessionReconnectReq | SessionReconnectRes
    | PartyCreateReq | PartyCreateRes | PartyInviteReq | PartyInviteRes | PartyAcceptReq | PartyAcceptRes
    | PartyDisbandReq | PartyDisbandRes | PartyEvent
    | GuildCreateReq | GuildCreateRes | GuildJoinReq | GuildJoinRes | GuildLeaveReq | GuildLeaveRes | GuildEvent
    | ChatSendReq | ChatSendRes | ChatEvent
    | MatchReq | MatchFoundNotify | DungeonEnterReq | DungeonEnterRes | DungeonResultNotify | DungeonResultRes
    | InventoryUpdateNotify | InventoryUpdateRes

  /** The fields each encode/decode pair writes and reads, in order; `MessageCodec` ties four of the
      pairs to it. */
  function LayoutFor(m: Message): Layout {
    match m
    case LoginReq => [KText, KText]
    case LoginRes => [KBool, KText, KText]
    case VersionReject => [KU16, KU16, KU16, KText]
    case LogoutReq => []
    case LogoutRes => [KBool, KText]
    case SessionReconnectReq => [KText, KU32]
    case SessionReconnectRes => [KBool, KText, KU64, KU32]
    case PartyCreateReq => [KText]
    case PartyCreateRes => [KBool, KU64, KText]
    case PartyInviteReq => [KU64, KText, KText]
    case PartyInviteRes => [KBool, KText]
    case PartyAcceptReq => [KU64, KText]
    case PartyAcceptRes => [KBool, KText]
    case PartyDisbandReq => [KU64, KText]
    case PartyDisbandRes => [KBool, KText]
    case PartyEvent => [KU16, KU64, KText, KText, KTexts, KText]
    case GuildCreateReq => [KText]
    case GuildCreateRes => [KBool, KU64, KText]
    case GuildJoinReq => [KU64]
    case GuildJoinRes => [KBool, KText]
    case GuildLeaveReq => [KU64]
    case GuildLeaveRes => [KBool, KText]
    case GuildEvent => [KU16, KU64, KText, KTexts, KText]
    case ChatSendReq => [KU16, KU64, KText]
    case ChatSendRes => [KBool, KText]
    case ChatEvent => [KU16, KU64, KText, KText]
    case MatchReq => [KU64, KU32, KText]
    case MatchFoundNotify => [KBool, KText, KText, KU64, KU64, KText, KText]
    case DungeonEnterReq => [KU64, KText, KU64]
    case DungeonEnterRes => [KBool, KText, KText, KU16, KU32]
    case DungeonResultNotify => [KU16, KU32, KU16, KItems]
    case DungeonResultRes => [KBool, KText, KText, KText]
    case InventoryUpdateNotify => [KU64, KItems]
    case InventoryUpdateRes => [KBool, KText, KText, KU64]
  }

  lemma BoolOnlyLeads(m: Message)
    ensures forall i :: 0 < i < |LayoutFor(m)| ==> LayoutFor(m)[i] != KBool
  {
  }

  /** A corollary about the layouts listed above: fields in a message's layout decode, once encoded,
      to their clipped selves, and whatever decodes was the encoding of what it decodes to. */
  lemma EveryMessageRoundTrips(m: Message, fs: Fields, p: Buffer)
    requires LayoutOf(fs) == LayoutFor(m)
    ensures Decode(LayoutFor(m), Encode(fs)) == Some(ClipAll(fs))
    ensures Decode(LayoutFor(m), p).Some? ==> Encode(Decode(LayoutFor(m), p).value) == Normalised(LayoutFor(m), p)
  {
    RoundTrip(fs);
    BoolOnlyLeads(m);
    hide *;
    Reencodes(LayoutFor(m), p);
  }
}
