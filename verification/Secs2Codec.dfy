/** The encoder and the decoder together: round trip, prefix property, canonical form, size bounds. */
module Secs2Codec {
  import opened Outcomes
  import opened Bytes
  import opened Secs2Item
  import opened Secs2Encode
  import opened Secs2Decode

  // ----- One header -----

  /** A format byte and its length bytes, wherever they come from. */
  lemma HeaderIsParsed(s: seq<byte>, f: Format, k: nat)
    requires 1 <= k <= 3 && 1 + k <= |s| && !f.Jis8Format? && s[0] == Code(f) + k
    ensures FromBigEndian(s[1..1 + k]) <= MAX_LENGTH
    ensures ParseHeader(s) == Parsed((f, FromBigEndian(s[1..1 + k])), 1 + k)
  {
    FormatReadBack(f);
    PowersOf256();
    hide FromBigEndian, Code, FormatOf, Pow256;
    assert s[0] % 4 == k;
  }

  /** A header is read back whatever follows it. */
  lemma HeaderReadBack(f: Format, n: nat, rest: seq<byte>)
    requires n <= MAX_LENGTH && !f.Jis8Format?
    ensures ParseHeader(Header(f, n) + rest) == Parsed((f, n), |Header(f, n)|)
    ensures (Header(f, n) + rest)[|Header(f, n)|..] == rest
  {
    hide BigEndian, FromBigEndian, Pow256, LengthBytes, Code, ParseHeader;
    var k := LengthBytes(n);
    var s := Header(f, n) + rest;
    assert s[1..1 + k] == BigEndian(k, n) && s[0] == Code(f) + k;
    HeaderIsParsed(s, f, k);
    ReadBack(k, n);
  }

  lemma FormatReadBack(f: Format)
    ensures FormatOf(Code(f)) == Some(f)
  {
    match f
    case NumFormat(I1) | NumFormat(I2) | NumFormat(I4) | NumFormat(I8) =>
    case NumFormat(U1) | NumFormat(U2) | NumFormat(U4) | NumFormat(U8) =>
    case NumFormat(F4) | NumFormat(F8) =>
    case TextFormat(Ascii) | TextFormat(Binary) =>
    case ListFormat | BooleanFormat | Jis8Format =>
  }

  // ----- Leaf payloads -----

  lemma {:induction false} FlagsReadBack(flags: seq<bool>)
    ensures ReadFlags(Flags(flags)) == flags
  {
    if flags != [] {
      FlagsReadBack(flags[1..]);
      assert Flags(flags)[1..] == Flags(flags[1..]);
    }
  }

  /** Go's conversion of a value that fits its width: negative numbers wrap round once. */
  lemma Wraps(k: NumKind, v: int)
    requires InRange(k, v)
    ensures Raw(k, v) == if v < 0 then v + Pow256(Width(k)) else v
  {
    PowersOf256();
    hide Pow256;
    match Width(k)
    case 1 => assert Raw(k, v) == v % 0x100;
    case 2 => assert Raw(k, v) == v % 0x1_0000;
    case 4 => assert Raw(k, v) == v % 0x1_0000_0000;
    case 8 => assert Raw(k, v) == v % 0x1_0000_0000_0000_0000;
  }

  lemma ValueReadBack(k: NumKind, v: int)
    requires InRange(k, v)
    ensures Value(k, Raw(k, v)) == v
  {
    Wraps(k, v);
    hide Pow256, Raw, Width;
  }

  lemma ElementReadBack(k: NumKind, v: int)
    requires InRange(k, v)
    ensures ReadElement(k, Element(k, v)) == v
  {
    ReadBack(Width(k), Raw(k, v));
    ValueReadBack(k, v);
  }

  lemma NumbersOfFirst(k: NumKind, values: seq<int>)
    requires values != []
    ensures Numbers(k, values) == Element(k, values[0]) + Numbers(k, values[1..])
  {
  }

  lemma {:induction false} NumbersReadBack(k: NumKind, values: seq<int>)
    requires forall v | v in values :: InRange(k, v)
    ensures |Numbers(k, values)| % Width(k) == 0 && ReadNumbers(k, Numbers(k, values)) == values
  {
    if values != [] {
      hide Element, ReadElement, InRange, Numbers, ReadNumbers, Width;
      NumbersOfFirst(k, values);
      NumbersReadBack(k, values[1..]);
      ReadFirstNumber(k, Element(k, values[0]), Numbers(k, values[1..]));
      ElementReadBack(k, values[0]);
      assert values == [values[0]] + values[1..];
    }
  }

  /** A leaf payload parses to the normalised leaf whatever follows it. */
  lemma LeafReadBack(item: Item, rest: seq<byte>)
    requires Typed(item) && !item.ListItem?
    ensures var p := Payload(item);
            ParseLeaf(item.ItemFormat(), p + rest, |p|) == Parsed(Norm(item), |p|)
  {
    var p := Payload(item);
    assert (p + rest)[..|p|] == p;
    match item
    case TextItem(_, _) =>
    case BoolItem(flags) => FlagsReadBack(flags);
    case NumItem(k, values) => NumbersReadBack(k, values);
  }

  // ----- Round trip -----

  /** Decoding the wire form followed by any bytes gives the normalised item and stops at its last byte. */
  lemma {:induction false} ParseWire(item: Item, rest: seq<byte>)
    requires Typed(item) && Fits(item)
    ensures Parse(Wire(item) + rest) == Parsed(Norm(item), |Wire(item)|)
    decreases item, 1
  {
    match item
    case ListItem(items) =>
      ParseWireAll(items, rest);
      ParseWireList(items, rest);
    case _ => ParseWireLeaf(item, rest);
  }

  lemma ParseWireList(items: seq<Item>, rest: seq<byte>)
    requires Fits(ListItem(items))
    requires ParseList(WireAll(items) + rest, |items|) == Parsed(NormAll(items), |WireAll(items)|)
    ensures Parse(Wire(ListItem(items)) + rest) == Parsed(ListItem(NormAll(items)), |Wire(ListItem(items))|)
  {
    hide Header, ParseHeader, ParseLeaf, ParseList, WireAll, NormAll;
    HeaderReadBack(ListFormat, |items|, WireAll(items) + rest);
    assert Wire(ListItem(items)) + rest == Header(ListFormat, |items|) + (WireAll(items) + rest);
  }

  lemma ParseWireLeaf(item: Item, rest: seq<byte>)
    requires Typed(item) && Fits(item) && !item.ListItem?
    ensures Parse(Wire(item) + rest) == Parsed(Norm(item), |Wire(item)|)
  {
    hide Header, ParseHeader, ParseLeaf, ParseList;
    var f, p := item.ItemFormat(), Payload(item);
    var s := Wire(item) + rest;
    HeaderReadBack(f, |p|, p + rest);
    assert s == Header(f, |p|) + (p + rest);
    LeafReadBack(item, rest);
  }

  lemma {:induction false} ParseWireAll(items: seq<Item>, rest: seq<byte>)
    requires forall x | x in items :: Typed(x) && Fits(x)
    ensures ParseList(WireAll(items) + rest, |items|) == Parsed(NormAll(items), |WireAll(items)|)
    decreases items, 0
  {
    if items != [] {
      hide Wire, Parse, Norm, Typed, Fits;
      var tail := WireAll(items[1..]) + rest;
      assert WireAll(items) + rest == Wire(items[0]) + tail;
      ParseWire(items[0], tail);
      ParseWireAll(items[1..], rest);
      assert (Wire(items[0]) + tail)[|Wire(items[0])|..] == tail;
    }
  }

  /** `Decode` inverts `Encode` up to empty text slots. */
  lemma RoundTrip(item: Item)
    requires Typed(item) && Fits(item)
    ensures Decoded(Wire(item)) == Ok(Norm(item))
  {
    ParseWire(item, []);
    assert Wire(item) + [] == Wire(item);
  }

  /** `DecodeMulti` inverts concatenation of encodings. */
  lemma {:induction false} MultiRoundTrip(items: seq<Item>)
    requires forall x | x in items :: Typed(x) && Fits(x)
    ensures ParseMulti(WireAll(items)) == Ok(NormAll(items))
  {
    if items != [] {
      ParseWire(items[0], WireAll(items[1..]));
      MultiRoundTrip(items[1..]);
      assert WireAll(items)[|Wire(items[0])|..] == WireAll(items[1..]);
    }
  }

  // ----- Injectivity -----

  lemma {:induction false} NormKeepsWire(item: Item)
    requires Fits(item)
    ensures Fits(Norm(item)) && Wire(Norm(item)) == Wire(item)
    ensures Typed(item) ==> Typed(Norm(item))
    decreases item, 1
  {
    if item.ListItem? {
      NormAllKeepsWire(item.items);
    }
  }

  lemma {:induction false} NormAllKeepsWire(items: seq<Item>)
    requires forall x | x in items :: Fits(x)
    ensures forall x | x in NormAll(items) :: Fits(x)
    ensures (forall x | x in items :: Typed(x)) ==> forall x | x in NormAll(items) :: Typed(x)
    ensures WireAll(NormAll(items)) == WireAll(items)
    decreases items, 0
  {
    if items != [] {
      NormKeepsWire(items[0]);
      NormAllKeepsWire(items[1..]);
      assert NormAll(items)[1..] == NormAll(items[1..]);
    }
  }

  /** Two items have the same encoding exactly when they differ in empty text slots only. */
  lemma EncodingIsInjective(a: Item, b: Item)
    requires Typed(a) && Fits(a) && Typed(b) && Fits(b)
    ensures Wire(a) == Wire(b) <==> Norm(a) == Norm(b)
  {
    RoundTrip(a);
    RoundTrip(b);
    NormKeepsWire(a);
    NormKeepsWire(b);
  }

  /** No encoding is a proper prefix of another one. */
  lemma EncodingIsPrefixFree(a: Item, b: Item)
    requires Typed(a) && Fits(a) && Typed(b) && Fits(b)
    requires Wire(a) <= Wire(b)
    ensures Wire(a) == Wire(b)
  {
    var rest := Wire(b)[|Wire(a)|..];
    assert Wire(b) == Wire(a) + rest && Wire(b) + [] == Wire(b);
    ParseWire(a, rest);
    ParseWire(b, []);
  }

  // ----- Decoding first -----

  /**
   * Whatever is accepted is a well-typed, normal item that encodes again into
   * no more bytes than were read, and whose nodes cost two bytes each.
   */
  lemma {:induction false} ParsedIsCanonical(s: seq<byte>)
    requires Parse(s).Parsed?
    ensures var r := Parse(s);
            Typed(r.value) && Fits(r.value) && Norm(r.value) == r.value
            && |Wire(r.value)| <= r.used && 2 * Nodes(r.value) <= r.used
    decreases |s|, 0
  {
    var h := ParseHeader(s);
    var (f, n) := h.value;
    ShorterHeader(s);
    if f.ListFormat? {
      ListParsedIsCanonical(s[h.used..], n);
    } else {
      LeafParsedIsCanonical(f, s[h.used..], n);
    }
  }

  /** The encoder never needs more length bytes than were read. */
  lemma ShorterHeader(s: seq<byte>)
    requires ParseHeader(s).Parsed?
    ensures var h := ParseHeader(s);
            |Header(h.value.0, h.value.1)| <= h.used
  {
    PowersOf256();
  }

  lemma LeafParsedIsCanonical(f: Format, s: seq<byte>, n: nat)
    requires !f.ListFormat? && !f.Jis8Format? && n <= MAX_LENGTH && ParseLeaf(f, s, n).Parsed?
    ensures var x := ParseLeaf(f, s, n).value;
            Typed(x) && Fits(x) && Norm(x) == x && Nodes(x) == 1 && |Wire(x)| == |Header(f, n)| + n
  {
    if f.NumFormat? {
      assert |Numbers(f.num, ReadNumbers(f.num, s[..n]))| == n;
    }
  }

  lemma {:induction false} ListParsedIsCanonical(s: seq<byte>, count: nat)
    requires ParseList(s, count).Parsed?
    ensures var r := ParseList(s, count);
            (forall x | x in r.value :: Typed(x) && Fits(x)) && NormAll(r.value) == r.value
            && |WireAll(r.value)| <= r.used && 2 * NodesAll(r.value) <= r.used
    decreases |s|, 1, count
  {
    if count > 0 {
      var p := Parse(s);
      ParsedIsCanonical(s);
      ListParsedIsCanonical(s[p.used..], count - 1);
      var r := ParseList(s, count).value;
      assert r[1..] == ParseList(s[p.used..], count - 1).value;
    }
  }

  /** Decode, then encode again: the canonical form of an accepted body. */
  function Canonical(s: seq<byte>): (c: seq<byte>)
    requires Decoded(s).Ok?
  {
    ParsedIsCanonical(s);
    Wire(Decoded(s).value)
  }

  /** Re-encoding never grows a body, decodes to the same item, and is idempotent. */
  lemma CanonicalForm(s: seq<byte>)
    requires Decoded(s).Ok?
    ensures var c := Canonical(s);
            |c| <= |s| && Decoded(c) == Decoded(s) && Canonical(c) == c
  {
    ParsedIsCanonical(s);
    RoundTrip(Decoded(s).value);
  }

  /** Two accepted bodies mean the same item exactly when their canonical forms agree. */
  lemma CanonicalDecidesMeaning(s: seq<byte>, t: seq<byte>)
    requires Decoded(s).Ok? && Decoded(t).Ok?
    ensures Decoded(s) == Decoded(t) <==> Canonical(s) == Canonical(t)
  {
    CanonicalForm(s);
    CanonicalForm(t);
  }
}
