/** The SECS-II encoder (pkg/message/secs2/encode.go): the wire form of an item and the methods that append it. */
module Secs2Encode {
  import opened Outcomes
  import opened Bytes
  import opened Secs2Item

  datatype EncodeError = NilItem | LengthTooLarge

  /** Fewest length bytes (1 to 3) that hold n. */
  function LengthBytes(n: nat): (k: nat)
    requires n <= MAX_LENGTH
    ensures 1 <= k <= 3 && n < Pow256(k)
    ensures k == 1 || n >= Pow256(k - 1)
  {
    PowersOf256();
    if n <= 0xFF then 1 else if n <= 0xFFFF then 2 else 3
  }

  function Header(f: Format, n: nat): (h: seq<byte>)
    requires n <= MAX_LENGTH
    ensures 2 <= |h| <= 4
  {
    [Code(f) + LengthBytes(n)] + BigEndian(LengthBytes(n), n)
  }

  /** The bits of a value as Go's conversion to the unsigned type of the same width gives them. */
  function Raw(k: NumKind, v: int): (u: nat)
    ensures u < Pow256(Width(k))
  {
    v % Pow256(Width(k))
  }

  /** One array element: its bits, most significant byte first. */
  function Element(k: NumKind, v: int): (s: seq<byte>)
    ensures |s| == Width(k)
  {
    BigEndian(Width(k), Raw(k, v))
  }

  function Flags(flags: seq<bool>): (s: seq<byte>)
    ensures |s| == |flags|
  {
    if flags == [] then [] else [if flags[0] then 1 else 0] + Flags(flags[1..])
  }

  function Numbers(k: NumKind, values: seq<int>): (s: seq<byte>)
    ensures |s| == Width(k) * |values|
  {
    if values == [] then [] else Element(k, values[0]) + Numbers(k, values[1..])
  }

  /** The bytes after the header of a leaf. */
  function Payload(item: Item): (s: seq<byte>)
    requires !item.ListItem?
    ensures Fits(item) <==> |s| <= MAX_LENGTH
  {
    match item
    case TextItem(_, _) => item.Content()
    case BoolItem(flags) => Flags(flags)
    case NumItem(k, values) => Numbers(k, values)
  }

  /** The wire form of an item: header, then payload or children. */
  function Wire(item: Item): (s: seq<byte>)
    requires Fits(item)
    ensures |s| >= 2
    decreases item, 1
  {
    if item.ListItem? then Header(ListFormat, |item.items|) + WireAll(item.items)
    else Header(item.ItemFormat(), |Payload(item)|) + Payload(item)
  }

  function WireAll(items: seq<Item>): (s: seq<byte>)
    requires forall x | x in items :: Fits(x)
    decreases items, 0
  {
    if items == [] then [] else Wire(items[0]) + WireAll(items[1..])
  }

  method Encode(item: Option<Item>) returns (r: Result<seq<byte>, EncodeError>)
    ensures r.Ok? <==> item.Some? && Fits(item.value)
    ensures r.Ok? ==> r.value == Wire(item.value)
    ensures item.None? ==> r == Err(NilItem)
  {
    if item.None? {
      return Err(NilItem);
    }
    r := EncodeItem(item.value, []);
  }

  /** `encodeItem`: appends the item to buf, or reports the first length that does not fit. */
  method EncodeItem(item: Item, buf: seq<byte>) returns (r: Result<seq<byte>, EncodeError>)
    ensures r == if Fits(item) then Ok(buf + Wire(item)) else Err(LengthTooLarge)
    decreases item, 1
  {
    match item
    case ListItem(items) =>
      r := EncodeList(items, buf);
    case TextItem(k, _) =>
      r := EncodeHeader(buf, TextFormat(k), |item.Content()|);
      if r.Ok? {
        assert r.value + item.Content() == buf + Wire(item);
        r := Ok(r.value + item.Content());
      }
    case BoolItem(flags) =>
      r := EncodeBoolean(flags, buf);
    case NumItem(k, values) =>
      r := EncodeNumbers(k, values, buf);
  }

  method EncodeHeader(buf: seq<byte>, f: Format, dataLen: nat) returns (r: Result<seq<byte>, EncodeError>)
    ensures r == if dataLen <= MAX_LENGTH then Ok(buf + Header(f, dataLen)) else Err(LengthTooLarge)
  {
    if dataLen > MAX_LENGTH {
      return Err(LengthTooLarge);
    }
    HeaderIs(f, dataLen);
    hide Header, Code;
    var numLenBytes := if dataLen <= 0xFF then 1 else if dataLen <= 0xFFFF then 2 else 3;
    var out := buf + [Code(f) + numLenBytes];
    if numLenBytes == 3 {
      out := out + [dataLen / 0x1_0000];
      out := out + [dataLen / 0x100 % 0x100];
      out := out + [dataLen % 0x100];
    } else if numLenBytes == 2 {
      out := out + [dataLen / 0x100];
      out := out + [dataLen % 0x100];
    } else {
      out := out + [dataLen];
    }
    assert out == buf + Header(f, dataLen);
    r := Ok(out);
  }

  /** The header byte by byte. */
  lemma HeaderIs(f: Format, n: nat)
    requires n <= MAX_LENGTH
    ensures n <= 0xFF ==> Header(f, n) == [Code(f) + 1, n]
    ensures 0xFF < n <= 0xFFFF ==> Header(f, n) == [Code(f) + 2, n / 0x100, n % 0x100]
    ensures 0xFFFF < n ==> Header(f, n) == [Code(f) + 3, n / 0x1_0000, n / 0x100 % 0x100, n % 0x100]
  {
    hide BigEndian, Code;
    OneByte(n);
    TwoBytes(n);
    ThreeBytes(n);
  }

  lemma OneByte(n: nat)
    ensures BigEndian(1, n) == [n % 0x100]
  {
    assert BigEndian(0, n / 256) == [];
  }

  lemma TwoBytes(n: nat)
    ensures BigEndian(2, n) == [n / 0x100 % 0x100, n % 0x100]
  {
    OneByte(n / 0x100);
  }

  /** The length bytes written shift by shift are the big-endian number. */
  lemma ThreeBytes(n: nat)
    ensures BigEndian(3, n) == [n / 0x1_0000 % 0x100, n / 0x100 % 0x100, n % 0x100]
  {
    TwoBytes(n / 0x100);
    assert n / 0x100 / 0x100 == n / 0x1_0000;
  }

  lemma WireNone()
    ensures WireAll([]) == []
  {
  }

  lemma WireAllStep(items: seq<Item>, i: nat, out: seq<byte>)
    requires i < |items| && forall x | x in items :: Fits(x)
    ensures out + WireAll(items[i..]) == out + Wire(items[i]) + WireAll(items[i + 1..])
  {
    assert items[i..][1..] == items[i + 1..];
  }

  method EncodeList(items: seq<Item>, buf: seq<byte>) returns (r: Result<seq<byte>, EncodeError>)
    ensures r == if Fits(ListItem(items)) then Ok(buf + Wire(ListItem(items))) else Err(LengthTooLarge)
    decreases items, 0
  {
    hide Header, WireAll;
    var h := EncodeHeader(buf, ListFormat, |items|);
    if h.Err? {
      return h;
    }
    var out := h.value;
    for i := 0 to |items|
      invariant forall x | x in items[..i] :: Fits(x)
      invariant (forall x | x in items :: Fits(x)) ==> out + WireAll(items[i..]) == h.value + WireAll(items)
    {
      var c := EncodeItem(items[i], out);
      if c.Err? {
        return c;
      }
      assert items[..i + 1] == items[..i] + [items[i]];
      if forall x | x in items :: Fits(x) {
        WireAllStep(items, i, out);
      }
      out := c.value;
    }
    assert items[..|items|] == items && items[|items|..] == [];
    assert out + [] == out && WireAll([]) == [] by { WireNone(); }
    assert out == buf + (Header(ListFormat, |items|) + WireAll(items));
    r := Ok(out);
  }

  method EncodeBoolean(flags: seq<bool>, buf: seq<byte>) returns (r: Result<seq<byte>, EncodeError>)
    ensures r == if Fits(BoolItem(flags)) then Ok(buf + Wire(BoolItem(flags))) else Err(LengthTooLarge)
  {
    var h := EncodeHeader(buf, BooleanFormat, |flags|);
    if h.Err? {
      return h;
    }
    var out := h.value;
    for i := 0 to |flags|
      invariant out + Flags(flags[i..]) == h.value + Flags(flags)
    {
      assert flags[i..] == [flags[i]] + flags[i + 1..];
      out := out + [if flags[i] then 1 else 0];
    }
    assert flags[|flags|..] == [];
    assert out + [] == out == h.value + Flags(flags) == buf + Wire(BoolItem(flags));
    r := Ok(out);
  }

  lemma NumbersStep(k: NumKind, values: seq<int>, i: nat, out: seq<byte>)
    requires i < |values|
    ensures out + Numbers(k, values[i..]) == out + Element(k, values[i]) + Numbers(k, values[i + 1..])
  {
    assert values[i..][1..] == values[i + 1..];
  }

  /** `encodeI1` to `encodeF8`: one loop for the ten numeric encoders, which differ only in width and sign. */
  method EncodeNumbers(k: NumKind, values: seq<int>, buf: seq<byte>) returns (r: Result<seq<byte>, EncodeError>)
    ensures r == if Fits(NumItem(k, values)) then Ok(buf + Wire(NumItem(k, values))) else Err(LengthTooLarge)
  {
    var h := EncodeHeader(buf, NumFormat(k), Width(k) * |values|);
    if h.Err? {
      return h;
    }
    var out := h.value;
    for i := 0 to |values|
      invariant out + Numbers(k, values[i..]) == h.value + Numbers(k, values)
    {
      NumbersStep(k, values, i, out);
      out := out + Element(k, values[i]);
    }
    assert values[|values|..] == [] && out + [] == out;
    assert out == buf + (Header(NumFormat(k), Width(k) * |values|) + Numbers(k, values));
    r := Ok(out);
  }
}
