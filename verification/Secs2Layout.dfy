/** The wire form against SEMI E5's own terms: item format codes, octets per element, most significant octet first. */
module Secs2Layout {
  import opened Outcomes
  import opened Bytes
  import opened Secs2Item
  import opened Secs2Encode
  import opened Secs2Decode
  import opened Secs2Codec

  /** Octets per element, by the digit in the format's name. */
  function Octets(k: NumKind): (n: nat)
    ensures n in {1, 2, 4, 8}
  {
    match k
    case I1 | U1 => 1
    case I2 | U2 => 2
    case I4 | U4 | F4 => 4
    case I8 | U8 | F8 => 8
  }

  /**
   * The six-bit item format code of SEMI E5. In octal: 00 list, 10 binary,
   * 11 boolean, 20 ASCII, 21 JIS-8, 3x signed, 4x float and 5x unsigned, where
   * x is the number of octets, or 0 for eight.
   */
  function FormatCode(f: Format): nat {
    match f
    case ListFormat => 0
    case TextFormat(Binary) => 8
    case BooleanFormat => 9
    case TextFormat(Ascii) => 16
    case Jis8Format => 17
    case NumFormat(k) =>
      (match k
       case I1 | I2 | I4 | I8 => 24
       case F4 | F8 => 32
       case U1 | U2 | U4 | U8 => 40) + Octets(k) % 8
  }

  /** Octets read as a number, the most significant one first. */
  function Horner(acc: nat, s: seq<byte>): nat
    decreases s
  {
    if s == [] then acc else Horner(256 * acc + s[0], s[1..])
  }

  lemma CodeIsFormatCode(f: Format)
    ensures Code(f) == 4 * FormatCode(f)
  {
    match f
    case NumFormat(I1) | NumFormat(I2) | NumFormat(I4) | NumFormat(I8) =>
    case NumFormat(U1) | NumFormat(U2) | NumFormat(U4) | NumFormat(U8) =>
    case NumFormat(F4) | NumFormat(F8) =>
    case TextFormat(Ascii) | TextFormat(Binary) =>
    case ListFormat | BooleanFormat | Jis8Format =>
  }

  /** The first byte of an encoding: the item's format code in the upper six bits, the number of length bytes below. */
  lemma FormatByteWritten(x: Item)
    requires Fits(x)
    ensures Wire(x)[0] / 4 == FormatCode(x.ItemFormat())
    ensures 1 <= Wire(x)[0] % 4 <= 3
  {
    CodeIsFormatCode(x.ItemFormat());
    hide Code, FormatCode, BigEndian, LengthBytes, WireAll, Payload;
  }

  /** What is parsed has the format its first byte announces. */
  lemma FormatByteRead(s: seq<byte>)
    requires Parse(s).Parsed?
    ensures s[0] / 4 == FormatCode(Parse(s).value.ItemFormat())
  {
    var f := ParseHeader(s).value.0;
    CodeIsFormatCode(f);
    hide Code, FormatCode, ParseList, ParseLeaf, FromBigEndian;
  }

  lemma {:induction false} HornerLast(acc: nat, s: seq<byte>, b: byte)
    ensures Horner(acc, s + [b]) == 256 * Horner(acc, s) + b
    decreases s
  {
    if s == [] {
      assert s + [b] == [b] && [b][1..] == [];
    } else {
      assert (s + [b])[1..] == s[1..] + [b];
      HornerLast(256 * acc + s[0], s[1..], b);
    }
  }

  lemma {:induction false} HornerOfBigEndian(width: nat, n: nat)
    requires n < Pow256(width)
    ensures Horner(0, BigEndian(width, n)) == n
  {
    if width > 0 {
      HornerOfBigEndian(width - 1, n / 256);
      HornerLast(0, BigEndian(width - 1, n / 256), n % 256);
    }
  }

  lemma WidthIsOctets(k: NumKind)
    ensures Width(k) == Octets(k)
  {
  }

  /** One number: its octets, most significant first, hold it; a negative one in two's complement. */
  lemma NumberOnTheWire(k: NumKind, v: int)
    requires InRange(k, v)
    ensures
      var s := Wire(NumItem(k, [v]));
      && |s| == 2 + Octets(k) && s[0] == 4 * FormatCode(NumFormat(k)) + 1 && s[1] == Octets(k)
      && Horner(0, s[2..]) == if v < 0 then v + Pow256(Octets(k)) else v
  {
    WidthIsOctets(k);
    CodeIsFormatCode(NumFormat(k));
    Wraps(k, v);
    HornerOfBigEndian(Width(k), Raw(k, v));
    assert Numbers(k, [v]) == Element(k, v) + Numbers(k, []);
    HeaderIs(NumFormat(k), Width(k));
    hide BigEndian, Header, Code, FormatCode, Raw, Pow256, Horner, InRange;
    assert Wire(NumItem(k, [v])) == [Code(NumFormat(k)) + 1, Width(k)] + BigEndian(Width(k), Raw(k, v));
  }

  /** Several numbers follow one another. */
  lemma NumbersOnTheWire(k: NumKind, v: int, more: seq<int>)
    ensures Payload(NumItem(k, [v] + more)) == Payload(NumItem(k, [v])) + Payload(NumItem(k, more))
  {
    assert ([v] + more)[1..] == more && [v][1..] == [];
  }

  /** Strings and bytes go out as they are, flags as 1 and 0, lists as their count and their children in order. */
  lemma OthersOnTheWire(k: TextKind, t: seq<byte>, flags: seq<bool>, x: Item, more: seq<Item>)
    ensures Payload(TextItem(k, Some(t))) == t
    ensures Payload(BoolItem(flags)) == seq(|flags|, i requires 0 <= i < |flags| => if flags[i] then 1 else 0)
    ensures Fits(x) && (forall y | y in more :: Fits(y)) ==>
              WireAll([x] + more) == Wire(x) + WireAll(more) && WireAll([]) == []
  {
    FlagsAre(flags);
    if Fits(x) && forall y | y in more :: Fits(y) {
      assert ([x] + more)[1..] == more;
    }
  }

  lemma {:induction false} FlagsAre(flags: seq<bool>)
    ensures Flags(flags) == seq(|flags|, i requires 0 <= i < |flags| => if flags[i] then 1 else 0)
  {
    if flags != [] {
      FlagsAre(flags[1..]);
    }
  }

  /** Header, then payload or children. */
  lemma PartsOnTheWire(x: Item)
    requires Fits(x)
    ensures !x.ListItem? ==> Wire(x) == Header(x.ItemFormat(), |Payload(x)|) + Payload(x)
    ensures x.ListItem? ==> Wire(x) == Header(ListFormat, |x.items|) + WireAll(x.items)
  {
  }

  // ----- What the decoder accepts -----

  /** A format byte with one to three length bytes is accepted, however many the length needs. */
  lemma AnyLengthBytesAreRead(f: Format, k: nat, n: nat, rest: seq<byte>)
    requires 1 <= k <= 3 && n < Pow256(k) && !f.Jis8Format?
    ensures ParseHeader([4 * FormatCode(f) + k] + BigEndian(k, n) + rest) == Parsed((f, n), 1 + k)
  {
    CodeIsFormatCode(f);
    ReadBack(k, n);
    hide BigEndian, FromBigEndian, Code, FormatCode, ParseHeader;
    var s := [4 * FormatCode(f) + k] + BigEndian(k, n) + rest;
    assert s[1..1 + k] == BigEndian(k, n);
    HeaderIsParsed(s, f, k);
  }

  /** A leaf is accepted exactly when its payload is there and, for numbers, made of whole elements. */
  lemma LeafIsAccepted(f: Format, s: seq<byte>, n: nat)
    requires !f.ListFormat? && !f.Jis8Format?
    ensures ParseLeaf(f, s, n).Parsed? <==> n <= |s| && (f.NumFormat? ==> n % Octets(f.num) == 0)
  {
    if f.NumFormat? {
      WidthIsOctets(f.num);
    }
  }

  /** A list is accepted exactly when its announced number of items is there, one after the other. */
  lemma ListIsAccepted(s: seq<byte>, count: nat)
    ensures ParseList(s, 0).Parsed? && ParseList(s, 0).used == 0
    ensures ParseList(s, count + 1).Parsed? <==> Parse(s).Parsed? && ParseList(s[Parse(s).used..], count).Parsed?
  {
    hide Parse;
  }

  /** A whole body is accepted exactly when one item fills it. */
  lemma BodyIsAccepted(s: seq<byte>)
    ensures Decoded(s).Ok? <==> Parse(s).Parsed? && Parse(s).used == |s|
  {
    hide Parse;
  }
}
