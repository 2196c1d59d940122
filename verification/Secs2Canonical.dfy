/** What decoding and encoding again does to the bytes of an accepted body, and which bodies it leaves alone. */
module Secs2Canonical {
  import opened Bytes
  import opened Secs2Item
  import opened Secs2Encode
  import opened Secs2Decode
  import opened Secs2Codec

  // ----- The rewriting, byte by byte -----

  /** The bytes of an item after tidying, and whether they were tidy before. */
  datatype Tidying = Tidying(bytes: seq<byte>, tidy: bool)

  /** Boolean bytes become 0 or 1; every other payload stays as it is. */
  function TidyPayload(f: Format, p: seq<byte>): seq<byte> {
    if f.BooleanFormat? then seq(|p|, i requires 0 <= i < |p| => if p[i] != 0 then 1 else 0) else p
  }

  predicate IsTidyPayload(f: Format, p: seq<byte>) {
    f.BooleanFormat? ==> forall b | b in p :: b <= 1
  }

  /** Walks the bytes of an item: every header gets its fewest length bytes, every payload is tidied, at every depth. */
  function Tidy(s: seq<byte>): (r: Parsed<Tidying>)
    ensures r.Parsed? ==> 2 <= r.used <= |s|
    decreases |s|, 0
  {
    match ParseHeader(s)
    case Failed(e) => Failed(e)
    case Parsed((f, n), h) =>
      var minimal := h == 1 + LengthBytes(n);
      if f.ListFormat? then
        match TidyList(s[h..], n)
        case Failed(e) => Failed(e)
        case Parsed(t, used) => Parsed(Tidying(Header(f, n) + t.bytes, minimal && t.tidy), h + used)
      else
        match ParseLeaf(f, s[h..], n)
        case Failed(e) => Failed(e)
        case Parsed(_, used) =>
          var p := s[h..][..n];
          Parsed(Tidying(Header(f, n) + TidyPayload(f, p), minimal && IsTidyPayload(f, p)), h + used)
  }

  function TidyList(s: seq<byte>, count: nat): (r: Parsed<Tidying>)
    ensures r.Parsed? ==> r.used <= |s|
    decreases |s|, 1, count
  {
    if count == 0 then Parsed(Tidying([], true), 0)
    else
      match Tidy(s)
      case Failed(e) => Failed(e)
      case Parsed(t, used) =>
        match TidyList(s[used..], count - 1)
        case Failed(e) => Failed(e)
        case Parsed(ts, more) => Parsed(Tidying(t.bytes + ts.bytes, t.tidy && ts.tidy), used + more)
  }

  // ----- Re-encoding is that rewriting -----

  lemma BitsReadBack(k: NumKind, u: nat)
    requires u < Pow256(Width(k))
    ensures Raw(k, Value(k, u)) == u
  {
  }

  lemma ElementWriteBack(k: NumKind, e: seq<byte>)
    requires |e| == Width(k)
    ensures Element(k, ReadElement(k, e)) == e
  {
    hide BigEndian, FromBigEndian, Pow256, Raw, Value, InRange;
    WriteBack(e);
    BitsReadBack(k, FromBigEndian(e));
  }

  lemma {:induction false} NumbersWriteBack(k: NumKind, s: seq<byte>)
    requires |s| % Width(k) == 0
    ensures Numbers(k, ReadNumbers(k, s)) == s
    decreases |s|
  {
    if s != [] {
      hide ReadNumbers, Element, ReadElement, InRange, Width;
      WholeElements(|s|, Width(k));
      var e, rest := s[..Width(k)], s[Width(k)..];
      assert s == e + rest;
      ReadFirstNumber(k, e, rest);
      ElementWriteBack(k, e);
      NumbersWriteBack(k, rest);
      assert ([ReadElement(k, e)] + ReadNumbers(k, rest))[1..] == ReadNumbers(k, rest);
    }
  }

  lemma {:induction false} FlagsWriteBack(s: seq<byte>)
    ensures Flags(ReadFlags(s)) == TidyPayload(BooleanFormat, s)
  {
    if s != [] {
      FlagsWriteBack(s[1..]);
      var flags := ReadFlags(s);
      assert flags[1..] == ReadFlags(s[1..]);
    }
  }

  lemma LeafIsTidied(f: Format, s: seq<byte>, n: nat)
    requires !f.ListFormat? && !f.Jis8Format? && n <= MAX_LENGTH && ParseLeaf(f, s, n).Parsed?
    ensures Fits(ParseLeaf(f, s, n).value)
    ensures Wire(ParseLeaf(f, s, n).value) == Header(f, n) + TidyPayload(f, s[..n])
  {
    LeafParsedIsCanonical(f, s, n);
    hide Header;
    match f
    case TextFormat(_) =>
    case BooleanFormat => FlagsWriteBack(s[..n]);
    case NumFormat(k) => NumbersWriteBack(k, s[..n]);
  }

  /** The walk accepts what the parser accepts, over the same bytes, and its result is the encoding of the parsed item. */
  ghost predicate Reencodes(p: Parsed<Item>, t: Parsed<Tidying>) {
    if p.Failed? then t == Failed(p.error)
    else t.Parsed? && t.used == p.used && Fits(p.value) && Wire(p.value) == t.value.bytes
  }

  ghost predicate ReencodesAll(p: Parsed<seq<Item>>, t: Parsed<Tidying>) {
    if p.Failed? then t == Failed(p.error)
    else t.Parsed? && t.used == p.used && (forall x | x in p.value :: Fits(x)) && WireAll(p.value) == t.value.bytes
  }

  lemma ListItemStep(s: seq<byte>)
    requires ParseHeader(s).Parsed? && ParseHeader(s).value.0.ListFormat?
    requires
      var h := ParseHeader(s);
      ReencodesAll(ParseList(s[h.used..], h.value.1), TidyList(s[h.used..], h.value.1))
    ensures Reencodes(Parse(s), Tidy(s))
  {
    hide ParseHeader, Header, ParseList, TidyList, WireAll, LengthBytes;
  }

  lemma LeafItemStep(s: seq<byte>)
    requires ParseHeader(s).Parsed? && !ParseHeader(s).value.0.ListFormat?
    ensures Reencodes(Parse(s), Tidy(s))
  {
    hide ParseHeader, Header, ParseLeaf, TidyPayload, IsTidyPayload, LengthBytes, Wire, Fits;
    var h := ParseHeader(s);
    if ParseLeaf(h.value.0, s[h.used..], h.value.1).Parsed? {
      LeafIsTidied(h.value.0, s[h.used..], h.value.1);
    }
  }

  lemma {:induction false} ReencodingTidies(s: seq<byte>)
    ensures Reencodes(Parse(s), Tidy(s))
    decreases |s|, 0
  {
    var h := ParseHeader(s);
    if h.Parsed? {
      hide Parse, Tidy, ParseHeader, Reencodes, ReencodesAll;
      if h.value.0.ListFormat? {
        ReencodingTidiesList(s[h.used..], h.value.1);
        ListItemStep(s);
      } else {
        LeafItemStep(s);
      }
    }
  }

  lemma NoItems(s: seq<byte>)
    ensures ReencodesAll(ParseList(s, 0), TidyList(s, 0)) && KeepsTidy(s, TidyList(s, 0))
  {
  }

  lemma ListStep(s: seq<byte>, count: nat)
    requires count > 0 && Reencodes(Parse(s), Tidy(s))
    requires Parse(s).Parsed? ==> ReencodesAll(ParseList(s[Parse(s).used..], count - 1), TidyList(s[Parse(s).used..], count - 1))
    ensures ReencodesAll(ParseList(s, count), TidyList(s, count))
  {
    hide Parse, Tidy, Wire, Fits, WireAll;
    if Parse(s).Parsed? {
      var more := ParseList(s[Parse(s).used..], count - 1);
      if more.Parsed? {
        OneMore(Parse(s).value, more.value);
      }
    }
  }

  lemma {:induction false} ReencodingTidiesList(s: seq<byte>, count: nat)
    ensures ReencodesAll(ParseList(s, count), TidyList(s, count))
    decreases |s|, 1, count
  {
    hide Parse, Tidy, ParseList, TidyList, Reencodes, ReencodesAll;
    if count == 0 {
      NoItems(s);
    } else {
      ReencodingTidies(s);
      if Parse(s).Parsed? {
        ReencodingTidiesList(s[Parse(s).used..], count - 1);
      }
      ListStep(s, count);
    }
  }

  lemma OneMore(x: Item, xs: seq<Item>)
    requires Fits(x) && forall y | y in xs :: Fits(y)
    ensures (forall y | y in [x] + xs :: Fits(y)) && WireAll([x] + xs) == Wire(x) + WireAll(xs)
  {
    hide Fits, Wire;
    assert ([x] + xs)[1..] == xs;
  }

  // ----- The bodies it leaves alone -----

  lemma HeaderWriteBack(s: seq<byte>)
    requires ParseHeader(s).Parsed?
    ensures
      var h := ParseHeader(s);
      Header(h.value.0, h.value.1) == s[..h.used] <==> h.used == 1 + LengthBytes(h.value.1)
  {
    hide BigEndian, FromBigEndian, LengthBytes, Code, FormatOf;
    var k := s[0] % 4;
    WriteBack(s[1..1 + k]);
    assert s[..1 + k] == [s[0]] + s[1..1 + k];
  }

  lemma PayloadKept(f: Format, p: seq<byte>)
    ensures |TidyPayload(f, p)| == |p|
    ensures TidyPayload(f, p) == p <==> IsTidyPayload(f, p)
  {
    var t := TidyPayload(f, p);
    if f.BooleanFormat? {
      assert forall i | 0 <= i < |p| :: t[i] == p[i] <==> p[i] <= 1;
      assert forall i | 0 <= i < |p| :: p[i] in p;
      assert t == p <==> forall i | 0 <= i < |p| :: t[i] == p[i];
    }
  }

  /** Two parts that are no longer than their places fill them exactly when each fills its own. */
  lemma PartsFill(a: seq<byte>, b: seq<byte>, s: seq<byte>, cut: nat, used: nat)
    requires |a| <= cut <= |s| && |b| <= used <= |s| - cut
    ensures a + b == s[..cut + used] <==> a == s[..cut] && b == s[cut..][..used]
  {
    if a + b == s[..cut + used] {
      assert |a| == cut && (a + b)[..cut] == a && (a + b)[cut..] == b;
    } else {
      assert s[..cut] + s[cut..][..used] == s[..cut + used];
    }
  }

  /** Tidying never grows an item and keeps its bytes exactly when they were tidy. */
  ghost predicate KeepsTidy(s: seq<byte>, t: Parsed<Tidying>) {
    t.Parsed? ==>
      t.used <= |s| && |t.value.bytes| <= t.used && (t.value.bytes == s[..t.used] <==> t.value.tidy)
  }

  lemma {:induction false} KeptIffTidy(s: seq<byte>)
    ensures KeepsTidy(s, Tidy(s))
    decreases |s|, 0
  {
    var h := ParseHeader(s);
    if h.Parsed? {
      ShorterHeader(s);
      HeaderWriteBack(s);
      hide ParseHeader, Header, TidyList, ParseLeaf, TidyPayload, IsTidyPayload, LengthBytes;
      var (f, n) := h.value;
      var rest := s[h.used..];
      if f.ListFormat? {
        KeptIffTidyList(rest, n);
        var t := TidyList(rest, n);
        if t.Parsed? {
          PartsFill(Header(f, n), t.value.bytes, s, h.used, t.used);
        }
      } else if ParseLeaf(f, rest, n).Parsed? {
        PayloadKept(f, rest[..n]);
        PartsFill(Header(f, n), TidyPayload(f, rest[..n]), s, h.used, n);
      }
    }
  }

  lemma KeptStep(s: seq<byte>, count: nat)
    requires count > 0 && KeepsTidy(s, Tidy(s))
    requires Tidy(s).Parsed? ==> KeepsTidy(s[Tidy(s).used..], TidyList(s[Tidy(s).used..], count - 1))
    ensures KeepsTidy(s, TidyList(s, count))
  {
    hide Tidy;
    var t := Tidy(s);
    if t.Parsed? {
      var ts := TidyList(s[t.used..], count - 1);
      if ts.Parsed? {
        PartsFill(t.value.bytes, ts.value.bytes, s, t.used, ts.used);
      }
    }
  }

  lemma {:induction false} KeptIffTidyList(s: seq<byte>, count: nat)
    ensures KeepsTidy(s, TidyList(s, count))
    decreases |s|, 1, count
  {
    hide Tidy, TidyList, KeepsTidy;
    if count == 0 {
      NoItems(s);
    } else {
      KeptIffTidy(s);
      if Tidy(s).Parsed? {
        KeptIffTidyList(s[Tidy(s).used..], count - 1);
      }
      KeptStep(s, count);
    }
  }

  /** Fewest length bytes in every header, and boolean bytes 0 or 1, at every depth. */
  predicate IsTidy(s: seq<byte>) {
    Tidy(s).Parsed? && Tidy(s).value.tidy
  }

  /** Re-encoding shortens over-long length fields and maps nonzero booleans to 1, and changes nothing else. */
  lemma CanonicalIsTidied(s: seq<byte>)
    requires Decoded(s).Ok?
    ensures Tidy(s).Parsed? && Canonical(s) == Tidy(s).value.bytes
    ensures Canonical(s) == s <==> IsTidy(s)
  {
    ReencodingTidies(s);
    KeptIffTidy(s);
    hide Parse, Tidy;
    assert s[..|s|] == s;
  }
}
