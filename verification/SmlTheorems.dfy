/** What SML texts denote: exactly the expressible items, each of which survives the wire. */
module SmlTheorems {
  import opened Outcomes
  import opened Bytes
  import opened Secs2Item
  import opened Secs2Encode
  import opened Secs2Decode
  import opened Secs2Codec
  import opened Sml

  // ----- Parsed items fit the wire -----

  lemma {:induction false} ParsedFits(sc: Strconv, s: seq<byte>)
    requires WellBehaved(sc) && |s| <= MAX_LENGTH && ParseItem(sc, s).Ok?
    ensures Typed(ParseItem(sc, s).value.0) && Fits(ParseItem(sc, s).value.0)
    decreases |s|, 1
  {
    var t := SkipSpace(s);
    var token := Token(t);
    var rest := t[|token|..];
    if HeadOf(token) == Some(ListHead) {
      var u := SkipSpace(rest);
      if u != [] && u[0] == OPEN {
        ChildrenFit(sc, u[1..]);
      }
    } else {
      LeafFits(sc, HeadOf(token).value, rest);
    }
  }

  lemma LeafFits(sc: Strconv, h: Head, s: seq<byte>)
    requires WellBehaved(sc) && |s| <= MAX_LENGTH && ParseValue(sc, h, s).Ok?
    ensures Typed(ParseValue(sc, h, s).value.0) && Fits(ParseValue(sc, h, s).value.0)
  {
  }

  lemma {:induction false} ChildrenFit(sc: Strconv, s: seq<byte>)
    requires WellBehaved(sc) && |s| <= MAX_LENGTH && ParseChildren(sc, s).Ok?
    ensures |ParseChildren(sc, s).value.0| <= MAX_LENGTH
    ensures forall x | x in ParseChildren(sc, s).value.0 :: Typed(x) && Fits(x)
    decreases |s|, 2
  {
    var t := SkipSpace(s);
    if t[0] != CLOSE {
      ParsedFits(sc, t);
      ChildrenFit(sc, ParseItem(sc, t).value.1);
    }
  }

  /** Whatever a text of at most 0xFFFFFF bytes denotes is encoded and decoded back, up to empty text slots. */
  lemma ParsedSurvivesTheWire(sc: Strconv, text: seq<byte>)
    requires WellBehaved(sc) && |text| <= MAX_LENGTH && ParseSml(sc, text).Ok?
    ensures
      var x := ParseSml(sc, text).value;
      Fits(x) && Decoded(Wire(x)) == Ok(Norm(x))
  {
    ParsedFits(sc, text);
    RoundTrip(ParseSml(sc, text).value);
  }

  // ----- Which items SML can express -----

  /** Escapes are in order: no bare quote, no backslash at the end. */
  predicate Quotable(q: seq<byte>) {
    if q == [] then true
    else if q[0] == QUOTE then false
    else if q[0] == BACKSLASH then |q| >= 2 && Quotable(q[2..])
    else Quotable(q[1..])
  }

  predicate IsToken(t: seq<byte>) {
    t != [] && !IsComment(t) && forall b | b in t :: !EndsToken(b)
  }

  predicate Denotes(sc: Strconv, t: seq<byte>, x: Item) {
    IsToken(t) && !x.ListItem? && TokenItem(sc, HeadFor(x), t) == Some(x)
  }

  function HeadFor(x: Item): Head
    requires !x.ListItem?
  {
    match x
    case TextItem(Ascii, _) => AsciiHead
    case TextItem(Binary, _) => BinaryHead
    case BoolItem(_) => BooleanHead
    case NumItem(k, _) => NumHead(k)
  }

  /** Lists of expressible items, strings with their escapes in order, and single values with a token for them. */
  ghost predicate Expressible(sc: Strconv, x: Item) {
    match x
    case ListItem(items) => forall c | c in items :: Expressible(sc, c)
    case TextItem(Ascii, slot) => slot.Some? && Quotable(slot.value)
    case _ => exists t :: Denotes(sc, t, x)
  }

  lemma {:induction false} StringIsQuotable(s: seq<byte>)
    requires StringEnd(s).Some?
    ensures Quotable(s[..StringEnd(s).value])
  {
    var n := StringEnd(s).value;
    if n > 0 {
      var skip := if s[0] == BACKSLASH then 2 else 1;
      StringIsQuotable(s[skip..]);
      assert s[..n][skip..] == s[skip..][..n - skip];
    }
  }

  lemma TokenIsToken(t: seq<byte>)
    requires Token(t) != [] && !IsComment(t)
    ensures IsToken(Token(t))
  {
  }

  lemma TokenItemsHaveTokens(sc: Strconv, h: Head, t: seq<byte>)
    requires WellBehaved(sc) && TokenItem(sc, h, t).Some?
    ensures t != [] && !h.ListHead? && !h.AsciiHead?
    ensures !TokenItem(sc, h, t).value.ListItem? && HeadFor(TokenItem(sc, h, t).value) == h
  {
  }

  lemma LeafIsExpressible(sc: Strconv, h: Head, s: seq<byte>)
    requires WellBehaved(sc) && ParseValue(sc, h, s).Ok?
    ensures Expressible(sc, ParseValue(sc, h, s).value.0)
  {
    var t, x := SkipSpace(s), ParseValue(sc, h, s).value.0;
    if h.AsciiHead? {
      StringIsQuotable(t[1..]);
      assert t[1..][..StringEnd(t[1..]).value] == t[1..StringEnd(t[1..]).value + 1];
    } else {
      TokenItemsHaveTokens(sc, h, Token(t));
      TokenIsToken(t);
      assert Denotes(sc, Token(t), x);
    }
  }

  lemma {:induction false} ParsedIsExpressible(sc: Strconv, s: seq<byte>)
    requires WellBehaved(sc) && ParseItem(sc, s).Ok?
    ensures Expressible(sc, ParseItem(sc, s).value.0)
    decreases |s|, 1
  {
    var t := SkipSpace(s);
    var token := Token(t);
    var rest := t[|token|..];
    if HeadOf(token) == Some(ListHead) {
      var u := SkipSpace(rest);
      if u != [] && u[0] == OPEN {
        ChildrenAreExpressible(sc, u[1..]);
      }
    } else {
      LeafIsExpressible(sc, HeadOf(token).value, rest);
    }
  }

  lemma {:induction false} ChildrenAreExpressible(sc: Strconv, s: seq<byte>)
    requires WellBehaved(sc) && ParseChildren(sc, s).Ok?
    ensures forall c | c in ParseChildren(sc, s).value.0 :: Expressible(sc, c)
    decreases |s|, 2
  {
    var t := SkipSpace(s);
    if t[0] != CLOSE {
      ParsedIsExpressible(sc, t);
      ChildrenAreExpressible(sc, ParseItem(sc, t).value.1);
    }
  }

  // ----- A text for every expressible item -----

  function HeadName(h: Head): seq<byte> {
    match h
    case ListHead => [0x4C]
    case AsciiHead => [0x41]
    case BinaryHead => [0x42]
    case BooleanHead => BOOLEAN_NAME
    case NumHead(k) => NumName(k)
  }

  ghost function LeafText(sc: Strconv, x: Item): seq<byte>
    requires !x.ListItem? && Expressible(sc, x)
  {
    if x.TextItem? && x.text.Ascii? then [QUOTE] + x.slot.value + [QUOTE]
    else
      var t :| Denotes(sc, t, x);
      t
  }

  /** The suffix is what may follow the L, such as `:2`. */
  ghost function Render(sc: Strconv, suffix: seq<byte>, x: Item): seq<byte>
    requires Expressible(sc, x)
    decreases x, 1
  {
    if x.ListItem? then [0x4C] + suffix + [SPACE, OPEN] + RenderAll(sc, suffix, x.items) + [CLOSE]
    else HeadName(HeadFor(x)) + [SPACE] + LeafText(sc, x)
  }

  ghost function RenderAll(sc: Strconv, suffix: seq<byte>, xs: seq<Item>): seq<byte>
    requires forall x | x in xs :: Expressible(sc, x)
    decreases xs, 0
  {
    if xs == [] then [] else Render(sc, suffix, xs[0]) + [SPACE] + RenderAll(sc, suffix, xs[1..])
  }

  predicate IsSuffix(suffix: seq<byte>) {
    forall b | b in suffix :: !EndsToken(b)
  }

  lemma {:induction false} StringReadBack(q: seq<byte>, rest: seq<byte>)
    requires Quotable(q)
    ensures StringEnd(q + [QUOTE] + rest) == Some(|q|)
  {
    var s := q + [QUOTE] + rest;
    if q != [] {
      var skip := if q[0] == BACKSLASH then 2 else 1;
      assert s[skip..] == q[skip..] + [QUOTE] + rest;
      StringReadBack(q[skip..], rest);
    }
  }

  lemma SkipOneSpace(s: seq<byte>)
    ensures SkipSpace([SPACE] + s) == SkipSpace(s)
  {
    assert ([SPACE] + s)[1..] == s;
  }

  lemma HeadReadBack(h: Head)
    ensures HeadOf(HeadName(h)) == Some(h) && IsToken(HeadName(h)) && !IsBlank(HeadName(h)[0])
    ensures HeadName(h)[0] != CLOSE && HeadName(h)[0] != SLASH
  {
  }

  lemma QuotedReadBack(sc: Strconv, q: seq<byte>, rest: seq<byte>)
    requires Quotable(q)
    ensures ParseValue(sc, AsciiHead, [SPACE] + ([QUOTE] + q + [QUOTE] + rest)) == Ok((TextItem(Ascii, Some(q)), rest))
  {
    var text := [QUOTE] + q + [QUOTE] + rest;
    SkipOneSpace(text);
    assert text[1..] == q + [QUOTE] + rest;
    StringReadBack(q, rest);
    assert text[1..|q| + 1] == q && text[|q| + 2..] == rest;
  }

  lemma TokenItemReadBack(sc: Strconv, x: Item, t: seq<byte>, rest: seq<byte>)
    requires Denotes(sc, t, x) && Delimited(rest)
    ensures ParseValue(sc, HeadFor(x), [SPACE] + (t + rest)) == Ok((x, rest))
  {
    hide TokenItem;
    SkipOneSpace(t + rest);
    TokenReadBack(t, rest);
    assert !IsBlank(t[0]) && !IsComment(t + rest);
    AsciiHasNoToken(sc, t);
  }

  lemma AsciiHasNoToken(sc: Strconv, t: seq<byte>)
    ensures TokenItem(sc, AsciiHead, t) == None
  {
  }

  lemma ValueTextReadBack(sc: Strconv, x: Item, rest: seq<byte>)
    requires !x.ListItem? && Expressible(sc, x) && Delimited(rest)
    ensures ParseValue(sc, HeadFor(x), [SPACE] + (LeafText(sc, x) + rest)) == Ok((x, rest))
  {
    hide ParseValue, Denotes;
    var text := LeafText(sc, x);
    if x.TextItem? && x.text.Ascii? {
      QuotedReadBack(sc, x.slot.value, rest);
    } else {
      TokenItemReadBack(sc, x, text, rest);
    }
  }

  /** Reading a head token followed by a space. */
  lemma HeadIsRead(token: seq<byte>, s: seq<byte>)
    requires IsToken(token)
    ensures
      var text := token + ([SPACE] + s);
      SkipSpace(text) == text && Token(text) == token && text[|token|..] == [SPACE] + s
  {
    var text := token + ([SPACE] + s);
    TokenReadBack(token, [SPACE] + s);
    assert !IsBlank(text[0]) && !IsComment(text);
  }

  lemma ListIsRead(sc: Strconv, suffix: seq<byte>, body: seq<byte>)
    requires IsSuffix(suffix) && ParseChildren(sc, body).Ok?
    ensures
      var (items, rest) := ParseChildren(sc, body).value;
      ParseItem(sc, [0x4C] + suffix + ([SPACE] + ([OPEN] + body))) == Ok((ListItem(items), rest))
  {
    hide ParseChildren;
    HeadIsRead([0x4C] + suffix, [OPEN] + body);
    SkipOneSpace([OPEN] + body);
    assert ([OPEN] + body)[1..] == body;
  }

  lemma ValueIsRead(sc: Strconv, h: Head, s: seq<byte>)
    requires !h.ListHead? && ParseValue(sc, h, [SPACE] + s).Ok?
    ensures ParseItem(sc, HeadName(h) + ([SPACE] + s)) == ParseValue(sc, h, [SPACE] + s)
  {
    hide ParseValue, HeadOf, HeadName;
    HeadReadBack(h);
    HeadIsRead(HeadName(h), s);
  }

  lemma {:induction false} RenderReadBack(sc: Strconv, suffix: seq<byte>, x: Item, rest: seq<byte>)
    requires Expressible(sc, x) && IsSuffix(suffix) && Delimited(rest)
    ensures ParseItem(sc, Render(sc, suffix, x) + rest) == Ok((x, rest))
    decreases x, 1
  {
    hide ParseItem, ParseValue, HeadName, LeafText;
    if x.ListItem? {
      var body := RenderAll(sc, suffix, x.items) + [CLOSE] + rest;
      RenderAllReadBack(sc, suffix, x.items, rest);
      ListIsRead(sc, suffix, body);
      assert Render(sc, suffix, x) + rest == [0x4C] + suffix + ([SPACE] + ([OPEN] + body));
    } else {
      var h := HeadFor(x);
      ValueTextReadBack(sc, x, rest);
      ValueIsRead(sc, h, LeafText(sc, x) + rest);
      assert Render(sc, suffix, x) + rest == HeadName(h) + ([SPACE] + (LeafText(sc, x) + rest));
    }
  }

  lemma {:induction false} RenderAllReadBack(sc: Strconv, suffix: seq<byte>, xs: seq<Item>, rest: seq<byte>)
    requires (forall x | x in xs :: Expressible(sc, x)) && IsSuffix(suffix)
    ensures ParseChildren(sc, RenderAll(sc, suffix, xs) + [CLOSE] + rest) == Ok((xs, rest))
    decreases xs, 0
  {
    var text := RenderAll(sc, suffix, xs) + [CLOSE] + rest;
    if xs == [] {
      assert text == [CLOSE] + rest && text[1..] == rest;
    } else {
      var after := [SPACE] + (RenderAll(sc, suffix, xs[1..]) + [CLOSE] + rest);
      assert text == Render(sc, suffix, xs[0]) + after;
      RenderReadBack(sc, suffix, xs[0], after);
      RenderStarts(sc, suffix, xs[0], after);
      RenderAllReadBack(sc, suffix, xs[1..], rest);
      SpaceBeforeChildren(sc, RenderAll(sc, suffix, xs[1..]) + [CLOSE] + rest);
      assert [xs[0]] + xs[1..] == xs;
    }
  }

  lemma RenderStarts(sc: Strconv, suffix: seq<byte>, x: Item, rest: seq<byte>)
    requires Expressible(sc, x)
    ensures
      var text := Render(sc, suffix, x) + rest;
      SkipSpace(text) == text && text != [] && text[0] != CLOSE
  {
  }

  lemma SpaceBeforeChildren(sc: Strconv, s: seq<byte>)
    ensures ParseChildren(sc, [SPACE] + s) == ParseChildren(sc, s)
  {
    SkipOneSpace(s);
  }

  /** The items that texts denote are exactly the expressible ones. */
  lemma DenotedIffExpressible(sc: Strconv, x: Item)
    requires WellBehaved(sc)
    ensures (exists text :: ParseSml(sc, text) == Ok(x)) <==> Expressible(sc, x)
  {
    if text :| ParseSml(sc, text) == Ok(x) {
      ParsedIsExpressible(sc, text);
    }
    if Expressible(sc, x) {
      var text := Render(sc, [], x);
      RenderReadBack(sc, [], x, []);
      assert text + [] == text;
      assert ParseSml(sc, text) == Ok(x);
    }
  }

  /** At any place in any text, a list is what follows its first token, whatever stands there after the L. */
  lemma ListHeadIsRead(sc: Strconv, s: seq<byte>, suffix: seq<byte>, rest: seq<byte>)
    requires IsSuffix(suffix) && Delimited(rest) && SkipSpace(s) == [0x4C] + suffix + rest
    ensures ParseItem(sc, s) == ParseListBody(sc, rest)
  {
    TokenReadBack([0x4C] + suffix, rest);
  }
}
