/** The number written after the L of a list is documented as its length; this is what the parser makes of it. */
module SmlCounts {
  import opened Outcomes
  import opened Bytes
  import opened Secs2Item
  import opened Sml
  import opened SmlTheorems

  // ----- Texts that differ in list counts only, item by item -----

  /** The same value token, or the same quoted string. */
  predicate SameValue(h: Head, s: seq<byte>, t: seq<byte>) {
    var u, v := SkipSpace(s), SkipSpace(t);
    if !h.AsciiHead? then Token(u) == Token(v)
    else if !Begins(u, QUOTE) || !Begins(v, QUOTE) then !Begins(u, QUOTE) && !Begins(v, QUOTE)
    else
      match StringEnd(u[1..])
      case None => StringEnd(v[1..]).None?
      case Some(n) => StringEnd(v[1..]) == Some(n) && u[1..n + 1] == v[1..n + 1]
  }

  predicate Begins(s: seq<byte>, b: byte) {
    s != [] && s[0] == b
  }

  /** The same tokens, braces and values in the same order, except that list tokens may differ after their L. */
  predicate SameItem(sc: Strconv, s: seq<byte>, t: seq<byte>)
    decreases |s|, 1
  {
    var u, v := SkipSpace(s), SkipSpace(t);
    if u == [] || v == [] then u == v
    else
      var a, b := Token(u), Token(v);
      if Begins(a, 0x4C) && Begins(b, 0x4C) then SameBody(sc, u[|a|..], v[|b|..])
      else a == b && (HeadOf(a).Some? ==> SameValue(HeadOf(a).value, u[|a|..], v[|b|..]))
  }

  predicate SameBody(sc: Strconv, s: seq<byte>, t: seq<byte>)
    decreases |s|, 1
  {
    var u, v := SkipSpace(s), SkipSpace(t);
    if Begins(u, OPEN) && Begins(v, OPEN) then SameChildren(sc, u[1..], v[1..]) else !Begins(u, OPEN) && !Begins(v, OPEN)
  }

  predicate SameChildren(sc: Strconv, s: seq<byte>, t: seq<byte>)
    decreases |s|, 2
  {
    var u, v := SkipSpace(s), SkipSpace(t);
    if u == [] || v == [] then u == v
    else if u[0] == CLOSE || v[0] == CLOSE then u[0] == v[0]
    else
      && SameItem(sc, u, v)
      && (ParseItem(sc, u).Ok? && ParseItem(sc, v).Ok? ==>
            SameChildren(sc, ParseItem(sc, u).value.1, ParseItem(sc, v).value.1))
  }

  /** The same result, or the same error; what is left of the texts may differ. */
  ghost predicate SameReading<T>(p: Reading<T>, q: Reading<T>) {
    if p.Err? then q == Err(p.error) else q.Ok? && q.value.0 == p.value.0
  }

  lemma SameValueRead(sc: Strconv, h: Head, s: seq<byte>, t: seq<byte>)
    requires SameValue(h, s, t)
    ensures SameReading(ParseValue(sc, h, s), ParseValue(sc, h, t))
  {
    hide SkipSpace, TokenItem;
  }

  lemma {:induction false} SameItemRead(sc: Strconv, s: seq<byte>, t: seq<byte>)
    requires SameItem(sc, s, t)
    ensures SameReading(ParseItem(sc, s), ParseItem(sc, t))
    decreases |s|, 1
  {
    var u, v := SkipSpace(s), SkipSpace(t);
    if u != [] && v != [] {
      hide SkipSpace, ParseListBody, ParseValue, SameBody, SameValue;
      var a, b := Token(u), Token(v);
      if Begins(a, 0x4C) && Begins(b, 0x4C) {
        SameBodyRead(sc, u[|a|..], v[|b|..]);
      } else if HeadOf(a).Some? {
        SameValueRead(sc, HeadOf(a).value, u[|a|..], v[|b|..]);
      }
    }
  }

  lemma {:induction false} SameBodyRead(sc: Strconv, s: seq<byte>, t: seq<byte>)
    requires SameBody(sc, s, t)
    ensures SameReading(ParseListBody(sc, s), ParseListBody(sc, t))
    decreases |s|, 1
  {
    var u, v := SkipSpace(s), SkipSpace(t);
    if Begins(u, OPEN) && Begins(v, OPEN) {
      hide SkipSpace, ParseChildren, SameChildren;
      SameChildrenRead(sc, u[1..], v[1..]);
    }
  }

  lemma {:induction false} SameChildrenRead(sc: Strconv, s: seq<byte>, t: seq<byte>)
    requires SameChildren(sc, s, t)
    ensures SameReading(ParseChildren(sc, s), ParseChildren(sc, t))
    decreases |s|, 2
  {
    var u, v := SkipSpace(s), SkipSpace(t);
    if u != [] && v != [] && u[0] != CLOSE && v[0] != CLOSE {
      hide SkipSpace, ParseItem, SameItem;
      SameItemRead(sc, u, v);
      if ParseItem(sc, u).Ok? {
        SameChildrenRead(sc, ParseItem(sc, u).value.1, ParseItem(sc, v).value.1);
      }
    }
  }

  /** Two texts that differ in list counts only, at any depth, denote the same item or give the same error. */
  lemma ListCountIsIgnored(sc: Strconv, s: seq<byte>, t: seq<byte>)
    requires SameItem(sc, s, t) && (s == [] <==> t == [])
    ensures ParseSml(sc, s) == ParseSml(sc, t)
  {
    SameItemRead(sc, s, t);
    hide ParseItem;
  }

  // ----- Such texts there are -----

  lemma {:induction false} EveryItemIsSame(sc: Strconv, s: seq<byte>)
    ensures SameItem(sc, s, s)
    decreases |s|, 1
  {
    var u := SkipSpace(s);
    if u != [] && Begins(Token(u), 0x4C) {
      EveryBodyIsSame(sc, u[|Token(u)|..]);
    }
  }

  lemma {:induction false} EveryBodyIsSame(sc: Strconv, s: seq<byte>)
    ensures SameBody(sc, s, s)
    decreases |s|, 1
  {
    var u := SkipSpace(s);
    if Begins(u, OPEN) {
      EveryChildIsSame(sc, u[1..]);
    }
  }

  lemma {:induction false} EveryChildIsSame(sc: Strconv, s: seq<byte>)
    ensures SameChildren(sc, s, s)
    decreases |s|, 2
  {
    var u := SkipSpace(s);
    if u != [] && u[0] != CLOSE {
      EveryItemIsSame(sc, u);
      if ParseItem(sc, u).Ok? {
        EveryChildIsSame(sc, ParseItem(sc, u).value.1);
      }
    }
  }

  /** Writing another count changes nothing else. */
  lemma OtherCountIsSame(sc: Strconv, s: seq<byte>, t: seq<byte>, p: seq<byte>, q: seq<byte>, rest: seq<byte>)
    requires IsSuffix(p) && IsSuffix(q) && Delimited(rest)
    requires SkipSpace(s) == [0x4C] + p + rest && SkipSpace(t) == [0x4C] + q + rest
    ensures SameItem(sc, s, t)
  {
    TokenReadBack([0x4C] + p, rest);
    TokenReadBack([0x4C] + q, rest);
    EveryBodyIsSame(sc, rest);
  }

  /** `L:3 {}` is read as the empty list. */
  lemma WrongCountIsRead(sc: Strconv)
    ensures ParseSml(sc, [0x4C, 0x3A, 0x33, SPACE, OPEN, CLOSE]) == Ok(ListItem([]))
  {
    var rest := [SPACE, OPEN, CLOSE];
    var text := [0x4C, 0x3A, 0x33, SPACE, OPEN, CLOSE];
    assert text == [0x4C] + [0x3A, 0x33] + rest;
    ListHeadIsRead(sc, text, [0x3A, 0x33], rest);
    assert rest == [SPACE] + [OPEN, CLOSE];
    SkipOneSpace([OPEN, CLOSE]);
    assert [OPEN, CLOSE][1..] == [CLOSE];
    assert ParseChildren(sc, [CLOSE]) == Ok(([], [CLOSE][1..]));
  }
}
