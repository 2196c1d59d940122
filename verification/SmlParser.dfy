/** The SML parser as an object (pkg/simulator/script.go): a position moved along the input by every method. */
module SmlParser {
  import opened Outcomes
  import opened Bytes
  import opened Secs2Item
  import S = Sml

  /** What a parse method leaves: on success the item read and the position behind it. */
  ghost predicate Reads<T>(want: S.Reading<T>, got: Result<T, S.SmlError>, input: seq<byte>, pos: nat) {
    match want
    case Err(e) => got == Err(e)
    case Ok((x, rest)) => got == Ok(x) && pos <= |input| && input[pos..] == rest
  }

  /** The position of the quote that closes a string read from `pos` on. */
  function QuoteAt(input: seq<byte>, pos: nat): Option<nat> {
    if pos > |input| then None
    else
      match S.StringEnd(input[pos..])
      case None => None
      case Some(n) => Some(pos + n)
  }

  lemma QuoteMoves(input: seq<byte>, pos: nat)
    requires pos < |input| && input[pos] != S.QUOTE
    ensures QuoteAt(input, pos) == QuoteAt(input, pos + if input[pos] == S.BACKSLASH then 2 else 1)
  {
    var skip := if input[pos] == S.BACKSLASH then 2 else 1;
    if pos + skip <= |input| {
      assert input[pos..][skip..] == input[pos + skip..];
    }
  }

  class Parser {
    const input: seq<byte>
    const sc: S.Strconv
    var pos: nat

    constructor (input: seq<byte>, sc: S.Strconv)
      ensures this.input == input && this.sc == sc && pos == 0
    {
      this.input, this.sc, pos := input, sc, 0;
    }

    ghost function Rest(): seq<byte>
      requires pos <= |input|
      reads this
    {
      input[pos..]
    }

    method SkipLine()
      requires pos <= |input|
      modifies this
      ensures old(pos) <= pos <= |input| && Rest() == S.SkipLine(old(Rest()))
    {
      while pos < |input| && input[pos] != S.NEWLINE
        invariant old(pos) <= pos <= |input| && S.SkipLine(Rest()) == S.SkipLine(old(Rest()))
      {
        assert input[pos..][1..] == input[pos + 1..];
        pos := pos + 1;
      }
    }

    method SkipSpace()
      requires pos <= |input|
      modifies this
      ensures old(pos) <= pos <= |input| && Rest() == S.SkipSpace(old(Rest()))
    {
      while pos < |input|
        invariant old(pos) <= pos <= |input| && S.SkipSpace(Rest()) == S.SkipSpace(old(Rest()))
        decreases |input| - pos
      {
        var ch := input[pos];
        if S.IsBlank(ch) {
          assert input[pos..][1..] == input[pos + 1..];
          pos := pos + 1;
        } else if ch == S.SLASH && pos + 1 < |input| && input[pos + 1] == S.SLASH {
          assert S.IsComment(Rest());
          SkipLine();
        } else {
          break;
        }
      }
    }

    /** `peek`: 0 at the end of the input. */
    method Peek() returns (b: byte)
      ensures b == if pos < |input| then input[pos] else 0
    {
      if pos >= |input| {
        return 0;
      }
      b := input[pos];
    }

    method ReadToken() returns (token: seq<byte>)
      requires pos <= |input|
      modifies this
      ensures old(pos) <= pos <= |input|
      ensures
        var t := S.SkipSpace(old(Rest()));
        token == S.Token(t) && Rest() == t[|token|..]
    {
      SkipSpace();
      ghost var t := Rest();
      var start := pos;
      while pos < |input| && !S.EndsToken(input[pos])
        invariant start <= pos <= |input| && forall b | b in input[start..pos] :: !S.EndsToken(b)
      {
        assert input[start..pos + 1] == input[start..pos] + [input[pos]];
        pos := pos + 1;
      }
      token := input[start..pos];
      assert t == token + Rest();
      S.TokenReadBack(token, Rest());
    }

    /** Moves to the closing quote; past the end when there is none. */
    method ScanString()
      requires pos <= |input|
      modifies this
      ensures pos < |input| ==> QuoteAt(input, old(pos)) == Some(pos)
      ensures pos >= |input| ==> QuoteAt(input, old(pos)) == None
    {
      while pos < |input| && input[pos] != S.QUOTE
        invariant old(pos) <= pos && QuoteAt(input, pos) == QuoteAt(input, old(pos))
        decreases |input| + 2 - pos
      {
        QuoteMoves(input, pos);
        if input[pos] == S.BACKSLASH {
          pos := pos + 1;
        }
        pos := pos + 1;
      }
    }

    method ParseAscii() returns (r: Result<Item, S.SmlError>)
      requires pos <= |input|
      modifies this
      ensures Reads(S.ParseValue(sc, S.AsciiHead, old(Rest())), r, input, pos)
    {
      SkipSpace();
      ghost var t := Rest();
      var ch := Peek();
      if ch != S.QUOTE {
        return Err(S.ExpectedQuote);
      }
      pos := pos + 1;
      assert Rest() == t[1..];
      var start := pos;
      ScanString();
      if pos >= |input| {
        return Err(S.UnterminatedString);
      }
      var s := input[start..pos];
      pos := pos + 1;
      assert s == t[1..pos - start] && Rest() == t[pos - start + 1..];
      r := Ok(TextItem(Ascii, Some(s)));
    }

    /** `parseBinary`, `parseBoolean`, `parseUint`, `parseInt` and `parseFloat`: one token, converted. */
    method ParseTokenValue(h: S.Head) returns (r: Result<Item, S.SmlError>)
      requires pos <= |input| && !h.AsciiHead?
      modifies this
      ensures Reads(S.ParseValue(sc, h, old(Rest())), r, input, pos)
    {
      var token := ReadToken();
      var x := S.TokenItem(sc, h, token);
      r := if x.None? then Err(S.BadValue) else Ok(x.value);
    }

    method ParseList() returns (r: Result<Item, S.SmlError>)
      requires pos <= |input|
      modifies this
      ensures Reads(S.ParseListBody(sc, old(Rest())), r, input, pos)
      decreases |input| - pos, 1
    {
      SkipSpace();
      ghost var t := Rest();
      var ch := Peek();
      if ch != S.OPEN {
        return Ok(ListItem([]));
      }
      pos := pos + 1;
      assert Rest() == t[1..];
      var children := ParseChildren();
      r := if children.Err? then Err(children.error) else Ok(ListItem(children.value));
    }

    /** The loop of `parseList` up to the closing brace. */
    method ParseChildren() returns (r: Result<seq<Item>, S.SmlError>)
      requires pos <= |input|
      modifies this
      ensures Reads(S.ParseChildren(sc, old(Rest())), r, input, pos)
      decreases |input| - pos, 3
    {
      hide S.ParseChildren, S.ParseItem, S.SkipSpace;
      ghost var body := S.ParseChildren(sc, Rest());
      var children: seq<Item> := [];
      assert body.Ok? ==> [] + body.value.0 == body.value.0;
      while true
        invariant old(pos) <= pos <= |input|
        invariant Continues(body, children, S.ParseChildren(sc, Rest()))
        decreases |input| - pos
      {
        ghost var s := Rest();
        SkipSpace();
        ChildrenStep(sc, s, body, children);
        if pos >= |input| {
          return Err(S.UnterminatedList);
        }
        var ch := Peek();
        if ch == S.CLOSE {
          assert Rest()[1..] == input[pos + 1..];
          pos := pos + 1;
          return Ok(children);
        }
        var child := ParseItem();
        if child.Err? {
          return Err(child.error);
        }
        children := children + [child.value];
      }
    }

    method ParseItem() returns (r: Result<Item, S.SmlError>)
      requires pos <= |input|
      modifies this
      ensures Reads(S.ParseItem(sc, old(Rest())), r, input, pos)
      ensures r.Ok? ==> old(pos) < pos
      decreases |input| - pos, 2
    {
      ghost var before := Rest();
      SkipSpace();
      if pos >= |input| {
        return Err(S.EndOfInput);
      }
      SkipTwice(before);
      var token := ReadToken();
      match S.HeadOf(token) {
        case None => r := Err(S.UnknownFormat);
        case Some(ListHead) => r := ParseList();
        case Some(AsciiHead) => r := ParseAscii();
        case Some(h) => r := ParseTokenValue(h);
      }
    }
  }

  /** The children read so far and those still to come make up the whole list. */
  ghost predicate Continues(all: S.Reading<seq<Item>>, done: seq<Item>, rest: S.Reading<seq<Item>>) {
    match rest
    case Err(e) => all == Err(e)
    case Ok((xs, end)) => all == Ok((done + xs, end))
  }

  /** One turn of the loop: the end of the input, the closing brace, or one more child. */
  lemma ChildrenStep(sc: S.Strconv, s: seq<byte>, all: S.Reading<seq<Item>>, done: seq<Item>)
    requires Continues(all, done, S.ParseChildren(sc, s))
    ensures
      var t := S.SkipSpace(s);
      && (t == [] ==> all == Err(S.UnterminatedList))
      && (t != [] && t[0] == S.CLOSE ==> all == Ok((done, t[1..])))
      && (t != [] && t[0] != S.CLOSE ==>
            var item := S.ParseItem(sc, t);
            && (item.Err? ==> all == Err(item.error))
            && (item.Ok? ==> Continues(all, done + [item.value.0], S.ParseChildren(sc, item.value.1))))
  {
    var t := S.SkipSpace(s);
    assert done + [] == done;
    if t != [] && t[0] != S.CLOSE && S.ParseItem(sc, t).Ok? {
      var (x, rest) := S.ParseItem(sc, t).value;
      if S.ParseChildren(sc, rest).Ok? {
        var xs := S.ParseChildren(sc, rest).value.0;
        assert done + ([x] + xs) == done + [x] + xs;
      }
    }
  }

  lemma SkipTwice(s: seq<byte>)
    ensures S.SkipSpace(S.SkipSpace(s)) == S.SkipSpace(s)
  {
  }

  /** `ParseSML` on trimmed text. */
  method ParseSml(text: seq<byte>, sc: S.Strconv) returns (r: Result<Item, S.SmlError>)
    ensures r == S.ParseSml(sc, text)
  {
    if |text| == 0 {
      return Err(S.EmptyInput);
    }
    var p := new Parser(text, sc);
    r := p.ParseItem();
  }
}
