/** The SML notation for items (pkg/simulator/script.go): the grammar its parser accepts, on bytes. */
module Sml {
  import opened Outcomes
  import opened Bytes
  import opened Secs2Item

  const NEWLINE: byte := 0x0A
  const SPACE: byte := 0x20
  const QUOTE: byte := 0x22
  const SLASH: byte := 0x2F
  const BACKSLASH: byte := 0x5C
  const OPEN: byte := 0x7B
  const CLOSE: byte := 0x7D

  datatype SmlError =
    | EmptyInput
    | EndOfInput
    | UnknownFormat
    | UnterminatedList
    | ExpectedQuote
    | UnterminatedString
    | BadValue

  /** Number parsing, which the program leaves to strconv; `byteOf` takes the base, `number` the format wanted. */
  datatype Strconv = Strconv(byteOf: (nat, seq<byte>) -> Option<byte>, number: (NumKind, seq<byte>) -> Option<int>)

  /** Results fit the requested width, and the empty string is no number. */
  ghost predicate WellBehaved(sc: Strconv) {
    && sc.byteOf(10, []).None?
    && forall k, t :: sc.number(k, t).Some? ==> t != [] && InRange(k, sc.number(k, t).value)
  }

  // ----- Scanning -----

  predicate IsBlank(b: byte) {
    b == SPACE || b == 0x09 || b == NEWLINE || b == 0x0D
  }

  /** `unicode.IsSpace` of a single byte. */
  predicate IsSpace(b: byte) {
    0x09 <= b <= 0x0D || b == SPACE || b == 0x85 || b == 0xA0
  }

  predicate EndsToken(b: byte) {
    IsSpace(b) || b == OPEN || b == CLOSE
  }

  predicate IsComment(s: seq<byte>) {
    |s| >= 2 && s[0] == SLASH && s[1] == SLASH
  }

  function SkipLine(s: seq<byte>): (r: seq<byte>)
    ensures |r| <= |s| && (s != [] && s[0] != NEWLINE ==> |r| < |s|)
  {
    if s == [] || s[0] == NEWLINE then s else SkipLine(s[1..])
  }

  /** What is left after blanks and line comments. */
  function SkipSpace(s: seq<byte>): (r: seq<byte>)
    ensures |r| <= |s| && (r != [] ==> !IsBlank(r[0]) && !IsComment(r))
    decreases |s|
  {
    if s == [] then s
    else if IsBlank(s[0]) then SkipSpace(s[1..])
    else if IsComment(s) then SkipSpace(SkipLine(s))
    else s
  }

  function Token(s: seq<byte>): (t: seq<byte>)
    ensures t <= s && forall b | b in t :: !EndsToken(b)
  {
    if s == [] || EndsToken(s[0]) then [] else [s[0]] + Token(s[1..])
  }

  /** What follows a token without becoming part of it. */
  predicate Delimited(rest: seq<byte>) {
    rest == [] || EndsToken(rest[0])
  }

  lemma {:induction false} TokenReadBack(t: seq<byte>, rest: seq<byte>)
    requires (forall b | b in t :: !EndsToken(b)) && Delimited(rest)
    ensures Token(t + rest) == t && (t + rest)[|t|..] == rest
  {
    if t != [] {
      assert (t + rest)[1..] == t[1..] + rest;
      TokenReadBack(t[1..], rest);
    } else {
      assert t + rest == rest;
    }
  }

  /** Where the closing quote stands; a backslash hides the byte after it and stays in the string. */
  function StringEnd(s: seq<byte>): (n: Option<nat>)
    ensures n.Some? ==> n.value < |s| && s[n.value] == QUOTE
  {
    if s == [] then None
    else if s[0] == QUOTE then Some(0)
    else
      var skip := if s[0] == BACKSLASH then 2 else 1;
      if |s| < skip then None
      else
        match StringEnd(s[skip..])
        case None => None
        case Some(n) => Some(n + skip)
  }

  // ----- Items -----

  datatype Head = ListHead | AsciiHead | BinaryHead | BooleanHead | NumHead(num: NumKind)

  /** U, I or F and the width in bytes. */
  function NumName(k: NumKind): seq<byte> {
    [if Signed(k) then 0x49 else if k.F4? || k.F8? then 0x46 else 0x55, 0x30 + Width(k)]
  }

  const BOOLEAN_NAME: seq<byte> := [0x42, 0x4F, 0x4F, 0x4C, 0x45, 0x41, 0x4E]
  const TRUE_NAME: seq<byte> := [0x74, 0x72, 0x75, 0x65]
  const FALSE_NAME: seq<byte> := [0x66, 0x61, 0x6C, 0x73, 0x65]

  function HeadOf(token: seq<byte>): Option<Head> {
    if token != [] && token[0] == 0x4C then Some(ListHead)
    else if token == [0x41] then Some(AsciiHead)
    else if token == [0x42] then Some(BinaryHead)
    else if token == BOOLEAN_NAME then Some(BooleanHead)
    else if token == NumName(U1) then Some(NumHead(U1))
    else if token == NumName(U2) then Some(NumHead(U2))
    else if token == NumName(U4) then Some(NumHead(U4))
    else if token == NumName(U8) then Some(NumHead(U8))
    else if token == NumName(I1) then Some(NumHead(I1))
    else if token == NumName(I2) then Some(NumHead(I2))
    else if token == NumName(I4) then Some(NumHead(I4))
    else if token == NumName(I8) then Some(NumHead(I8))
    else if token == NumName(F4) then Some(NumHead(F4))
    else if token == NumName(F8) then Some(NumHead(F8))
    else None
  }

  function Lower(token: seq<byte>): seq<byte> {
    seq(|token|, i requires 0 <= i < |token| => if 0x41 <= token[i] <= 0x5A then token[i] + 0x20 else token[i])
  }

  predicate IsHex(token: seq<byte>) {
    |token| >= 2 && token[0] == 0x30 && (token[1] == 0x78 || token[1] == 0x58)
  }

  /** The item a value token stands for under a head other than a list or a string. */
  function TokenItem(sc: Strconv, h: Head, token: seq<byte>): Option<Item> {
    match h
    case BinaryHead =>
      var b := if IsHex(token) then sc.byteOf(16, token[2..]) else sc.byteOf(10, token);
      if b.None? then None else Some(TextItem(Binary, Some([b.value])))
    case BooleanHead =>
      if Lower(token) == TRUE_NAME then Some(BoolItem([true]))
      else if Lower(token) == FALSE_NAME then Some(BoolItem([false]))
      else None
    case NumHead(k) =>
      var v := sc.number(k, token);
      if v.None? then None else Some(NumItem(k, [v.value]))
    case _ => None
  }

  type Reading<T> = Result<(T, seq<byte>), SmlError>

  function ParseValue(sc: Strconv, h: Head, s: seq<byte>): (r: Reading<Item>)
    ensures r.Ok? ==> |r.value.1| <= |s|
  {
    var t := SkipSpace(s);
    if h.AsciiHead? then
      if t == [] || t[0] != QUOTE then Err(ExpectedQuote)
      else
        match StringEnd(t[1..])
        case None => Err(UnterminatedString)
        case Some(n) => Ok((TextItem(Ascii, Some(t[1..n + 1])), t[n + 2..]))
    else
      var token := Token(t);
      var x := TokenItem(sc, h, token);
      if x.None? then Err(BadValue) else Ok((x.value, t[|token|..]))
  }

  /** `parseItem`: the item at the front and what follows it. */
  function ParseItem(sc: Strconv, s: seq<byte>): (r: Reading<Item>)
    ensures r.Ok? ==> |r.value.1| < |s|
    decreases |s|, 1
  {
    var t := SkipSpace(s);
    if t == [] then Err(EndOfInput)
    else
      var token := Token(t);
      var rest := t[|token|..];
      match HeadOf(token)
      case None => Err(UnknownFormat)
      case Some(ListHead) => ParseListBody(sc, rest)
      case Some(h) => ParseValue(sc, h, rest)
  }

  function ParseListBody(sc: Strconv, s: seq<byte>): (r: Reading<Item>)
    ensures r.Ok? ==> |r.value.1| <= |s| && r.value.0.ListItem?
    decreases |s|, 1
  {
    var t := SkipSpace(s);
    if t == [] || t[0] != OPEN then Ok((ListItem([]), t))
    else
      match ParseChildren(sc, t[1..])
      case Err(e) => Err(e)
      case Ok((items, rest)) => Ok((ListItem(items), rest))
  }

  function ParseChildren(sc: Strconv, s: seq<byte>): (r: Reading<seq<Item>>)
    ensures r.Ok? ==> |r.value.1| + |r.value.0| < |s|
    decreases |s|, 2
  {
    var t := SkipSpace(s);
    if t == [] then Err(UnterminatedList)
    else if t[0] == CLOSE then Ok(([], t[1..]))
    else
      match ParseItem(sc, t)
      case Err(e) => Err(e)
      case Ok((x, rest)) =>
        match ParseChildren(sc, rest)
        case Err(e) => Err(e)
        case Ok((xs, end)) => Ok(([x] + xs, end))
  }

  /** `ParseSML` on trimmed text; what follows the item is ignored. */
  function ParseSml(sc: Strconv, text: seq<byte>): Result<Item, SmlError> {
    if text == [] then Err(EmptyInput)
    else
      match ParseItem(sc, text)
      case Err(e) => Err(e)
      case Ok((x, _)) => Ok(x)
  }
}
