/** The words and characters of SML as they are written. */
module SmlNames {
  import opened Outcomes
  import opened Bytes
  import opened Secs2Item
  import opened Sml

  predicate IsAscii(s: string) {
    forall i | 0 <= i < |s| :: s[i] as int < 128
  }

  function CharByte(c: char): byte
    requires c as int < 128
  {
    c as int
  }

  function Written(s: string): (t: seq<byte>)
    requires IsAscii(s)
    ensures |t| == |s| && forall i | 0 <= i < |s| :: t[i] == s[i] as int
  {
    if s == "" then [] else [CharByte(s[0])] + Written(s[1..])
  }

  /** U, I or F and the number of bytes. */
  function NumberWord(k: NumKind): string {
    match k
    case U1 => "U1"
    case U2 => "U2"
    case U4 => "U4"
    case U8 => "U8"
    case I1 => "I1"
    case I2 => "I2"
    case I4 => "I4"
    case I8 => "I8"
    case F4 => "F4"
    case F8 => "F8"
  }

  lemma NumberWordIsName(k: NumKind)
    ensures IsAscii(NumberWord(k)) && Written(NumberWord(k)) == NumName(k)
  {
  }

  lemma NamesAreHeads(k: NumKind)
    ensures HeadOf(NumName(k)) == Some(NumHead(k))
  {
  }

  /** The words of the number formats. */
  lemma NumberWords(k: NumKind)
    ensures IsAscii(NumberWord(k)) && HeadOf(Written(NumberWord(k))) == Some(NumHead(k))
  {
    NumberWordIsName(k);
    NamesAreHeads(k);
    hide Written, NumberWord, HeadOf;
  }

  /** The words of the other formats. */
  lemma OtherWords()
    ensures HeadOf(Written("A")) == Some(AsciiHead) && HeadOf(Written("B")) == Some(BinaryHead)
    ensures HeadOf(Written("BOOLEAN")) == Some(BooleanHead)
  {
    assert Written("A") == [0x41] && Written("B") == [0x42] && Written("BOOLEAN") == BOOLEAN_NAME;
    hide Written;
  }

  /** Any word that begins with L begins a list. */
  lemma ListWords(t: seq<byte>)
    ensures HeadOf(t) == Some(ListHead) <==> t != [] && t[0] == 'L' as int
  {
  }

  lemma Word2(s: string, a: char, b: char)
    requires s == [a, b] && a as int < 128 && b as int < 128
    ensures Written(s) == [a as int, b as int]
  {
  }

  /** Booleans in any mixture of cases, and nothing else. */
  lemma BooleanWords(sc: Strconv, t: seq<byte>)
    ensures TokenItem(sc, BooleanHead, t) == Some(BoolItem([true])) <==> Lower(t) == Written("true")
    ensures TokenItem(sc, BooleanHead, t) == Some(BoolItem([false])) <==> Lower(t) == Written("false")
    ensures TokenItem(sc, BooleanHead, t).Some? ==> Lower(t) == Written("true") || Lower(t) == Written("false")
  {
    assert Written("true") == TRUE_NAME && Written("false") == FALSE_NAME;
    assert TRUE_NAME != FALSE_NAME by { assert |TRUE_NAME| != |FALSE_NAME|; }
  }

  /** Numbers are parsed for the format named, and bytes in base 16 after 0x or 0X, in base 10 otherwise. */
  lemma ValueTokens(sc: Strconv, k: NumKind, t: seq<byte>)
    ensures TokenItem(sc, NumHead(k), t) == match sc.number(k, t) case None => None case Some(v) => Some(NumItem(k, [v]))
    ensures TokenItem(sc, BinaryHead, Written("0x") + t) == match sc.byteOf(16, t) case None => None case Some(b) => Some(TextItem(Binary, Some([b])))
    ensures TokenItem(sc, BinaryHead, Written("0X") + t) == match sc.byteOf(16, t) case None => None case Some(b) => Some(TextItem(Binary, Some([b])))
    ensures t == [] || t[0] != '0' as int ==>
              TokenItem(sc, BinaryHead, t) == match sc.byteOf(10, t) case None => None case Some(b) => Some(TextItem(Binary, Some([b])))
  {
    assert (Written("0x") + t)[2..] == t && (Written("0X") + t)[2..] == t;
  }

  /** Blanks, token ends and comments. */
  lemma Characters(b: byte, s: seq<byte>)
    ensures IsBlank(b) <==> b == ' ' as int || b == 9 || b == 10 || b == 13
    ensures EndsToken(b) <==> b == ' ' as int || 9 <= b <= 13 || b == 0x85 || b == 0xA0 || b == '{' as int || b == '}' as int
    ensures IsComment(s) <==> Written("//") <= s
    ensures QUOTE == 34 && BACKSLASH == 92 && OPEN == '{' as int && CLOSE == '}' as int && NEWLINE == 10
  {
    Word2("//", '/', '/');
  }

  // ----- Blanks, comments and ill-formed texts -----

  lemma {:induction false} LineIsSkipped(line: seq<byte>, rest: seq<byte>)
    requires 10 !in line && (rest == [] || rest[0] == 10)
    ensures SkipLine(line + rest) == rest
  {
    if line == [] {
      assert line + rest == rest;
    } else {
      assert (line + rest)[1..] == line[1..] + rest;
      LineIsSkipped(line[1..], rest);
    }
  }

  /** A blank before an item, and a comment up to the end of its line, make no difference. */
  lemma GapsAreSkipped(sc: Strconv, b: byte, line: seq<byte>, s: seq<byte>)
    requires b in {9, 10, 13, 32} && 10 !in line && (s == [] || s[0] == 10)
    ensures SkipSpace([b] + s) == SkipSpace(s)
    ensures SkipSpace(Written("//") + line + s) == SkipSpace(s)
  {
    assert ([b] + s)[1..] == s;
    var text := Written("//") + line + s;
    assert text == (Written("//") + line) + s && IsComment(text);
    LineIsSkipped(Written("//") + line, s);
  }

  /** A list without braces is empty; one without its closing brace, a string without its closing quote, is an error. */
  lemma IllFormedTexts(sc: Strconv, s: seq<byte>)
    ensures SkipSpace(s) == [] || SkipSpace(s)[0] != '{' as int ==> ParseListBody(sc, s) == Ok((ListItem([]), SkipSpace(s)))
    ensures SkipSpace(s) == [] ==> ParseChildren(sc, s) == Err(UnterminatedList) && ParseItem(sc, s) == Err(EndOfInput)
    ensures SkipSpace(s) != [] && SkipSpace(s)[0] == '}' as int ==> ParseChildren(sc, s) == Ok(([], SkipSpace(s)[1..]))
    ensures SkipSpace(s) == [] || SkipSpace(s)[0] != 34 ==> ParseValue(sc, AsciiHead, s) == Err(ExpectedQuote)
    ensures s != [] && 34 !in s[1..] && SkipSpace(s) == s && s[0] == 34 ==> ParseValue(sc, AsciiHead, s) == Err(UnterminatedString)
    ensures SkipSpace(s) != [] && HeadOf(Token(SkipSpace(s))).None? ==> ParseItem(sc, s) == Err(UnknownFormat)
  {
    hide SkipSpace, HeadOf;
    if s != [] && 34 !in s[1..] {
      NoQuoteNoEnd(s[1..]);
    }
  }

  lemma NoQuoteNoEnd(s: seq<byte>)
    requires 34 !in s
    ensures StringEnd(s) == None
  {
  }
}
