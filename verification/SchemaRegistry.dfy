/** The default message schemas and `ValidateMessage` (pkg/validator/schema.go). */
module SchemaRegistry {
  import opened Outcomes
  import opened Bytes
  import opened Secs2Item
  import opened SchemaValidator

  /** A registered message; without a body schema no body is expected. */
  datatype MessageSchema = MessageSchema(body: Option<Schema>)

  function ListOf(name: string, minLen: int, maxLen: int, children: seq<Schema>): Schema {
    Schema(ListFormat, name, minLen, maxLen, children, [], false)
  }

  function AsciiField(name: string, minLen: int, optional: bool): Schema {
    Schema(TextFormat(Ascii), name, minLen, -1, [], [], optional)
  }

  /** One byte out of a set; an empty set allows every byte. */
  function ByteField(name: string, allowed: seq<byte>): Schema {
    Schema(TextFormat(Binary), name, 1, 1, [], allowed, false)
  }

  function U4Field(name: string): Schema {
    Schema(NumFormat(U4), name, 1, 1, [], [], false)
  }

  /** `DefaultRegistry`, as the lookup `Get` sees it. */
  function Expected(stream: byte, function_: byte): Option<MessageSchema> {
    match Body(stream, function_)
    case Some(s) => Some(MessageSchema(Some(s)))
    case None =>
      if (stream, function_) in BODILESS then Some(MessageSchema(None)) else None
  }

  const BODILESS: set<(byte, byte)> :=
    {(1, 1), (1, 3), (1, 11), (1, 13), (1, 15), (1, 17), (2, 13), (2, 29), (5, 5), (5, 7)}

  function Body(stream: byte, function_: byte): Option<Schema> {
    if stream == 1 then Body1(function_)
    else if stream == 2 then Body2(function_)
    else if stream == 3 then
      if function_ == 17 then Some(ListOf("S3F17", 3, -1, []))
      else if function_ == 18 then Some(ListOf("S3F18", 2, 2, []))
      else None
    else if stream == 5 then Body5(function_)
    else if stream == 6 then
      if function_ == 11 then
        Some(ListOf("S6F11", 3, 3, [U4Field("DATAID"), U4Field("CEID"), ListOf("RPT_LIST", 0, -1, [])]))
      else if function_ == 12 then Some(ByteField("ACKC6", [0, 1]))
      else None
    else if stream == 16 then
      if function_ == 11 then Some(ListOf("S16F11", 3, -1, []))
      else if function_ == 12 then Some(ListOf("S16F12", 2, 2, []))
      else if function_ == 15 then Some(ListOf("S16F15", 2, 2, []))
      else if function_ == 16 then Some(ListOf("S16F16", 2, 2, []))
      else None
    else None
  }

  function Body1(function_: byte): Option<Schema> {
    if function_ == 2 then
      Some(ListOf("S1F2", 2, 2, [AsciiField("MDLN", 0, false), AsciiField("SOFTREV", 0, false)]))
    else if function_ == 4 then Some(ListOf("S1F4", 0, -1, []))
    else if function_ == 12 then Some(ListOf("S1F12", 0, -1, []))
    else if function_ == 14 then
      Some(ListOf("S1F14", 2, 2, [
        ByteField("COMMACK", [0, 1]),
        ListOf("MDLN/SOFTREV", 0, 2, [AsciiField("MDLN", 0, true), AsciiField("SOFTREV", 0, true)])]))
    else if function_ == 16 then Some(ByteField("OFLACK", [0, 1]))
    else if function_ == 18 then Some(ByteField("ONLACK", [0, 1, 2]))
    else None
  }

  function Body2(function_: byte): Option<Schema> {
    if function_ == 14 then Some(ListOf("S2F14", 0, -1, []))
    else if function_ == 15 then Some(ListOf("S2F15", 0, -1, []))
    else if function_ == 16 then Some(ByteField("EAC", [0, 1, 2, 3]))
    else if function_ == 30 then Some(ListOf("S2F30", 0, -1, []))
    else if function_ == 33 then Some(ListOf("S2F33", 2, 2, []))
    else if function_ == 34 then Some(ByteField("DRACK", [0, 1, 2, 3, 4, 5]))
    else if function_ == 35 then Some(ListOf("S2F35", 2, 2, []))
    else if function_ == 36 then Some(ByteField("LRACK", [0, 1, 2, 3, 4, 5]))
    else if function_ == 37 then Some(ListOf("S2F37", 2, 2, []))
    else if function_ == 38 then Some(ByteField("ERACK", [0, 1]))
    else if function_ == 41 then
      Some(ListOf("S2F41", 2, 2, [AsciiField("RCMD", 1, false), ListOf("PARAMS", 0, -1, [])]))
    else if function_ == 42 then
      Some(ListOf("S2F42", 2, 2, [ByteField("HCACK", [0, 1, 2, 3, 4, 5, 6]), ListOf("CPACK_LIST", 0, -1, [])]))
    else None
  }

  function Body5(function_: byte): Option<Schema> {
    if function_ == 1 then
      Some(ListOf("S5F1", 3, 3, [ByteField("ALCD", []), U4Field("ALID"), AsciiField("ALTX", 0, false)]))
    else if function_ == 2 then Some(ByteField("ACKC5", [0, 1]))
    else if function_ == 3 then Some(ListOf("S5F3", 2, 2, [ByteField("ALED", []), U4Field("ALID")]))
    else if function_ == 4 then Some(ByteField("ACKC5", [0, 1]))
    else if function_ == 6 then Some(ListOf("S5F6", 0, -1, []))
    else if function_ == 8 then Some(ListOf("S5F8", 0, -1, []))
    else None
  }

  /** The results of `ValidateMessage`; None where the code returns nil for an unknown message. */
  function Validation(stream: byte, function_: byte, body: Option<Item>): Option<Level> {
    match Expected(stream, function_)
    case None => None
    case Some(MessageSchema(None)) => Some(if body.Some? && body.value.Len() > 0 then Warn else Pass)
    case Some(MessageSchema(Some(s))) => Some(if body.None? then Fail else MaxLevel(Findings(s, body.value, [])))
  }

  /** A message with a body schema passes exactly when the body conforms and is complete. */
  lemma ValidationPasses(stream: byte, function_: byte, x: Item)
    requires Body(stream, function_).Some?
    ensures var s := Body(stream, function_).value;
            Validation(stream, function_, Some(x)) == Some(Pass) <==> Conforms(s, x) && Complete(s, x)
  {
    VerdictIsConformance(Body(stream, function_).value, x, []);
  }

  /** The branches of `ValidateMessage` before the body is looked at. */
  lemma BodyPresence(stream: byte, function_: byte, x: Item)
    ensures Expected(stream, function_).None? ==>
              Validation(stream, function_, None) == None && Validation(stream, function_, Some(x)) == None
    ensures Body(stream, function_).Some? ==> Validation(stream, function_, None) == Some(Fail)
    ensures (stream, function_) in BODILESS ==>
              && Validation(stream, function_, None) == Some(Pass)
              && Validation(stream, function_, Some(x)) == Some(if x.Len() == 0 then Pass else Warn)
  {
  }

  /** The one-byte acknowledgements: the stream, the function, and the highest code allowed. */
  const ACKNOWLEDGEMENTS: set<(byte, byte, byte)> := {
    (1, 16, 1), (1, 18, 2), (2, 16, 3), (2, 34, 5), (2, 36, 5), (2, 38, 1), (5, 2, 1), (5, 4, 1), (6, 12, 1)
  }

  /** An acknowledgement passes exactly for a single byte up to its highest code, and fails otherwise. */
  lemma AcknowledgementRanges(stream: byte, function_: byte, highest: byte, x: Item)
    requires (stream, function_, highest) in ACKNOWLEDGEMENTS
    ensures Validation(stream, function_, Some(x)) ==
            Some(if x.TextItem? && x.text.Binary? && |x.Content()| == 1 && x.Content()[0] <= highest then Pass else Fail)
  {
    var s := Body(stream, function_).value;
    AckSchema(stream, function_, highest);
    VerdictIsConformance(s, x, []);
    hide Findings, MaxLevel, Body;
  }

  lemma AckSchema(stream: byte, function_: byte, highest: byte)
    requires (stream, function_, highest) in ACKNOWLEDGEMENTS
    ensures Body(stream, function_).Some?
    ensures
      var s := Body(stream, function_).value;
      && s.format == TextFormat(Binary) && s.minLen == 1 && s.maxLen == 1 && s.allowed != []
      && forall b: byte :: b in s.allowed <==> b <= highest
  {
  }

  predicate IsAsciiItem(x: Item) {
    x.ItemFormat() == TextFormat(Ascii)
  }

  predicate IsByteUpTo(x: Item, highest: int) {
    x.TextItem? && x.text.Binary? && |x.Content()| == 1 && x.Content()[0] <= highest
  }

  predicate IsU4(x: Item) {
    x.NumItem? && x.num == U4 && |x.values| == 1
  }

  /** What S1F2 bodies must look like: MDLN, SOFTREV. */
  lemma IdentityReports(a: Item, b: Item)
    ensures Validation(1, 2, Some(ListItem([a, b]))) == Some(Pass) <==> IsAsciiItem(a) && IsAsciiItem(b)
  {
    ValidationPasses(1, 2, ListItem([a, b]));
    hide Validation, Findings, MaxLevel;
    TwoConform(Body(1, 2).value, a, b);
  }

  /** What S2F42 bodies must look like: HCACK up to 6, parameters. */
  lemma CommandReports(a: Item, b: Item)
    ensures Validation(2, 42, Some(ListItem([a, b]))) == Some(Pass) <==> IsByteUpTo(a, 6) && b.ListItem?
  {
    ValidationPasses(2, 42, ListItem([a, b]));
    var s := Body(2, 42).value;
    assert forall c: byte :: c in s.children[0].allowed <==> c <= 6;
    hide Validation, Findings, MaxLevel, Body;
    TwoConform(s, a, b);
  }

  /** What S5F1 bodies must look like: ALCD, ALID, ALTX. */
  lemma AlarmReports(a: Item, b: Item, c: Item)
    ensures Validation(5, 1, Some(ListItem([a, b, c]))) == Some(Pass) <==> IsByteUpTo(a, 255) && IsU4(b) && IsAsciiItem(c)
  {
    ValidationPasses(5, 1, ListItem([a, b, c]));
    hide Validation, Findings, MaxLevel;
    ThreeConform(Body(5, 1).value, a, b, c);
  }

  /** What S6F11 bodies must look like: DATAID, CEID, reports. */
  lemma EventReports(a: Item, b: Item, c: Item)
    ensures Validation(6, 11, Some(ListItem([a, b, c]))) == Some(Pass) <==> IsU4(a) && IsU4(b) && c.ListItem?
  {
    ValidationPasses(6, 11, ListItem([a, b, c]));
    hide Validation, Findings, MaxLevel;
    ThreeConform(Body(6, 11).value, a, b, c);
  }

  /** A pair is checked member by member. */
  lemma TwoConform(s: Schema, a: Item, b: Item)
    requires s.format.ListFormat? && s.minLen <= 2 && (s.maxLen < 0 || s.maxLen >= 2) && |s.children| == 2
    ensures Conforms(s, ListItem([a, b])) <==> Conforms(s.children[0], a) && Conforms(s.children[1], b)
    ensures Complete(s, ListItem([a, b])) <==> Complete(s.children[0], a) && Complete(s.children[1], b)
  {
    var x := ListItem([a, b]);
    assert x.items[0] == a && x.items[1] == b;
  }

  lemma ThreeConform(s: Schema, a: Item, b: Item, c: Item)
    requires s.format.ListFormat? && s.minLen == 3 && s.maxLen == 3 && |s.children| == 3
    ensures Conforms(s, ListItem([a, b, c])) <==>
            Conforms(s.children[0], a) && Conforms(s.children[1], b) && Conforms(s.children[2], c)
    ensures Complete(s, ListItem([a, b, c])) <==>
            Complete(s.children[0], a) && Complete(s.children[1], b) && Complete(s.children[2], c)
  {
    var x := ListItem([a, b, c]);
    assert x.items[0] == a && x.items[1] == b && x.items[2] == c;
  }
}
