/** Properties of the GEM handler over all requests, stores and runs. */
module GemTheorems {
  import opened Outcomes
  import opened Bytes
  import opened Secs2Item
  import opened Secs2Encode
  import opened Secs2Decode
  import opened Secs2Codec
  import opened HsmsMessage
  import opened SchemaValidator
  import opened SchemaRegistry
  import opened SecurityPolicy
  import opened GemEquipment
  import opened GemHandler
  import Session = HsmsSession

  // ----- Replies are well typed, and stay so -----

  lemma DecodedIsTyped(data: seq<byte>)
    requires Decoded(data).Ok?
    ensures Typed(Decoded(data).value)
  {
    ParsedIsCanonical(data);
  }

  lemma {:induction false} SetConstantsKeepsTypes(ecs: map<uint32, Constant>, pairs: seq<Item>)
    requires forall p | p in pairs :: Pair(p)
    requires forall p | p in pairs :: Typed(p)
    requires TypedConstants(ecs)
    ensures TypedConstants(SetConstants(ecs, pairs))
    decreases pairs
  {
    if pairs != [] {
      var p := pairs[0];
      assert Pair(p) && Typed(p);
      assert p.Len() >= 2 ==> Typed(p.items[1]);
      assert TypedConstants(SetOne(ecs, p));
      SetConstantsKeepsTypes(SetOne(ecs, p), pairs[1..]);
    }
  }

  lemma NamesAreTyped(q: Equipment, id: uint32)
    requires TypedEquipment(q)
    ensures Typed(StatusItem(q, id)) && Typed(ConstantItem(q, id)) && Typed(StatusName(q, id))
    ensures Typed(ConstantName(q, id)) && Typed(AlarmItem(q, id))
  {
    PowersOf256();
    assert id in q.ecs ==> TypedConstant(q.ecs[id]);
  }

  lemma EachIsTyped(ids: seq<uint32>, f: uint32 -> Item)
    requires forall id: uint32 :: Typed(f(id))
    ensures Typed(ListItem(Each(ids, f)))
  {
  }

  lemma EachRequestedIsTyped(xs: seq<Item>, f: uint32 -> Item)
    requires Readable(xs)
    requires forall id: uint32 :: Typed(f(id))
    ensures EachRequested(xs, f).Some? ==> Typed(ListItem(EachRequested(xs, f).value))
  {
  }

  lemma Stream1IsTyped(q: Equipment, f: byte, data: seq<byte>, ch: Choice)
    requires TypedEquipment(q) && ShapedData(1, f, data)
    ensures TypedEquipment(Stream1(q, f, data, ch).0)
    ensures Stream1(q, f, data, ch).1.Answer? ==> Typed(Stream1(q, f, data, ch).1.item)
  {
    forall id: uint32 { NamesAreTyped(q, id); }
    hide StatusItem, StatusName, TypedValue, Each, EachRequested, Decoded;
    assert Typed(ListItem([Text(q.mdln), Text(q.softrev)]));
    EachIsTyped(ch.ids, (id: uint32) => StatusItem(q, id));
    EachIsTyped(ch.ids, (id: uint32) => StatusName(q, id));
    if f == 3 && Decoded(data).Ok? {
      EachRequestedIsTyped(Decoded(data).value.Items(), (id: uint32) => StatusItem(q, id));
    }
  }

  lemma Stream2ReadIsTyped(q: Equipment, f: byte, data: seq<byte>, ch: Choice)
    requires TypedEquipment(q) && (f == 13 || f == 29) && ShapedData(2, f, data)
    ensures Stream2Read(q, f, data, ch).Answer? ==> Typed(Stream2Read(q, f, data, ch).item)
  {
    forall id: uint32 { NamesAreTyped(q, id); }
    hide ConstantItem, ConstantName, TypedValue, Each, EachRequested, Decoded;
    EachIsTyped(ch.ids, (id: uint32) => ConstantItem(q, id));
    EachIsTyped(ch.ids, (id: uint32) => ConstantName(q, id));
    if f == 13 && Decoded(data).Ok? {
      EachRequestedIsTyped(Decoded(data).value.Items(), (id: uint32) => ConstantItem(q, id));
    }
  }

  lemma CollectionIsTyped(q: Equipment, f: byte, body: Item)
    requires f in {33, 35, 37} && Shaped(2, f, body)
    ensures var (q', a) := Collection(q, f, body); q'.svs == q.svs && q'.ecs == q.ecs && a.Answer? && Typed(a.item)
  {
    hide DefineReports, LinkReports, EnableEvents;
  }

  lemma RemoteCommandIsTyped(q: Equipment, body: Item, ch: Choice)
    requires Shaped(2, 41, body)
    ensures var (q', a) := RemoteCommand(q, body, ch); q'.svs == q.svs && q'.ecs == q.ecs && a.Answer? && Typed(a.item)
  {
    hide Params;
  }

  lemma Stream2IsTyped(q: Equipment, f: byte, data: seq<byte>, ch: Choice)
    requires TypedEquipment(q) && ShapedData(2, f, data)
    ensures TypedEquipment(Stream2(q, f, data, ch).0)
    ensures Stream2(q, f, data, ch).1.Answer? ==> Typed(Stream2(q, f, data, ch).1.item)
  {
    hide Collection, RemoteCommand, Stream2Read, Decoded;
    if f == 13 || f == 29 {
      Stream2ReadIsTyped(q, f, data, ch);
    } else if f in {15, 33, 35, 37, 41} && Decoded(data).Ok? {
      var body := Decoded(data).value;
      DecodedIsTyped(data);
      if f == 15 {
        SetConstantsKeepsTypes(q.ecs, body.Items());
      } else if f == 41 {
        RemoteCommandIsTyped(q, body, ch);
      } else {
        CollectionIsTyped(q, f, body);
      }
    }
  }

  lemma Stream5IsTyped(q: Equipment, f: byte, data: seq<byte>, ch: Choice)
    requires TypedEquipment(q) && ShapedData(5, f, data)
    ensures TypedEquipment(Stream5(q, f, data, ch).0)
    ensures Stream5(q, f, data, ch).1.Answer? ==> Typed(Stream5(q, f, data, ch).1.item)
  {
    forall id: uint32 { NamesAreTyped(q, id); }
    hide AlarmItem, TypedValue, Each;
    EachIsTyped(ch.ids, (id: uint32) => AlarmItem(q, id));
    EachIsTyped(EnabledIds(q, ch.ids), (id: uint32) => AlarmItem(q, id));
  }

  /** Stored values stay well typed under every message, and every answer is well typed. */
  lemma BuiltInIsTyped(q: Equipment, s: byte, f: byte, data: seq<byte>, ch: Choice)
    requires TypedEquipment(q) && ShapedData(s, f, data)
    ensures TypedEquipment(BuiltIn(q, s, f, data, ch).0)
    ensures BuiltIn(q, s, f, data, ch).1.Answer? ==> Typed(BuiltIn(q, s, f, data, ch).1.item)
  {
    hide TypedEquipment, Stream1, Stream2, Stream5, ShapedData;
    if s == 1 {
      Stream1IsTyped(q, f, data, ch);
    } else if s == 2 {
      Stream2IsTyped(q, f, data, ch);
    } else if s == 5 {
      Stream5IsTyped(q, f, data, ch);
    }
  }

  // ----- Replies conform to the schema of the next function -----

  lemma AckConforms(name: string, allowed: seq<byte>, code: byte)
    ensures Norm(Ack(code)) == Ack(code) && Complete(ByteField(name, allowed), Ack(code))
    ensures Conforms(ByteField(name, allowed), Ack(code)) <==> allowed == [] || code in allowed
  {
  }

  lemma NormOfPair(a: Item, b: Item)
    ensures Norm(ListItem([a, b])) == ListItem([Norm(a), Norm(b)])
  {
    assert NormAll([a, b]) == [Norm(a), Norm(b)];
  }

  /** A list reply without declared children always passes. */
  lemma PlainListPasses(name: string, items: seq<Item>)
    ensures var s := ListOf(name, 0, -1, []); Conforms(s, Norm(ListItem(items))) && Complete(s, Norm(ListItem(items)))
  {
  }

  lemma TextConforms(name: string, optional: bool, t: seq<byte>)
    ensures Conforms(AsciiField(name, 0, optional), Norm(Text(t))) && Complete(AsciiField(name, 0, optional), Norm(Text(t)))
  {
  }

  /** The S1F2 and S1F14 bodies conform whatever the two texts are. */
  lemma ModelAndRevisionPass(mdln: seq<byte>, softrev: seq<byte>)
    ensures var s, x := Body1(2).value, Norm(ListItem([Text(mdln), Text(softrev)]));
            Conforms(s, x) && Complete(s, x)
    ensures var s, x := Body1(14).value, Norm(ListItem([Ack(0), ListItem([Text(mdln), Text(softrev)])]));
            Conforms(s, x) && Complete(s, x)
  {
    var a, b := Norm(Text(mdln)), Norm(Text(softrev));
    NormOfPair(Text(mdln), Text(softrev));
    NormOfPair(Ack(0), ListItem([Text(mdln), Text(softrev)]));
    AckConforms("COMMACK", [0, 1], 0);
    TextConforms("MDLN", false, mdln);
    TextConforms("MDLN", true, mdln);
    TextConforms("SOFTREV", false, softrev);
    TextConforms("SOFTREV", true, softrev);
    hide Conforms, Complete, Norm;
    TwoConform(Body1(2).value, a, b);
    TwoConform(Body1(14).value.children[1], a, b);
    TwoConform(Body1(14).value, Ack(0), ListItem([a, b]));
  }

  lemma Stream1Passes(q: Equipment, f: byte, data: seq<byte>, ch: Choice)
    requires ShapedData(1, f, data) && Stream1(q, f, data, ch).1.Answer?
    ensures f < 255 && Validation(1, f + 1, Some(Norm(Stream1(q, f, data, ch).1.item))) == Some(Pass)
  {
    hide Decoded, Validation, Findings, MaxLevel, Each, EachRequested, StatusItem, StatusName;
    var item := Stream1(q, f, data, ch).1.item;
    assert f in {1, 3, 11, 13, 15, 17};
    ValidationPasses(1, f + 1, Norm(item));
    if f == 1 || f == 13 {
      ModelAndRevisionPass(q.mdln, q.softrev);
    } else if f == 15 {
      AckConforms("OFLACK", [0, 1], item.Content()[0]);
    } else if f == 17 {
      AckConforms("ONLACK", [0, 1, 2], item.Content()[0]);
    } else {
      PlainListPasses(Body1(f + 1).value.name, item.items);
    }
  }

  /** A registered command ran. */
  predicate Ran(q: Equipment, q': Equipment) {
    |q'.executed| > |q.executed|
  }

  lemma CommandConforms(status: byte)
    ensures var s, x := Body2(42).value, Norm(CommandReply(status));
            (Conforms(s, x) <==> status <= 6) && Complete(s, x)
  {
  }

  lemma CommandReplyPasses(status: byte)
    ensures Validation(2, 42, Some(Norm(CommandReply(status)))) == Some(Pass) <==> status <= 6
    ensures Validation(2, 42, Some(Norm(CommandReply(status)))) == Some(Fail) <==> status > 6
  {
    assert Body(2, 42) == Body2(42);
    hide Findings, MaxLevel, Conforms, Complete, Norm, Body2, CommandReply;
    CommandConforms(status);
    VerdictIsConformance(Body2(42).value, Norm(CommandReply(status)), []);
  }

  lemma Stream2Passes(q: Equipment, f: byte, data: seq<byte>, ch: Choice)
    requires ShapedData(2, f, data) && f != 41 && Stream2(q, f, data, ch).1.Answer?
    ensures f < 255 && Validation(2, f + 1, Some(Norm(Stream2(q, f, data, ch).1.item))) == Some(Pass)
  {
    hide Decoded, Validation, Findings, MaxLevel, DefineReports, LinkReports, EnableEvents, SetConstants, Each, EachRequested;
    var item := Stream2(q, f, data, ch).1.item;
    assert f in {13, 15, 29, 33, 35, 37};
    ValidationPasses(2, f + 1, Norm(item));
    if f == 13 || f == 29 {
      PlainListPasses(Body2(f + 1).value.name, item.items);
    } else {
      assert item == Ack(0) || (item == Ack(1) && f != 15);
      var s := Body2(f + 1).value;
      AckConforms(s.name, s.allowed, item.Content()[0]);
    }
  }

  lemma CommandPasses(q: Equipment, data: seq<byte>, ch: Choice)
    requires ShapedData(2, 41, data) && Stream2(q, 41, data, ch).1.Answer?
    ensures var (q', a) := Stream2(q, 41, data, ch);
            Validation(2, 42, Some(Norm(a.item))) == Some(if Ran(q, q') && ch.status > 6 then Fail else Pass)
  {
    hide Decoded, Validation, Params;
    CommandReplyPasses(Stream2(q, 41, data, ch).1.item.items[0].Content()[0]);
  }

  lemma Stream5Passes(q: Equipment, f: byte, data: seq<byte>, ch: Choice)
    requires ShapedData(5, f, data) && Stream5(q, f, data, ch).1.Answer?
    ensures f < 255 && Validation(5, f + 1, Some(Norm(Stream5(q, f, data, ch).1.item))) == Some(Pass)
  {
    var item := Stream5(q, f, data, ch).1.item;
    assert f in {3, 5, 7};
    ValidationPasses(5, f + 1, Norm(item));
    hide Decoded, Validation, Findings, MaxLevel;
    if f == 3 {
      AckConforms("ACKC5", [0, 1], item.Content()[0]);
    } else {
      PlainListPasses(Body5(f + 1).value.name, item.items);
    }
  }

  // ----- End to end -----

  /** What the host makes of the bytes it reads as the reply to S{s}F{f}. */
  datatype HostView = Nothing | Seen(reply: Message, item: Item, level: Option<Level>, rest: seq<byte>)

  function HostReceives(stream: seq<byte>, max: nat, s: byte, f: byte): HostView {
    match ReadFrame(stream, max)
    case ReadFailed(_) => Nothing
    case Got(m, rest) =>
      match Decoded(m.data)
      case Err(_) => Nothing
      case Ok(x) => Seen(m, x, Validation(s, (f + 1) % 256, Some(x)), rest)
  }

  /** Every answer passes validation at the next function, unless a registered command answered a status above 6. */
  lemma AnswerPasses(q: Equipment, s: byte, f: byte, data: seq<byte>, ch: Choice)
    requires ShapedData(s, f, data) && BuiltIn(q, s, f, data, ch).1.Answer?
    ensures f < 255
    ensures var (q', a) := BuiltIn(q, s, f, data, ch);
            Validation(s, f + 1, Some(Norm(a.item))) ==
            Some(if (s, f) == (2, 41) && Ran(q, q') && ch.status > 6 then Fail else Pass)
  {
    hide Validation, Stream1, Stream2, Stream5, ShapedData;
    if s == 1 {
      Stream1Passes(q, f, data, ch);
    } else if s == 2 {
      if f == 41 {
        CommandPasses(q, data, ch);
      } else {
        Stream2Passes(q, f, data, ch);
      }
    } else {
      Stream5Passes(q, f, data, ch);
    }
  }

  lemma ReplyIsAnswer(q: Equipment, policy: Option<Policy>, msg: Message, ch: Choice)
    requires ShapedFor(policy, msg)
    ensures
      var (q', out) := Handle(q, policy, msg, ch);
      out.Reply? && out.body.Some? ==>
        && ShapedData(msg.header.stream, msg.header.function_, msg.data)
        && BuiltIn(q, msg.header.stream, msg.header.function_, msg.data, ch) == (q', Answer(out.body.value))
        && out.function_ == (msg.header.function_ + 1) % 256
  {
    hide BuiltIn, IsAllowed, ShapedData;
  }

  /** The way of a body from the encoder over the wire to the host's decoder. */
  lemma BodyArrives(m: Message, item: Item, s: byte, f: byte, max: nat, rest: seq<byte>)
    requires Typed(item) && Fits(item) && m.data == Wire(item) && m.header.stream < 128
    requires Sendable(m) && HEADER_LEN + |m.data| <= max
    ensures HostReceives(Frame(m) + rest, max, s, f) ==
            Seen(m, Norm(item), Validation(s, (f + 1) % 256, Some(Norm(item))), rest)
  {
    hide Validation, Decoded, ReadFrame, Frame, Wire;
    ReadFrameBack(m, rest, max);
    assert Masked(m) == m;
    RoundTrip(item);
  }

  /** The message sendReply builds around an encoded body. */
  function ReplyTo(msg: Message, data: seq<byte>): Message {
    DataMessage(
      msg.header.sessionId, msg.header.stream, (msg.header.function_ + 1) % 256, false, msg.header.systemId, data)
  }

  /** What `SendMessage` writes: a reply under number 0 takes the session's next number. */
  function Written(e: Session.Endpoint, msg: Message, item: Item): Message
    requires Fits(item)
  {
    Session.Numbered(e, ReplyTo(msg, Wire(item)))
  }

  /** The reply answers its request's number exactly when that is not 0 (or the counter has just wrapped round to 0). */
  lemma ReplyKeepsNumber(e: Session.Endpoint, msg: Message, item: Item)
    requires Fits(item)
    ensures Written(e, msg, item).SystemId() == msg.SystemId() <==> msg.SystemId() != 0 || Session.NextId(e) == 0
    ensures Written(e, msg, item).data == Wire(item) && Written(e, msg, item).header.stream == msg.header.stream
  {
    hide Wire;
  }

  /** The encoded reply fits its frame, the host's size limit and the seven stream bits. */
  predicate Carried(m: Message, max: nat) {
    Sendable(m) && Deliverable(m, max)
  }

  /**
   * Every body the handler sends is read off the wire whole, decodes to the
   * item the handler built (up to empty text slots), and passes validation at
   * the next function, unless a registered command answered a status above 6.
   */
  lemma HostAcceptsReply(
      q: Equipment, policy: Option<Policy>, msg: Message, ch: Choice, e: Session.Endpoint, max: nat, rest: seq<byte>)
    requires TypedEquipment(q) && ShapedFor(policy, msg)
    ensures
      var (q', out) := Handle(q, policy, msg, ch);
      out.Reply? && out.body.Some? && Fits(out.body.value) && Carried(Written(e, msg, out.body.value), max) ==>
        var item := out.body.value;
        var sent := Written(e, msg, item);
        && ReplyMessage(msg, out) == Ok(ReplyTo(msg, Wire(item)))
        && HostReceives(Frame(sent) + rest, max, msg.header.stream, msg.header.function_) ==
           Seen(sent, Norm(item), Some(Verdict(q, msg, ch, q')), rest)
  {
    hide Handle, BuiltIn, Validation, HostReceives, Wire, Frame, TypedEquipment, ShapedData, ShapedFor, Written;
    ReplyIsAnswer(q, policy, msg, ch);
    var (q', out) := Handle(q, policy, msg, ch);
    if out.Reply? && out.body.Some? && Fits(out.body.value) && Carried(Written(e, msg, out.body.value), max) {
      var item := out.body.value;
      BuiltInIsTyped(q, msg.header.stream, msg.header.function_, msg.data, ch);
      AnswerPasses(q, msg.header.stream, msg.header.function_, msg.data, ch);
      ReplyKeepsNumber(e, msg, item);
      BodyArrives(Written(e, msg, item), item, msg.header.stream, msg.header.function_, max, rest);
    }
  }

  /** FAIL exactly for a remote command that ran and answered a status above 6. */
  function Verdict(q: Equipment, msg: Message, ch: Choice, q': Equipment): Level {
    if (msg.header.stream, msg.header.function_) == (2, 41) && Ran(q, q') && ch.status > 6 then Fail else Pass
  }
}
