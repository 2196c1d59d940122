/** The GEM message handler (pkg/driver/gem/handler.go): what each built-in message does to the equipment and answers. */
module GemHandler {
  import opened Outcomes
  import opened Bytes
  import opened Secs2Item
  import opened Secs2Encode
  import opened Secs2Decode
  import opened HsmsMessage
  import opened SecurityPolicy
  import opened GemEquipment

  /** What HandleMessage does with a message: nothing, an error to its caller, or a reply on the same stream. */
  datatype Outcome = NoReply | HandlerError | Reply(function_: byte, body: Option<Item>)

  /** What a built-in handler returns: NilItems is a list of nil items, Unhandled the default branch of the switch. */
  datatype Answer = Answer(item: Item) | NilItems(count: nat) | BadRequest | Unhandled

  /** What the environment decides: the iteration order of the listed map, and what a registered command answers. */
  datatype Choice = Choice(ids: seq<uint32>, status: byte)

  const COMMAND_INVALID: byte := 1
  const COMMAND_PARAMETER_ERROR: byte := 3

  function Ack(code: byte): Item {
    TextItem(Binary, Some([code]))
  }

  function Text(s: seq<byte>): Item {
    TextItem(Ascii, Some(s))
  }

  function U4Of(id: uint32): Item {
    NumItem(U4, [id])
  }

  // ----- Request shapes -----

  /** The item can be indexed at 0 once it converts to unsigned numbers. */
  predicate Indexable(x: Item) {
    x.ToUint64s().Some? ==> x.ToUint64s().value != []
  }

  /** `uint32(ids[0])` of `ToUint64s`, or none where the conversion reports an error. */
  function FirstId(x: Item): Option<uint32>
    requires Indexable(x)
  {
    if x.ToUint64s().None? then None else Some(x.ToUint64s().value[0] % 0x1_0000_0000)
  }

  predicate IdList(x: Item) {
    forall c | c in x.Items() :: Indexable(c)
  }

  /** The IDs can be indexed as far as they are looked at: reading stops at the first that is not unsigned. */
  predicate Readable(xs: seq<Item>) {
    xs == [] || (Indexable(xs[0]) && (FirstId(xs[0]).Some? ==> Readable(xs[1..])))
  }

  /** An entry of two or more elements has children, and its ID can be indexed. */
  predicate Pair(x: Item) {
    x.Len() >= 2 ==> x.ListItem? && Indexable(x.items[0])
  }

  /** An entry of S2F33 or S2F35; its list is looked at only when its ID is unsigned. */
  predicate Definition(d: Item) {
    Pair(d) && (d.Len() >= 2 && FirstId(d.items[0]).Some? ==> IdList(d.items[1]))
  }

  predicate Definitions(x: Item) {
    forall d | d in x.Items() :: Definition(d)
  }

  predicate Parameters(x: Item) {
    forall p | p in x.Items() :: p.Len() >= 2 ==> p.ListItem?
  }

  /** Every index and child access the handler of S{s}F{f} reaches on this body is in range. */
  predicate Shaped(s: byte, f: byte, body: Item) {
    if (s, f) in {(1, 3), (2, 13)} then Readable(body.Items())
    else if (s, f) == (2, 15) then forall p | p in body.Items() :: Pair(p)
    else if (s, f) in {(2, 33), (2, 35), (2, 37), (2, 41), (5, 3)} then
      body.Len() >= 2 ==>
        && body.ListItem?
        && ((s, f) in {(2, 33), (2, 35)} ==> Definitions(body.items[1]))
        && ((s, f) == (2, 37) && body.items[0].ToBooleans().Some? ==> IdList(body.items[1]))
        && ((s, f) == (2, 41) && body.items[0].ToText(Ascii).Some? ==> Parameters(body.items[1]))
        && ((s, f) == (5, 3) && body.items[0].ToText(Binary).Some? ==> Indexable(body.items[1]))
    else true
  }

  predicate ShapedData(s: byte, f: byte, data: seq<byte>) {
    Decoded(data).Ok? ==> Shaped(s, f, Decoded(data).value)
  }

  /** A data message that the policy lets through to the handlers. */
  predicate Admitted(policy: Option<Policy>, msg: Message) {
    msg.SType() == DATA_MESSAGE && IsAllowed(policy, msg.header.stream, msg.header.function_)
  }

  /** The body is not one for which S1F3 and S2F13 build a list of nil items, which cannot be encoded. */
  predicate Answerable(s: byte, f: byte, data: seq<byte>) {
    (s, f) in {(1, 3), (2, 13)} && Decoded(data).Ok? ==> Decoded(data).value.ListItem? || Decoded(data).value.Len() == 0
  }

  /**
   * Only an admitted message is decoded, so only its body has to be in shape;
   * a message that a policy denies may have any body at all.
   */
  predicate ShapedFor(policy: Option<Policy>, msg: Message) {
    Admitted(policy, msg) ==>
      var s, f := msg.header.stream, msg.header.function_;
      ShapedData(s, f, msg.data) && (msg.header.wbit ==> Answerable(s, f, msg.data))
  }

  // ----- Reading -----

  function StatusItem(q: Equipment, id: uint32): Item {
    ValueToItem(if id in q.svs then q.svs[id].value else Nil)
  }

  function ConstantItem(q: Equipment, id: uint32): Item {
    if id in q.ecs then ValueToItem(q.ecs[id].value) else ListItem([])
  }

  function StatusName(q: Equipment, id: uint32): Item {
    if id in q.svs then ListItem([U4Of(id), Text(q.svs[id].name), Text(q.svs[id].units)]) else ListItem([])
  }

  function ConstantName(q: Equipment, id: uint32): Item {
    if id in q.ecs then
      var c := q.ecs[id];
      ListItem([U4Of(id), Text(c.name), ValueToItem(c.min), ValueToItem(c.max), ValueToItem(c.value), Text(c.units)])
    else ListItem([])
  }

  /** ALCD: the severity with bit 7 saying that the alarm is set. */
  function AlarmCode(a: Alarm): byte {
    if a.set_ && a.severity < 128 then a.severity + 128 else a.severity
  }

  function AlarmItem(q: Equipment, id: uint32): Item {
    if id in q.alarms then ListItem([Ack(AlarmCode(q.alarms[id])), U4Of(id), Text(q.alarms[id].text)]) else ListItem([])
  }

  function Each(ids: seq<uint32>, f: uint32 -> Item): (items: seq<Item>)
    ensures |items| == |ids| && forall i | 0 <= i < |ids| :: items[i] == f(ids[i])
  {
    seq(|ids|, i requires 0 <= i < |ids| => f(ids[i]))
  }

  /** One item per requested ID; an ID that is not unsigned is an error. */
  function EachRequested(xs: seq<Item>, f: uint32 -> Item): (items: Option<seq<Item>>)
    requires Readable(xs)
    ensures items.Some? <==> forall x | x in xs :: Indexable(x) && FirstId(x).Some?
    ensures items.Some? ==> |items.value| == |xs| && forall i | 0 <= i < |xs| ::
              Indexable(xs[i]) && FirstId(xs[i]).Some? && items.value[i] == f(FirstId(xs[i]).value)
  {
    if xs == [] then Some([])
    else if FirstId(xs[0]).None? then None
    else
      match EachRequested(xs[1..], f)
      case None => None
      case Some(rest) => Some([f(FirstId(xs[0]).value)] + rest)
  }

  /** S1F3 and S2F13: everything for a request without body, else what it asks for. */
  function ListOrRequested(data: seq<byte>, ids: seq<uint32>, f: uint32 -> Item): Answer
    requires Decoded(data).Ok? ==> Readable(Decoded(data).value.Items())
  {
    if data == [] then Answer(ListItem(Each(ids, f)))
    else
      match Decoded(data)
      case Err(_) => BadRequest
      case Ok(body) =>
        if !body.ListItem? && body.Len() > 0 then NilItems(body.Len())
        else
          match EachRequested(body.Items(), f)
          case None => BadRequest
          case Some(items) => Answer(ListItem(items))
  }

  function EnabledIds(q: Equipment, ids: seq<uint32>): seq<uint32> {
    if ids == [] then []
    else (if ids[0] in q.alarms && q.alarms[ids[0]].enabled then [ids[0]] else []) + EnabledIds(q, ids[1..])
  }

  // ----- Writing -----

  /** One (ECID, value) pair of S2F15. */
  function SetOne(ecs: map<uint32, Constant>, p: Item): map<uint32, Constant>
    requires Pair(p)
  {
    if p.Len() < 2 || FirstId(p.items[0]).None? then ecs else SetEC(ecs, FirstId(p.items[0]).value, p.items[1])
  }

  function SetConstants(ecs: map<uint32, Constant>, pairs: seq<Item>): map<uint32, Constant>
    requires forall p | p in pairs :: Pair(p)
    decreases pairs
  {
    if pairs == [] then ecs
    else
      assert Pair(pairs[0]);
      SetConstants(SetOne(ecs, pairs[0]), pairs[1..])
  }

  /** The IDs of a list, 0 where an element is not unsigned; an item that is no list gives zeros only. */
  function IdsOf(x: Item): (ids: seq<uint32>)
    requires IdList(x)
    ensures |ids| == x.Len()
  {
    seq(x.Len(), i requires 0 <= i < x.Len() =>
      if i < |x.Items()| && FirstId(x.Items()[i]).Some? then FirstId(x.Items()[i]).value else 0)
  }

  /** One report definition of S2F33; one without variables deletes the report. */
  function DefineOne(reports: map<uint32, seq<uint32>>, d: Item): map<uint32, seq<uint32>>
    requires Definition(d)
  {
    if d.Len() < 2 || FirstId(d.items[0]).None? then reports
    else if d.items[1].Len() == 0 then reports - {FirstId(d.items[0]).value}
    else reports[FirstId(d.items[0]).value := IdsOf(d.items[1])]
  }

  function DefineReports(reports: map<uint32, seq<uint32>>, defs: seq<Item>): map<uint32, seq<uint32>>
    requires forall d | d in defs :: Definition(d)
    decreases defs
  {
    if defs == [] then reports
    else
      assert Definition(defs[0]);
      DefineReports(DefineOne(reports, defs[0]), defs[1..])
  }

  function LinkOne(events: map<uint32, Event>, reports: map<uint32, seq<uint32>>, d: Item): map<uint32, Event>
    requires Definition(d)
  {
    if d.Len() < 2 || FirstId(d.items[0]).None? then events
    else LinkEvent(events, reports, FirstId(d.items[0]).value, IdsOf(d.items[1]))
  }

  function LinkReports(events: map<uint32, Event>, reports: map<uint32, seq<uint32>>, links: seq<Item>): map<uint32, Event>
    requires forall d | d in links :: Definition(d)
    decreases links
  {
    if links == [] then events
    else
      assert Definition(links[0]);
      LinkReports(LinkOne(events, reports, links[0]), reports, links[1..])
  }

  function EnableEvents(events: map<uint32, Event>, xs: seq<Item>, enabled: bool): map<uint32, Event>
    requires forall x | x in xs :: Indexable(x)
    decreases xs
  {
    if xs == [] then events
    else
      var next := if FirstId(xs[0]).None? then events else EnableEvent(events, FirstId(xs[0]).value, enabled);
      EnableEvents(next, xs[1..], enabled)
  }

  /** One (CPNAME, CPVAL) pair of S2F41; a name that is not text is read as empty. */
  function ParamOf(p: Item): seq<(seq<byte>, Item)>
    requires p.Len() >= 2 ==> p.ListItem?
  {
    if p.Len() < 2 then []
    else [(if p.items[0].ToText(Ascii).Some? then p.items[0].ToText(Ascii).value else [], p.items[1])]
  }

  function Params(xs: seq<Item>): seq<(seq<byte>, Item)>
    requires forall p | p in xs :: p.Len() >= 2 ==> p.ListItem?
  {
    if xs == [] then [] else ParamOf(xs[0]) + Params(xs[1..])
  }

  // ----- The built-in messages -----

  function Stream1(q: Equipment, f: byte, data: seq<byte>, ch: Choice): (Equipment, Answer)
    requires ShapedData(1, f, data)
  {
    if f == 1 then (q, Answer(ListItem([Text(q.mdln), Text(q.softrev)])))
    else if f == 3 then
      (q, ListOrRequested(data, ch.ids, (id: uint32) => StatusItem(q, id)))
    else if f == 11 then (q, Answer(ListItem(Each(ch.ids, (id: uint32) => StatusName(q, id)))))
    else if f == 13 then
      (q.(machine := Perform(Perform(q.machine, EnableComm), CommEstablished)),
       Answer(ListItem([Ack(0), ListItem([Text(q.mdln), Text(q.softrev)])])))
    else if f == 15 then
      (q.(machine := Perform(q.machine, GoOffline)), Answer(Ack(if Allowed(q.machine, GoOffline) then 0 else 1)))
    else if f == 17 then
      (q.(machine := Perform(q.machine, GoOnlineRemote)), Answer(Ack(if Allowed(q.machine, GoOnlineRemote) then 0 else 1)))
    else (q, Unhandled)
  }

  function Stream2Read(q: Equipment, f: byte, data: seq<byte>, ch: Choice): Answer
    requires f == 13 || f == 29
    requires ShapedData(2, f, data)
  {
    if f == 29 then Answer(ListItem(Each(ch.ids, (id: uint32) => ConstantName(q, id))))
    else ListOrRequested(data, ch.ids, (id: uint32) => ConstantItem(q, id))
  }

  /** S2F33, S2F35 and S2F37 with a decoded body. */
  function Collection(q: Equipment, f: byte, body: Item): (Equipment, Answer)
    requires f in {33, 35, 37} && Shaped(2, f, body)
  {
    if body.Len() < 2 then (q, Answer(Ack(1)))
    else if f == 33 then
      (if body.items[1].Len() == 0 then q.(reports := map[], events := UnlinkAll(q.events))
       else q.(reports := DefineReports(q.reports, body.items[1].Items())),
       Answer(Ack(0)))
    else if f == 35 then
      (q.(events := LinkReports(q.events, q.reports, body.items[1].Items())), Answer(Ack(0)))
    else if body.items[0].ToBooleans().None? then (q, Answer(Ack(1)))
    else
      var flags := body.items[0].ToBooleans().value;
      var enabled := flags != [] && flags[0];
      (q.(events := if body.items[1].Len() == 0 then EnableAllEvents(q.events, enabled)
                    else EnableEvents(q.events, body.items[1].Items(), enabled)),
       Answer(Ack(0)))
  }

  function CommandReply(status: byte): Item {
    ListItem([Ack(status), ListItem([])])
  }

  function RemoteCommand(q: Equipment, body: Item, ch: Choice): (Equipment, Answer)
    requires Shaped(2, 41, body)
  {
    if body.Len() < 2 || body.items[0].ToText(Ascii).None? then (q, Answer(CommandReply(COMMAND_PARAMETER_ERROR)))
    else
      var name := body.items[0].ToText(Ascii).value;
      if name in q.commands then
        (q.(executed := q.executed + [(name, Params(body.items[1].Items()))]), Answer(CommandReply(ch.status)))
      else (q, Answer(CommandReply(COMMAND_INVALID)))
  }

  function Stream2(q: Equipment, f: byte, data: seq<byte>, ch: Choice): (Equipment, Answer)
    requires ShapedData(2, f, data)
  {
    if f == 13 || f == 29 then (q, Stream2Read(q, f, data, ch))
    else if f !in {15, 33, 35, 37, 41} then (q, Unhandled)
    else
      match Decoded(data)
      case Err(_) => (q, BadRequest)
      case Ok(body) =>
        if f == 15 then (q.(ecs := SetConstants(q.ecs, body.Items())), Answer(Ack(0)))
        else if f == 41 then RemoteCommand(q, body, ch)
        else Collection(q, f, body)
  }

  function EnableAlarm(q: Equipment, body: Item): (Equipment, Answer)
    requires Shaped(5, 3, body)
  {
    if body.Len() < 2 || body.items[0].ToText(Binary).None? then (q, Answer(Ack(1)))
    else
      var aled := body.items[0].ToText(Binary).value;
      var enabled := aled != [] && aled[0] >= 128;
      match FirstId(body.items[1])
      case None => (q, Answer(Ack(1)))
      case Some(id) =>
        if id in q.alarms then (q.(alarms := q.alarms[id := q.alarms[id].(enabled := enabled)]), Answer(Ack(0)))
        else (q, Answer(Ack(1)))
  }

  function Stream5(q: Equipment, f: byte, data: seq<byte>, ch: Choice): (Equipment, Answer)
    requires ShapedData(5, f, data)
  {
    if f == 3 then
      match Decoded(data)
      case Err(_) => (q, BadRequest)
      case Ok(body) => EnableAlarm(q, body)
    else if f == 5 then (q, Answer(ListItem(Each(ch.ids, (id: uint32) => AlarmItem(q, id)))))
    else if f == 7 then (q, Answer(ListItem(Each(EnabledIds(q, ch.ids), (id: uint32) => AlarmItem(q, id)))))
    else (q, Unhandled)
  }

  function BuiltIn(q: Equipment, s: byte, f: byte, data: seq<byte>, ch: Choice): (Equipment, Answer)
    requires ShapedData(s, f, data)
  {
    if s == 1 then Stream1(q, f, data, ch)
    else if s == 2 then Stream2(q, f, data, ch)
    else if s == 5 then Stream5(q, f, data, ch)
    else (q, Unhandled)
  }

  /** The keys of the map a message lists; its iteration order is the environment's choice. */
  function Listed(q: Equipment, s: byte): set<uint32> {
    if s == 1 then q.svs.Keys else if s == 2 then q.ecs.Keys else q.alarms.Keys
  }

  predicate Enumerates(ids: seq<uint32>, keys: set<uint32>) {
    (forall i, j | 0 <= i < j < |ids| :: ids[i] != ids[j]) && (forall id | id in ids :: id in keys) && keys <= set id | id in ids
  }

  /** `HandleMessage` without custom handlers. */
  function Handle(q: Equipment, policy: Option<Policy>, msg: Message, ch: Choice): (Equipment, Outcome)
    requires ShapedFor(policy, msg)
  {
    var s, f := msg.header.stream, msg.header.function_;
    if msg.SType() != DATA_MESSAGE then (q, NoReply)
    else if !IsAllowed(policy, s, f) then (q, if msg.header.wbit then Reply(0, None) else NoReply)
    else
      var (q', a) := BuiltIn(q, s, f, msg.data, ch);
      (q', match a
           case Unhandled => NoReply
           case NilItems(_) => NoReply
           case BadRequest => HandlerError
           case Answer(item) => if msg.header.wbit then Reply((f + 1) % 256, Some(item)) else NoReply)
  }

  /** `sendReply`: the message that goes out, or the encoder's error. */
  function ReplyMessage(req: Message, r: Outcome): Result<Message, EncodeError>
    requires r.Reply?
  {
    var h := req.header;
    if r.body.None? then Ok(DataMessage(h.sessionId, h.stream, r.function_, false, h.systemId, []))
    else if !Fits(r.body.value) then Err(LengthTooLarge)
    else Ok(DataMessage(h.sessionId, h.stream, r.function_, false, h.systemId, Wire(r.body.value)))
  }
}
