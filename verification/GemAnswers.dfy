/** What the host reads in each reply, and what each request does, told from the host's side. */
module GemAnswers {
  import opened Outcomes
  import opened Bytes
  import opened Secs2Item
  import opened Secs2Encode
  import opened Secs2Decode
  import opened Secs2Codec
  import opened HsmsMessage
  import opened SecurityPolicy
  import opened GemEquipment
  import opened GemHandler
  import opened GemTheorems
  import opened GemCollections

  // ----- Reading values back -----

  /** The value a single-element item stands for; anything else stands for itself. */
  function ItemValue(x: Item): Value {
    match x
    case ListItem(items) => if items == [] then Nil else OfItem(x)
    case TextItem(Ascii, _) => OfString(x.Content())
    case TextItem(Binary, _) => OfBytes(x.Content())
    case BoolItem(flags) => if |flags| == 1 then OfBool(flags[0]) else OfItem(x)
    case NumItem(k, values) =>
      if |values| != 1 then OfItem(x)
      else
        match k
        case I4 => OfInt32(values[0])
        case I8 => OfInt64(values[0])
        case U4 => OfUint32(values[0])
        case U8 => OfUint64(values[0])
        case F4 => OfFloat32(values[0])
        case F8 => OfFloat64(values[0])
        case _ => OfItem(x)
  }

  /** The item the host decodes is the stored value; an int comes as its low 32 bits, other types as their printed text. */
  predicate ReadsAs(x: Item, v: Value) {
    match v
    case OfItem(y) => x == Norm(y)
    case OfInt(n) =>
      ItemValue(x).OfInt32? && -0x8000_0000 <= ItemValue(x).n < 0x8000_0000 && (ItemValue(x).n - n) % 0x1_0000_0000 == 0
    case Other(s) => ItemValue(x) == OfString(s)
    case _ => ItemValue(x) == v
  }

  lemma ValueIsRead(v: Value)
    ensures ReadsAs(Norm(ValueToItem(v)), v)
  {
    PowersOf256();
    if v.Nil? {
      assert NormAll([]) == [];
    }
  }

  /** The number a request names: the first of its unsigned values, as 32 bits. */
  lemma RequestedId(k: NumKind, v: int, more: seq<int>)
    ensures Indexable(NumItem(k, [v] + more))
    ensures k in {U1, U2, U4, U8} ==> FirstId(NumItem(k, [v] + more)) == Some(v % 0x1_0000_0000)
    ensures k !in {U1, U2, U4, U8} ==> FirstId(NumItem(k, [v] + more)) == None
  {
  }

  // ----- S1F3 and S2F13: values -----

  predicate StatusReads(x: Item, svs: map<uint32, Variable>, id: uint32) {
    if id in svs then ReadsAs(x, svs[id].value) else x == ListItem([])
  }

  predicate ConstantReads(x: Item, ecs: map<uint32, Constant>, id: uint32) {
    if id in ecs then ReadsAs(x, ecs[id].value) else x == ListItem([])
  }

  lemma StatusItemReads(q: Equipment, id: uint32)
    ensures StatusReads(Norm(StatusItem(q, id)), q.svs, id)
  {
    ValueIsRead(if id in q.svs then q.svs[id].value else Nil);
    assert NormAll([]) == [];
  }

  lemma ConstantItemReads(q: Equipment, id: uint32)
    ensures ConstantReads(Norm(ConstantItem(q, id)), q.ecs, id)
  {
    if id in q.ecs {
      ValueIsRead(q.ecs[id].value);
    }
    assert NormAll([]) == [];
  }

  /** A request for all: one item per listed variable, or constant, reading as its value; the list has each of them once. */
  lemma AllValuesAreRead(q: Equipment, ch: Choice)
    requires ShapedData(1, 3, []) && ShapedData(2, 13, [])
    ensures
      var a := BuiltIn(q, 1, 3, [], ch).1;
      && a.Answer? && a.item.ListItem?
      && var xs := NormAll(a.item.items);
      && |xs| == |ch.ids| && forall i | 0 <= i < |xs| :: StatusReads(xs[i], q.svs, ch.ids[i])
    ensures
      var a := BuiltIn(q, 2, 13, [], ch).1;
      && a.Answer? && a.item.ListItem?
      && var xs := NormAll(a.item.items);
      && |xs| == |ch.ids| && forall i | 0 <= i < |xs| :: ConstantReads(xs[i], q.ecs, ch.ids[i])
  {
    hide StatusReads, ConstantReads, StatusItem, ConstantItem, Norm;
    forall id: uint32 { StatusItemReads(q, id); }
    forall id: uint32 { ConstantItemReads(q, id); }
  }

  /** A request that names its IDs: item by item, the value of the variable asked for. */
  lemma RequestedStatusIsRead(q: Equipment, data: seq<byte>, ch: Choice)
    requires ShapedData(1, 3, data) && data != [] && Decoded(data).Ok? && BuiltIn(q, 1, 3, data, ch).1.Answer?
    ensures
      var ids, item := Decoded(data).value.Items(), BuiltIn(q, 1, 3, data, ch).1.item;
      && item.ListItem?
      && var xs := NormAll(item.items);
      && |xs| == |ids|
      && (forall i | 0 <= i < |xs| ::
            Indexable(ids[i]) && FirstId(ids[i]).Some? && StatusReads(xs[i], q.svs, FirstId(ids[i]).value))
  {
    hide StatusReads, StatusItem, Norm, Decoded, FirstId, Readable;
    forall id: uint32 { StatusItemReads(q, id); }
  }

  lemma RequestedConstantsAreRead(q: Equipment, data: seq<byte>, ch: Choice)
    requires ShapedData(2, 13, data) && data != [] && Decoded(data).Ok? && BuiltIn(q, 2, 13, data, ch).1.Answer?
    ensures
      var ids, item := Decoded(data).value.Items(), BuiltIn(q, 2, 13, data, ch).1.item;
      && item.ListItem?
      && var xs := NormAll(item.items);
      && |xs| == |ids|
      && (forall i | 0 <= i < |xs| ::
            Indexable(ids[i]) && FirstId(ids[i]).Some? && ConstantReads(xs[i], q.ecs, FirstId(ids[i]).value))
  {
    hide ConstantReads, ConstantItem, Norm, Decoded, FirstId, Readable;
    forall id: uint32 { ConstantItemReads(q, id); }
  }

  // ----- Entries of name lists and alarm lists -----

  predicate IsText(x: Item, s: seq<byte>) {
    x.ToText(Ascii) == Some(s)
  }

  predicate IsId(x: Item, id: uint32) {
    x == NumItem(U4, [id])
  }

  /** L{SVID, SVNAME, UNITS}. */
  predicate IsStatusName(x: Item, id: uint32, v: Variable) {
    x.ListItem? && |x.items| == 3 && IsId(x.items[0], id) && IsText(x.items[1], v.name) && IsText(x.items[2], v.units)
  }

  /** L{ECID, ECNAME, ECMIN, ECMAX, ECDEF, UNITS}. */
  predicate IsConstantName(x: Item, id: uint32, c: Constant) {
    && x.ListItem? && |x.items| == 6 && IsId(x.items[0], id) && IsText(x.items[1], c.name)
    && ReadsAs(x.items[2], c.min) && ReadsAs(x.items[3], c.max) && ReadsAs(x.items[4], c.value) && IsText(x.items[5], c.units)
  }

  /** L{ALCD, ALID, ALTX}: bit 7 of ALCD says that the alarm is set, the others are its severity. */
  predicate IsAlarmEntry(x: Item, id: uint32, a: Alarm) {
    && x.ListItem? && |x.items| == 3 && IsId(x.items[1], id) && IsText(x.items[2], a.text)
    && x.items[0].ToText(Binary).Some? && |x.items[0].Content()| == 1
    && var alcd := x.items[0].Content()[0];
    alcd % 128 == a.severity % 128 && (alcd >= 128 <==> a.set_ || a.severity >= 128)
  }

  lemma StatusNameReads(q: Equipment, id: uint32)
    requires id in q.svs
    ensures IsStatusName(Norm(StatusName(q, id)), id, q.svs[id])
  {
    var v := q.svs[id];
    NormOfThree(U4Of(id), Text(v.name), Text(v.units));
  }

  lemma NormOfThree(a: Item, b: Item, c: Item)
    ensures Norm(ListItem([a, b, c])) == ListItem([Norm(a), Norm(b), Norm(c)])
  {
    assert NormAll([a, b, c]) == [Norm(a), Norm(b), Norm(c)];
  }

  lemma ConstantNameReads(q: Equipment, id: uint32)
    requires id in q.ecs
    ensures IsConstantName(Norm(ConstantName(q, id)), id, q.ecs[id])
  {
    var c := q.ecs[id];
    ValueIsRead(c.min);
    ValueIsRead(c.max);
    ValueIsRead(c.value);
    hide ReadsAs, ValueToItem;
    var xs := ConstantName(q, id).items;
    assert |xs| == 6 && NormAll(xs)[0] == Norm(xs[0]) && NormAll(xs)[5] == Norm(xs[5]);
  }

  /** The entry of an alarm in an S5F6 or S5F8 body, as the host reads it. */
  lemma AlarmEntryReads(q: Equipment, id: uint32)
    requires id in q.alarms
    ensures IsAlarmEntry(Norm(AlarmItem(q, id)), id, q.alarms[id])
  {
    var a := q.alarms[id];
    NormOfThree(Ack(AlarmCode(a)), U4Of(id), Text(a.text));
  }

  /** S1F11 and S2F29 describe every variable and every constant once. */
  lemma NamesAreRead(q: Equipment, data: seq<byte>, ch: Choice)
    requires ShapedData(1, 11, data) && ShapedData(2, 29, data)
    ensures
      Enumerates(ch.ids, q.svs.Keys) ==>
        var a := BuiltIn(q, 1, 11, data, ch).1;
        && a.Answer? && a.item.ListItem?
        && var xs := NormAll(a.item.items);
        |xs| == |ch.ids| && forall i | 0 <= i < |xs| :: ch.ids[i] in q.svs && IsStatusName(xs[i], ch.ids[i], q.svs[ch.ids[i]])
    ensures
      Enumerates(ch.ids, q.ecs.Keys) ==>
        var a := BuiltIn(q, 2, 29, data, ch).1;
        && a.Answer? && a.item.ListItem?
        && var xs := NormAll(a.item.items);
        |xs| == |ch.ids| && forall i | 0 <= i < |xs| :: ch.ids[i] in q.ecs && IsConstantName(xs[i], ch.ids[i], q.ecs[ch.ids[i]])
  {
    hide IsStatusName, IsConstantName, StatusName, ConstantName, Norm, Decoded;
    forall id: uint32 | id in q.svs { StatusNameReads(q, id); }
    forall id: uint32 | id in q.ecs { ConstantNameReads(q, id); }
  }

  // ----- S1F1, S1F13, S1F15, S1F17 -----

  predicate IsAck(x: Item, code: int) {
    x.ToText(Binary).Some? && x.Content() == [code]
  }

  /** S1F2 is L{MDLN, SOFTREV}, S1F14 is L{COMMACK 0, L{MDLN, SOFTREV}}. */
  lemma ModelIsRead(q: Equipment, data: seq<byte>, ch: Choice)
    requires ShapedData(1, 1, data) && ShapedData(1, 13, data)
    ensures
      var (q', a) := BuiltIn(q, 1, 1, data, ch);
      && q' == q && a.Answer?
      && var x := Norm(a.item);
      x.ListItem? && |x.items| == 2 && IsText(x.items[0], q.mdln) && IsText(x.items[1], q.softrev)
    ensures
      var a := BuiltIn(q, 1, 13, data, ch).1;
      && a.Answer?
      && var x := Norm(a.item);
      && x.ListItem? && |x.items| == 2 && IsAck(x.items[0], 0) && x.items[1].ListItem? && |x.items[1].items| == 2
      && IsText(x.items[1].items[0], q.mdln) && IsText(x.items[1].items[1], q.softrev)
  {
    hide Decoded;
    NormOfPair(Text(q.mdln), Text(q.softrev));
    NormOfPair(Ack(0), ListItem([Text(q.mdln), Text(q.softrev)]));
  }

  /** What establishing communication, going offline and going online do, and when they are acknowledged. */
  lemma StateRequests(q: Equipment, data: seq<byte>, ch: Choice)
    requires ShapedData(1, 13, data) && ShapedData(1, 15, data) && ShapedData(1, 17, data)
    ensures BuiltIn(q, 1, 13, data, ch).0 ==
            if q.machine.comm.CommDisabled? || q.machine.comm.CommWaitCra?
            then q.(machine := StateMachine(CommCommunicating, q.machine.control)) else q
    ensures
      var (q', a) := BuiltIn(q, 1, 15, data, ch);
      a.Answer? &&
      if q.machine.control.OnlineLocal? || q.machine.control.OnlineRemote?
      then IsAck(a.item, 0) && q' == q.(machine := StateMachine(q.machine.comm, OfflineEquipment))
      else IsAck(a.item, 1) && q' == q
    ensures
      var (q', a) := BuiltIn(q, 1, 17, data, ch);
      a.Answer? &&
      if q.machine.comm.CommCommunicating?
      then IsAck(a.item, 0) && q' == q.(machine := StateMachine(CommCommunicating, OnlineRemote))
      else IsAck(a.item, 1) && q' == q
  {
    hide Decoded;
  }

  // ----- S2F33, S2F37, S2F41, S5F3 -----

  /** S2F33 with an empty report list deletes every report and every link. */
  lemma AllReportsDeleted(q: Equipment, data: seq<byte>, ch: Choice, x: Item)
    requires ShapedData(2, 33, data) && Decoded(data) == Ok(ListItem([x, ListItem([])]))
    ensures
      var (q', a) := BuiltIn(q, 2, 33, data, ch);
      && a.Answer? && IsAck(a.item, 0) && q' == q.(reports := map[], events := q'.events)
      && q'.events.Keys == q.events.Keys
      && forall id | id in q.events :: q'.events[id] == Event(q.events[id].enabled, [])
  {
    hide Decoded;
  }

  /** S2F37 with CEED b: the listed events, or all if none is listed, are enabled exactly if b. */
  lemma EventsAreSwitched(q: Equipment, data: seq<byte>, ch: Choice, b: bool, xs: seq<Item>, id: uint32)
    requires ShapedData(2, 37, data) && Decoded(data) == Ok(ListItem([BoolItem([b]), ListItem(xs)]))
    ensures
      var (q', a) := BuiltIn(q, 2, 37, data, ch);
      && a.Answer? && IsAck(a.item, 0) && q' == q.(events := q'.events) && q'.events.Keys == q.events.Keys
      && (id in q.events ==>
            q'.events[id] == if xs == [] || Lists(xs, id) then Event(b, q.events[id].reports) else q.events[id])
  {
    hide Decoded;
    assert Shaped(2, 37, ListItem([BoolItem([b]), ListItem(xs)]));
    assert IdList(ListItem(xs)) && forall x | x in xs :: Indexable(x);
    ListedEventsSwitch(q.events, xs, b, id);
    hide EnableEvents;
  }

  /** L{CPNAME, CPVAL} entries. */
  predicate AreParameters(ps: seq<Item>, names: seq<seq<byte>>, values: seq<Item>) {
    && |ps| == |names| == |values|
    && forall i | 0 <= i < |ps| ::
         ps[i].ListItem? && |ps[i].items| == 2 && IsText(ps[i].items[0], names[i]) && ps[i].items[1] == values[i]
  }

  lemma {:induction false} ParametersAreRead(ps: seq<Item>, names: seq<seq<byte>>, values: seq<Item>)
    requires AreParameters(ps, names, values)
    ensures forall p | p in ps :: p.Len() >= 2 ==> p.ListItem?
    ensures |Params(ps)| == |ps| && forall i | 0 <= i < |ps| :: Params(ps)[i] == (names[i], values[i])
  {
    if ps != [] {
      assert ps[0].ListItem? && |ps[0].items| == 2;
      ParametersAreRead(ps[1..], names[1..], values[1..]);
      assert ParamOf(ps[0]) == [(names[0], values[0])];
      assert ps == [ps[0]] + ps[1..];
    }
  }

  predicate IsCommandReply(x: Item, status: int) {
    x.ListItem? && |x.items| == 2 && IsAck(x.items[0], status) && x.items[1] == ListItem([])
  }

  /** A registered command runs with exactly the parameters sent, and its status comes back; any other name gets status 1. */
  lemma CommandArrives(
      q: Equipment, data: seq<byte>, ch: Choice, rcmd: Item, name: seq<byte>, ps: seq<Item>, names: seq<seq<byte>>, values: seq<Item>)
    requires ShapedData(2, 41, data) && Decoded(data) == Ok(ListItem([rcmd, ListItem(ps)]))
    requires IsText(rcmd, name) && AreParameters(ps, names, values)
    ensures
      var (q', a) := BuiltIn(q, 2, 41, data, ch);
      && a.Answer? && q' == q.(executed := q'.executed)
      && (name !in q.commands ==> q' == q && IsCommandReply(a.item, 1))
      && (name in q.commands ==>
            && IsCommandReply(a.item, ch.status) && |q'.executed| == |q.executed| + 1
            && q'.executed[..|q.executed|] == q.executed
            && var (ran, params) := q'.executed[|q.executed|];
            && ran == name && |params| == |ps| && forall i | 0 <= i < |ps| :: params[i] == (names[i], values[i]))
  {
    hide Decoded;
    assert Shaped(2, 41, ListItem([rcmd, ListItem(ps)]));
    ParametersAreRead(ps, names, values);
    hide Params;
  }

  /** A malformed command gets status 3 and runs nothing. */
  lemma BadCommand(q: Equipment, data: seq<byte>, ch: Choice)
    requires ShapedData(2, 41, data) && Decoded(data).Ok?
    requires
      var body := Decoded(data).value;
      body.Len() < 2 || (body.ListItem? && body.items[0].ToText(Ascii).None?)
    ensures
      var (q', a) := BuiltIn(q, 2, 41, data, ch);
      q' == q && a.Answer? && IsCommandReply(a.item, 3)
  {
    hide Decoded;
  }

  /** S5F3 enables a known alarm exactly if bit 7 of ALED is set, and touches nothing else. */
  lemma AlarmIsSwitched(q: Equipment, data: seq<byte>, ch: Choice, aled: byte, more: seq<byte>, k: NumKind, id: uint32)
    requires ShapedData(5, 3, data) && k in {U1, U2, U4, U8}
    requires Decoded(data) == Ok(ListItem([TextItem(Binary, Some([aled] + more)), NumItem(k, [id])]))
    ensures
      var (q', a) := BuiltIn(q, 5, 3, data, ch);
      && a.Answer?
      && (id !in q.alarms ==> q' == q && IsAck(a.item, 1))
      && (id in q.alarms ==>
            && IsAck(a.item, 0) && q' == q.(alarms := q'.alarms) && q'.alarms.Keys == q.alarms.Keys
            && (forall other | other in q.alarms && other != id :: q'.alarms[other] == q.alarms[other])
            && q'.alarms[id] == q.alarms[id].(enabled := aled >= 128))
  {
    hide Decoded;
  }

  // ----- The state machine, from its history -----

  function AfterOps(sm: StateMachine, ops: seq<StateOp>): StateMachine
    decreases ops
  {
    if ops == [] then sm else AfterOps(Perform(sm, ops[0]), ops[1..])
  }

  /** The operations that took effect, in order. */
  function Effective(sm: StateMachine, ops: seq<StateOp>): seq<StateOp>
    decreases ops
  {
    if ops == [] then [] else (if Allowed(sm, ops[0]) then [ops[0]] else []) + Effective(Perform(sm, ops[0]), ops[1..])
  }

  /** The control state is what the last effective operation on it says. */
  function ControlFrom(was: ControlState, done: seq<StateOp>): ControlState {
    if done == [] then was
    else
      match done[|done| - 1]
      case GoOnlineLocal => OnlineLocal
      case GoOnlineRemote => OnlineRemote
      case GoOffline => OfflineEquipment
      case DisableComm => OfflineEquipment
      case _ => ControlFrom(was, done[..|done| - 1])
  }

  /** So is the communication state. */
  function CommFrom(was: CommState, done: seq<StateOp>): CommState {
    if done == [] then was
    else
      match done[|done| - 1]
      case EnableComm => CommWaitCra
      case RetryComm => CommWaitCra
      case CommEstablished => CommCommunicating
      case CommFailed => CommWaitDelay
      case DisableComm => CommDisabled
      case _ => CommFrom(was, done[..|done| - 1])
  }

  lemma {:induction false} FromLater(sm: StateMachine, op: StateOp, later: seq<StateOp>)
    requires Allowed(sm, op)
    ensures ControlFrom(sm.control, [op] + later) == ControlFrom(Perform(sm, op).control, later)
    ensures CommFrom(sm.comm, [op] + later) == CommFrom(Perform(sm, op).comm, later)
    decreases |later|
  {
    var n := |later|;
    if n == 0 {
      assert [op] + later == [op] && [op][..0] == [];
    } else {
      assert ([op] + later)[..n] == [op] + later[..n - 1] && ([op] + later)[n] == later[n - 1];
      FromLater(sm, op, later[..n - 1]);
    }
  }

  /** After any operations, both states are told by the effective ones alone. */
  lemma {:induction false} StateIsLastEffect(sm: StateMachine, ops: seq<StateOp>)
    ensures AfterOps(sm, ops).control == ControlFrom(sm.control, Effective(sm, ops))
    ensures AfterOps(sm, ops).comm == CommFrom(sm.comm, Effective(sm, ops))
    decreases ops
  {
    if ops != [] {
      var next := Perform(sm, ops[0]);
      StateIsLastEffect(next, ops[1..]);
      if Allowed(sm, ops[0]) {
        FromLater(sm, ops[0], Effective(next, ops[1..]));
      } else {
        assert [] + Effective(next, ops[1..]) == Effective(next, ops[1..]);
      }
    }
  }

  /** When the operations take effect (SEMI E30). */
  lemma EffectiveWhen(sm: StateMachine)
    ensures Allowed(sm, EnableComm) <==> sm.comm == CommDisabled
    ensures Allowed(sm, CommEstablished) <==> sm.comm == CommWaitCra
    ensures Allowed(sm, CommFailed) <==> sm.comm == CommWaitCra
    ensures Allowed(sm, RetryComm) <==> sm.comm == CommWaitDelay
    ensures Allowed(sm, GoOnlineLocal) <==> sm.comm == CommCommunicating
    ensures Allowed(sm, GoOnlineRemote) <==> sm.comm == CommCommunicating
    ensures Allowed(sm, GoOffline) <==> sm.control == OnlineLocal || sm.control == OnlineRemote
    ensures Allowed(sm, DisableComm)
  {
  }

  // ----- Denials, errors and unknown messages -----

  /** A denied message that wants a reply gets SnF0 without a body, under its own number, and changes nothing, whatever its body. */
  lemma DenialIsRead(q: Equipment, policy: Option<Policy>, msg: Message, ch: Choice)
    requires msg.SType() == DATA_MESSAGE && !IsAllowed(policy, msg.header.stream, msg.header.function_)
    ensures ShapedFor(policy, msg)
    ensures
      var (q', out) := Handle(q, policy, msg, ch);
      && q' == q && (out.Reply? <==> msg.header.wbit)
      && (out.Reply? ==>
            && ReplyMessage(msg, out).Ok?
            && var r := ReplyMessage(msg, out).value;
            && r.data == [] && r.header.function_ == 0 && r.header.stream == msg.header.stream && !r.header.wbit
            && r.SystemId() == msg.SystemId() && r.header.sessionId == msg.header.sessionId && r.SType() == DATA_MESSAGE)
  {
  }

  predicate DecodesFirst(s: byte, f: byte) {
    (s == 2 && f in {15, 33, 35, 37, 41}) || (s == 5 && f == 3)
  }

  /** A reply is sent only where one is wanted; a message that is unknown or cannot be decoded changes nothing and gets none. */
  lemma RepliesAreWanted(q: Equipment, policy: Option<Policy>, msg: Message, ch: Choice)
    requires ShapedFor(policy, msg)
    ensures Handle(q, policy, msg, ch).1.Reply? ==> msg.header.wbit && msg.SType() == DATA_MESSAGE
    ensures Admitted(policy, msg) && msg.header.stream !in {1, 2, 5} ==> Handle(q, policy, msg, ch) == (q, NoReply)
    ensures Admitted(policy, msg) && DecodesFirst(msg.header.stream, msg.header.function_) && Decoded(msg.data).Err? ==>
              Handle(q, policy, msg, ch) == (q, HandlerError)
  {
    hide Decoded, IsAllowed, Stream1, Collection, RemoteCommand, Stream2Read, SetConstants, EnableAlarm;
  }
}
