/** The GEM handler as an object: its stores are fields that the message handlers change, item lists are built in loops. */
module GemHandlerObject {
  import opened Outcomes
  import opened Bytes
  import opened Secs2Item
  import opened Secs2Decode
  import opened HsmsMessage
  import opened SecurityPolicy
  import opened GemEquipment
  import opened GemHandler

  /** Ranges over the keys of a map in an order nobody promises. */
  method ListIds(keys: set<uint32>) returns (ids: seq<uint32>)
    ensures Enumerates(ids, keys)
  {
    ids := [];
    var rest := keys;
    while rest != {}
      invariant rest <= keys
      invariant forall id | id in ids :: id in keys && id !in rest
      invariant forall id | id in keys :: id in rest || id in ids
      invariant forall i, j | 0 <= i < j < |ids| :: ids[i] != ids[j]
      decreases rest
    {
      var id :| id in rest;
      ids := ids + [id];
      rest := rest - {id};
    }
  }

  method BuildItems(ids: seq<uint32>, f: uint32 -> Item) returns (items: seq<Item>)
    ensures items == Each(ids, f)
  {
    items := [];
    for i := 0 to |ids|
      invariant |items| == i && forall j | 0 <= j < i :: items[j] == f(ids[j])
    {
      items := items + [f(ids[i])];
    }
  }

  /** The loop of S1F3 and S2F13 over the requested IDs. */
  method BuildRequested(xs: seq<Item>, f: uint32 -> Item) returns (items: Option<seq<Item>>)
    requires Readable(xs)
    ensures items == EachRequested(xs, f)
  {
    var out: seq<Item> := [];
    for i := 0 to |xs|
      invariant |out| == i && Readable(xs[i..])
      invariant forall j | 0 <= j < i :: Indexable(xs[j]) && FirstId(xs[j]).Some? && out[j] == f(FirstId(xs[j]).value)
    {
      assert xs[i..][0] == xs[i] && xs[i..][1..] == xs[i + 1..];
      var ids := xs[i].ToUint64s();
      if ids.None? {
        assert xs[i] in xs && FirstId(xs[i]).None?;
        return None;
      }
      out := out + [f(ids.value[0] % 0x1_0000_0000)];
    }
    items := Some(out);
    assert out == EachRequested(xs, f).value;
  }

  /** Only the values of f matter. */
  lemma SameAnswer(data: seq<byte>, ids: seq<uint32>, f: uint32 -> Item, g: uint32 -> Item)
    requires Decoded(data).Ok? ==> Readable(Decoded(data).value.Items())
    requires forall id: uint32 :: f(id) == g(id)
    ensures ListOrRequested(data, ids, f) == ListOrRequested(data, ids, g)
  {
    hide Decoded, Readable;
    assert Each(ids, f) == Each(ids, g);
    if Decoded(data).Ok? {
      var a, b := EachRequested(Decoded(data).value.Items(), f), EachRequested(Decoded(data).value.Items(), g);
      assert a.Some? ==> a.value == b.value;
    }
  }

  /** What S1F3 and S2F13 have in common. */
  method AnswerRequest(data: seq<byte>, ids: seq<uint32>, f: uint32 -> Item) returns (a: Answer)
    requires Decoded(data).Ok? ==> Readable(Decoded(data).value.Items())
    ensures a == ListOrRequested(data, ids, f)
  {
    hide Decoded, Readable;
    if |data| == 0 {
      var items := BuildItems(ids, f);
      return Answer(ListItem(items));
    }
    var body := Decode(data);
    if body.Err? {
      return BadRequest;
    }
    if !body.value.ListItem? && body.value.Len() > 0 {
      return NilItems(body.value.Len());
    }
    var items := BuildRequested(body.value.Items(), f);
    a := if items.None? then BadRequest else Answer(ListItem(items.value));
  }

  method ReadIds(x: Item) returns (ids: seq<uint32>)
    requires IdList(x)
    ensures ids == IdsOf(x)
  {
    ids := seq(x.Len(), _ => 0);
    for i := 0 to |x.Items()|
      invariant |ids| == x.Len()
      invariant forall j | 0 <= j < i :: ids[j] == IdsOf(x)[j]
      invariant forall j | i <= j < |ids| :: ids[j] == 0
    {
      var c := x.Items()[i];
      assert Indexable(c);
      if c.ToUint64s().Some? {
        ids := ids[i := c.ToUint64s().value[0] % 0x1_0000_0000];
      }
    }
  }

  class Handler {
    const mdln: seq<byte>
    const softrev: seq<byte>
    var machine: StateMachine
    var svs: map<uint32, Variable>
    var ecs: map<uint32, Constant>
    var events: map<uint32, Event>
    var reports: map<uint32, seq<uint32>>
    var alarms: map<uint32, Alarm>
    var commands: set<seq<byte>>
    var executed: seq<Command>
    var policy: Option<Policy>

    ghost function View(): Equipment
      reads this
    {
      Equipment(mdln, softrev, machine, svs, ecs, events, reports, alarms, commands, executed)
    }

    /** `NewHandler`: empty stores under the monitor policy. */
    constructor (mdln: seq<byte>, softrev: seq<byte>)
      ensures View() == Equipment(mdln, softrev, StateMachine(CommDisabled, OfflineEquipment), map[], map[], map[], map[], map[], {}, [])
      ensures policy == Some(MONITOR_POLICY)
    {
      this.mdln, this.softrev := mdln, softrev;
      machine := StateMachine(CommDisabled, OfflineEquipment);
      svs, ecs, events, reports, alarms, commands, executed := map[], map[], map[], map[], map[], {}, [];
      policy := Some(MONITOR_POLICY);
    }

    method HandleS2F15(body: Item) returns (reply: Item)
      requires Shaped(2, 15, body)
      modifies this`ecs
      ensures ecs == SetConstants(old(ecs), body.Items()) && reply == Ack(0)
    {
      var pairs := body.Items();
      for i := 0 to |pairs|
        invariant SetConstants(ecs, pairs[i..]) == SetConstants(old(ecs), pairs)
      {
        var pair := pairs[i];
        assert Pair(pair) && pairs[i..][1..] == pairs[i + 1..];
        if pair.Len() < 2 {
          continue;
        }
        var ecids := pair.items[0].ToUint64s();
        if ecids.None? {
          continue;
        }
        ecs := SetEC(ecs, ecids.value[0] % 0x1_0000_0000, pair.items[1]);
      }
      reply := Ack(0);
    }

    method DefineAll(defs: seq<Item>)
      requires forall d | d in defs :: Definition(d)
      modifies this`reports
      ensures reports == DefineReports(old(reports), defs)
    {
      for i := 0 to |defs|
        invariant DefineReports(reports, defs[i..]) == DefineReports(old(reports), defs)
      {
        var def := defs[i];
        assert Definition(def) && defs[i..][1..] == defs[i + 1..];
        if def.Len() < 2 {
          continue;
        }
        var rptids := def.items[0].ToUint64s();
        if rptids.None? {
          continue;
        }
        var rptid := rptids.value[0] % 0x1_0000_0000;
        if def.items[1].Len() == 0 {
          reports := reports - {rptid};
          continue;
        }
        var vids := ReadIds(def.items[1]);
        reports := reports[rptid := vids];
      }
    }

    method HandleS2F33(body: Item) returns (reply: Item)
      requires Shaped(2, 33, body)
      modifies this`reports, this`events
      ensures (View(), Answer(reply)) == Collection(old(View()), 33, body)
    {
      hide DefineReports;
      if body.Len() < 2 {
        return Ack(1);
      }
      var reportList := body.items[1];
      if reportList.Len() == 0 {
        reports := map[];
        events := UnlinkAll(events);
        return Ack(0);
      }
      DefineAll(reportList.Items());
      reply := Ack(0);
    }

    method HandleS2F35(body: Item) returns (reply: Item)
      requires Shaped(2, 35, body)
      modifies this`events
      ensures (View(), Answer(reply)) == Collection(old(View()), 35, body)
    {
      if body.Len() < 2 {
        return Ack(1);
      }
      var links := body.items[1].Items();
      for i := 0 to |links|
        invariant LinkReports(events, reports, links[i..]) == LinkReports(old(events), reports, links)
      {
        var link := links[i];
        assert Definition(link) && links[i..][1..] == links[i + 1..];
        if link.Len() < 2 {
          continue;
        }
        var ceids := link.items[0].ToUint64s();
        if ceids.None? {
          continue;
        }
        var rptids := ReadIds(link.items[1]);
        events := LinkEvent(events, reports, ceids.value[0] % 0x1_0000_0000, rptids);
      }
      reply := Ack(0);
    }

    method HandleS2F37(body: Item) returns (reply: Item)
      requires Shaped(2, 37, body)
      modifies this`events
      ensures (View(), Answer(reply)) == Collection(old(View()), 37, body)
    {
      if body.Len() < 2 {
        return Ack(1);
      }
      var flags := body.items[0].ToBooleans();
      if flags.None? {
        return Ack(1);
      }
      var enabled := |flags.value| > 0 && flags.value[0];
      var ceidList := body.items[1];
      if ceidList.Len() == 0 {
        events := EnableAllEvents(events, enabled);
        return Ack(0);
      }
      var xs := ceidList.Items();
      for i := 0 to |xs|
        invariant EnableEvents(events, xs[i..], enabled) == EnableEvents(old(events), xs, enabled)
      {
        assert Indexable(xs[i]) && xs[i..][1..] == xs[i + 1..];
        var ceids := xs[i].ToUint64s();
        if ceids.None? {
          continue;
        }
        events := EnableEvent(events, ceids.value[0] % 0x1_0000_0000, enabled);
      }
      reply := Ack(0);
    }

    method ReadParam(p: Item) returns (param: seq<(seq<byte>, Item)>)
      requires p.Len() >= 2 ==> p.ListItem?
      ensures param == ParamOf(p)
    {
      if p.Len() < 2 {
        return [];
      }
      var text := p.items[0].ToText(Ascii);
      param := [(if text.Some? then text.value else [], p.items[1])];
    }

    method ReadParams(xs: seq<Item>) returns (params: seq<(seq<byte>, Item)>)
      requires forall p | p in xs :: p.Len() >= 2 ==> p.ListItem?
      ensures params == Params(xs)
    {
      hide ParamOf;
      params := [];
      for i := 0 to |xs|
        invariant params + Params(xs[i..]) == Params(xs)
      {
        assert xs[i] in xs && xs[i..][1..] == xs[i + 1..];
        var param := ReadParam(xs[i]);
        assert (params + param) + Params(xs[i + 1..]) == params + (param + Params(xs[i + 1..]));
        params := params + param;
      }
      assert params + [] == params;
    }

    /** `status` is what the command's registered handler answers, if it runs. */
    method HandleS2F41(body: Item, status: byte) returns (reply: Item)
      requires Shaped(2, 41, body)
      modifies this`executed
      ensures (View(), Answer(reply)) == RemoteCommand(old(View()), body, Choice([], status))
    {
      hide Params;
      if body.Len() < 2 {
        return CommandReply(COMMAND_PARAMETER_ERROR);
      }
      var name := body.items[0].ToText(Ascii);
      if name.None? {
        return CommandReply(COMMAND_PARAMETER_ERROR);
      }
      var params := ReadParams(body.items[1].Items());
      if name.value in commands {
        executed := executed + [(name.value, params)];
        return CommandReply(status);
      }
      reply := CommandReply(COMMAND_INVALID);
    }

    method HandleS5F3(body: Item) returns (reply: Item)
      requires Shaped(5, 3, body)
      modifies this`alarms
      ensures (View(), Answer(reply)) == EnableAlarm(old(View()), body)
    {
      if body.Len() < 2 {
        return Ack(1);
      }
      var aled := body.items[0].ToText(Binary);
      if aled.None? {
        return Ack(1);
      }
      var enabled := |aled.value| > 0 && aled.value[0] >= 128;
      var alids := body.items[1].ToUint64s();
      if alids.None? {
        return Ack(1);
      }
      var alid := alids.value[0] % 0x1_0000_0000;
      if alid !in alarms {
        return Ack(1);
      }
      alarms := alarms[alid := alarms[alid].(enabled := enabled)];
      reply := Ack(0);
    }

    method HandleS1F3(data: seq<byte>, ids: seq<uint32>) returns (a: Answer)
      requires ShapedData(1, 3, data)
      ensures (View(), a) == Stream1(View(), 3, data, Choice(ids, 0))
    {
      hide Decoded, ValueToItem, Readable, ListOrRequested;
      ghost var q := View();
      var variables := svs;
      var f := (id: uint32) => ValueToItem(if id in variables then variables[id].value else Nil);
      a := AnswerRequest(data, ids, f);
      SameAnswer(data, ids, f, (id: uint32) => StatusItem(q, id));
    }

    method HandleStream1(f: byte, data: seq<byte>, ids: seq<uint32>) returns (a: Answer)
      requires ShapedData(1, f, data)
      modifies this`machine
      ensures (View(), a) == Stream1(old(View()), f, data, Choice(ids, 0))
    {
      ghost var q := View();
      var variables := svs;
      if f == 1 {
        a := Answer(ListItem([Text(mdln), Text(softrev)]));
      } else if f == 3 {
        a := HandleS1F3(data, ids);
      } else if f == 11 {
        var items := BuildItems(ids, (id: uint32) =>
          if id in variables then ListItem([U4Of(id), Text(variables[id].name), Text(variables[id].units)]) else ListItem([]));
        assert items == Each(ids, (id: uint32) => StatusName(q, id));
        a := Answer(ListItem(items));
      } else if f == 13 {
        machine := Perform(machine, EnableComm);
        machine := Perform(machine, CommEstablished);
        a := Answer(ListItem([Ack(0), ListItem([Text(mdln), Text(softrev)])]));
      } else if f == 15 {
        var ok := Allowed(machine, GoOffline);
        machine := Perform(machine, GoOffline);
        a := Answer(Ack(if ok then 0 else 1));
      } else if f == 17 {
        var ok := Allowed(machine, GoOnlineRemote);
        machine := Perform(machine, GoOnlineRemote);
        a := Answer(Ack(if ok then 0 else 1));
      } else {
        a := Unhandled;
      }
    }

    method ReadConstants(f: byte, data: seq<byte>, ids: seq<uint32>) returns (a: Answer)
      requires (f == 13 || f == 29) && ShapedData(2, f, data)
      ensures a == Stream2Read(View(), f, data, Choice(ids, 0))
    {
      hide Decoded, ValueToItem, Readable, ListOrRequested;
      ghost var q := View();
      var constants := ecs;
      if f == 29 {
        var items := BuildItems(ids, (id: uint32) =>
          if id in constants then
            var c := constants[id];
            ListItem([U4Of(id), Text(c.name), ValueToItem(c.min), ValueToItem(c.max), ValueToItem(c.value), Text(c.units)])
          else ListItem([]));
        assert items == Each(ids, (id: uint32) => ConstantName(q, id));
        return Answer(ListItem(items));
      }
      var f := (id: uint32) => if id in constants then ValueToItem(constants[id].value) else ListItem([]);
      a := AnswerRequest(data, ids, f);
      SameAnswer(data, ids, f, (id: uint32) => ConstantItem(q, id));
    }

    method HandleStream2(f: byte, data: seq<byte>, ids: seq<uint32>, status: byte) returns (a: Answer)
      requires ShapedData(2, f, data)
      modifies this`ecs, this`reports, this`events, this`executed
      ensures (View(), a) == Stream2(old(View()), f, data, Choice(ids, status))
    {
      if f == 13 || f == 29 {
        a := ReadConstants(f, data, ids);
        return;
      }
      if f !in {15, 33, 35, 37, 41} {
        return Unhandled;
      }
      var body := Decode(data);
      if body.Err? {
        return BadRequest;
      }
      var reply: Item;
      if f == 15 {
        reply := HandleS2F15(body.value);
      } else if f == 33 {
        reply := HandleS2F33(body.value);
      } else if f == 35 {
        reply := HandleS2F35(body.value);
      } else if f == 37 {
        reply := HandleS2F37(body.value);
      } else {
        reply := HandleS2F41(body.value, status);
      }
      a := Answer(reply);
    }

    method OnlyEnabled(ids: seq<uint32>) returns (listed: seq<uint32>)
      ensures listed == EnabledIds(View(), ids)
    {
      listed := [];
      for i := 0 to |ids|
        invariant listed + EnabledIds(View(), ids[i..]) == EnabledIds(View(), ids)
      {
        assert ids[i..][1..] == ids[i + 1..];
        if ids[i] in alarms && alarms[ids[i]].enabled {
          listed := listed + [ids[i]];
        }
      }
      assert listed + [] == listed;
    }

    method ListAlarms(ids: seq<uint32>) returns (items: seq<Item>)
      ensures
        var q := View();
        items == Each(ids, (id: uint32) => AlarmItem(q, id))
    {
      ghost var q := View();
      var table := alarms;
      items := BuildItems(ids, (id: uint32) =>
        if id in table then ListItem([Ack(AlarmCode(table[id])), U4Of(id), Text(table[id].text)]) else ListItem([]));
      assert items == Each(ids, (id: uint32) => AlarmItem(q, id));
    }

    method HandleStream5(f: byte, data: seq<byte>, ids: seq<uint32>) returns (a: Answer)
      requires ShapedData(5, f, data)
      modifies this`alarms
      ensures (View(), a) == Stream5(old(View()), f, data, Choice(ids, 0))
    {
      ghost var q := View();
      if f == 3 {
        var body := Decode(data);
        if body.Err? {
          return BadRequest;
        }
        var reply := HandleS5F3(body.value);
        a := Answer(reply);
      } else if f == 5 || f == 7 {
        var listed := ids;
        if f == 7 {
          listed := OnlyEnabled(ids);
        }
        var items := ListAlarms(listed);
        assert items == Each(listed, (id: uint32) => AlarmItem(q, id));
        a := Answer(ListItem(items));
      } else {
        a := Unhandled;
      }
    }

    /** `HandleMessage`: policy, then the built-in switch, then the reply. */
    method HandleMessage(msg: Message, status: byte) returns (out: Outcome, ch: Choice)
      requires ShapedFor(policy, msg)
      modifies this
      ensures Enumerates(ch.ids, Listed(old(View()), msg.header.stream)) && ch.status == status
      ensures policy == old(policy)
      ensures (View(), out) == Handle(old(View()), policy, msg, ch)
    {
      var s, f := msg.header.stream, msg.header.function_;
      var ids := ListIds(if s == 1 then svs.Keys else if s == 2 then ecs.Keys else alarms.Keys);
      ch := Choice(ids, status);
      if msg.SType() != DATA_MESSAGE {
        return NoReply, ch;
      }
      if !IsAllowed(policy, s, f) {
        return if msg.header.wbit then Reply(0, None) else NoReply, ch;
      }
      var a := Unhandled;
      if s == 1 {
        a := HandleStream1(f, msg.data, ids);
      } else if s == 2 {
        a := HandleStream2(f, msg.data, ids, status);
      } else if s == 5 {
        a := HandleStream5(f, msg.data, ids);
      }
      match a
      case Unhandled => out := NoReply;
      case NilItems(_) => out := NoReply;
      case BadRequest => out := HandlerError;
      case Answer(item) => out := if msg.header.wbit then Reply((f + 1) % 256, Some(item)) else NoReply;
    }
  }
}
