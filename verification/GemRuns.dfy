/** The GEM handler over whole runs: what a read-only policy protects, and what writing and reading constants mean. */
module GemRuns {
  import opened Outcomes
  import opened Bytes
  import opened Secs2Item
  import opened Secs2Encode
  import opened Secs2Decode
  import opened Secs2Codec
  import opened HsmsMessage
  import opened SecurityPolicy
  import opened GemEquipment
  import opened GemHandler
  import opened GemTheorems

  /** What happens to the equipment: a local call on the state machine, or a message from the host. */
  datatype Input = Local(op: StateOp) | Incoming(message: Message, choice: Choice)

  /** What the handler demands of an input: an admitted message has a body it can index. */
  predicate WellShaped(policy: Option<Policy>, x: Input) {
    x.Incoming? ==> ShapedFor(policy, x.message)
  }

  function Step(q: Equipment, policy: Option<Policy>, x: Input): Equipment
    requires WellShaped(policy, x)
  {
    match x
    case Local(op) => q.(machine := Perform(q.machine, op))
    case Incoming(m, ch) => Handle(q, policy, m, ch).0
  }

  ghost function Run(q: Equipment, policy: Option<Policy>, inputs: seq<Input>): Equipment
    requires forall x | x in inputs :: WellShaped(policy, x)
    decreases inputs
  {
    if inputs == [] then q
    else
      assert WellShaped(policy, inputs[0]);
      Run(Step(q, policy, inputs[0]), policy, inputs[1..])
  }

  // ----- Online implies communicating -----

  lemma MachineKeepsOnline(sm: StateMachine, op: StateOp)
    requires OnlineCommunicates(sm)
    ensures OnlineCommunicates(Perform(sm, op))
  {
  }

  /** A message moves the state machine by its own guarded methods only. */
  lemma MessageMovesMachine(q: Equipment, policy: Option<Policy>, m: Message, ch: Choice)
    requires ShapedFor(policy, m)
    ensures var sm, sm' := q.machine, Handle(q, policy, m, ch).0.machine;
            || sm' == sm
            || sm' == Perform(Perform(sm, EnableComm), CommEstablished)
            || sm' == Perform(sm, GoOffline)
            || sm' == Perform(sm, GoOnlineRemote)
  {
    hide Decoded, Shaped, IsAllowed, SetConstants, DefineReports, LinkReports, EnableEvents, Perform, Each, EachRequested;
  }

  /** Under any policy, every reachable state is online only while communicating. */
  lemma {:induction false} OnlineImpliesCommunicating(q: Equipment, policy: Option<Policy>, inputs: seq<Input>)
    requires forall x | x in inputs :: WellShaped(policy, x)
    requires OnlineCommunicates(q.machine)
    ensures OnlineCommunicates(Run(q, policy, inputs).machine)
    decreases inputs
  {
    if inputs != [] {
      var x := inputs[0];
      assert WellShaped(policy, x);
      match x {
        case Local(op) => MachineKeepsOnline(q.machine, op);
        case Incoming(m, ch) =>
          MessageMovesMachine(q, policy, m, ch);
          MachineKeepsOnline(q.machine, EnableComm);
          MachineKeepsOnline(Perform(q.machine, EnableComm), CommEstablished);
          MachineKeepsOnline(q.machine, GoOffline);
          MachineKeepsOnline(q.machine, GoOnlineRemote);
      }
      hide Handle, Perform, OnlineCommunicates;
      OnlineImpliesCommunicating(Step(q, policy, x), policy, inputs[1..]);
    }
  }

  // ----- Read-only sessions -----

  /** Everything a host could change except the communication state. */
  predicate Untouched(q: Equipment, q': Equipment) {
    q' == q.(machine := q.machine.(comm := q'.machine.comm))
  }

  lemma MonitoredMessage(q: Equipment, policy: Option<Policy>, m: Message, ch: Choice)
    requires ShapedFor(policy, m) && Passive(policy)
    ensures Untouched(q, Handle(q, policy, m, ch).0)
  {
  }

  /**
   * Under a policy that denies the write messages, as the default one does, no
   * sequence of messages, denied ones with bodies in whatever shape, changes constants, reports, links, enable flags,
   * alarms, the control state or runs a command.
   */
  lemma {:induction false} MonitoringChangesNothing(q: Equipment, policy: Option<Policy>, inputs: seq<Input>)
    requires forall x | x in inputs :: WellShaped(policy, x)
    requires forall x | x in inputs :: x.Incoming?
    requires Passive(policy)
    ensures Untouched(q, Run(q, policy, inputs))
    decreases inputs
  {
    if inputs != [] {
      var x := inputs[0];
      assert WellShaped(policy, x) && x.Incoming?;
      MonitoredMessage(q, policy, x.message, x.choice);
      hide Handle, Passive;
      MonitoringChangesNothing(Step(q, policy, x), policy, inputs[1..]);
    }
  }

  // ----- Writing constants -----

  /** The item the last pair of an S2F15 body gives for a constant. */
  function LastFor(pairs: seq<Item>, id: uint32): Option<Item>
    requires forall p | p in pairs :: Pair(p)
  {
    if pairs == [] then None
    else
      var p := pairs[|pairs| - 1];
      assert Pair(p);
      if p.Len() >= 2 && FirstId(p.items[0]) == Some(id) then Some(p.items[1])
      else LastFor(pairs[..|pairs| - 1], id)
  }

  lemma {:induction false} SetConstantsAppends(ecs: map<uint32, Constant>, pairs: seq<Item>, p: Item)
    requires Pair(p) && forall x | x in pairs :: Pair(x)
    ensures SetConstants(ecs, pairs + [p]) == SetOne(SetConstants(ecs, pairs), p)
    decreases pairs
  {
    hide SetOne;
    if pairs == [] {
      assert [] + [p] == [p] && [p][1..] == [];
    } else {
      assert Pair(pairs[0]);
      SetConstantsAppends(SetOne(ecs, pairs[0]), pairs[1..], p);
      assert (pairs + [p])[1..] == pairs[1..] + [p];
    }
  }

  /**
   * S2F15 is answered "accepted" always, yet it sets a constant if and only if
   * the constant is known and declares no bound; the last pair for it wins.
   */
  lemma {:induction false} LastWriteWins(ecs: map<uint32, Constant>, pairs: seq<Item>, id: uint32)
    requires forall p | p in pairs :: Pair(p)
    ensures var r := SetConstants(ecs, pairs);
            && r.Keys == ecs.Keys
            && (id in ecs ==>
                  r[id] == if Settable(ecs[id]) && LastFor(pairs, id).Some?
                           then ecs[id].(value := OfItem(LastFor(pairs, id).value)) else ecs[id])
    decreases |pairs|
  {
    if pairs != [] {
      var n := |pairs| - 1;
      var p := pairs[n];
      assert Pair(p);
      assert pairs == pairs[..n] + [p];
      SetConstantsAppends(ecs, pairs[..n], p);
      LastWriteWins(ecs, pairs[..n], id);
    }
  }

  lemma OneElement(x: Item)
    requires Typed(x) && Fits(x)
    ensures Typed(ListItem([x])) && Fits(ListItem([x])) && Decoded(Wire(ListItem([x]))) == Ok(ListItem([Norm(x)]))
  {
    RoundTrip(ListItem([x]));
    assert NormAll([x]) == [Norm(x)];
  }

  /** The two requests a host sends to write a constant and to read it. */
  function WriteRequest(id: uint32, x: Item): Item {
    ListItem([ListItem([U4Of(id), x])])
  }

  function ReadRequest(id: uint32): Item {
    ListItem([U4Of(id)])
  }

  /** Writing a constant and reading it back over the wire gives the written item exactly when it is settable. */
  lemma WriteThenRead(q: Equipment, id: uint32, x: Item, ch: Choice, ch': Choice)
    requires Typed(x) && Fits(x)
    ensures Fits(WriteRequest(id, x)) && Fits(ReadRequest(id))
    ensures ShapedData(2, 15, Wire(WriteRequest(id, x))) && ShapedData(2, 13, Wire(ReadRequest(id)))
    ensures var (q', ack) := BuiltIn(q, 2, 15, Wire(WriteRequest(id, x)), ch);
            var got := if id in q.ecs && Settable(q.ecs[id]) then Norm(x) else ConstantItem(q, id);
            ack == Answer(Ack(0)) && BuiltIn(q', 2, 13, Wire(ReadRequest(id)), ch').1 == Answer(ListItem([got]))
  {
    PowersOf256();
    var pair := ListItem([U4Of(id), x]);
    var stored := ListItem([U4Of(id), Norm(x)]);
    assert Typed(U4Of(id)) && Fits(U4Of(id)) && Norm(U4Of(id)) == U4Of(id);
    NormOfPair(U4Of(id), x);
    assert Typed(pair) && Fits(pair);
    OneElement(pair);
    OneElement(U4Of(id));
    hide Decoded, Wire, Norm, BuiltIn, ShapedData, ConstantItem;
    ReadsWhatIsStored(q, id, Norm(x), stored, ch, ch', Wire(WriteRequest(id, x)), Wire(ReadRequest(id)));
  }

  lemma ReadsWhatIsStored(
      q: Equipment, id: uint32, v: Item, stored: Item, ch: Choice, ch': Choice, written: seq<byte>, read: seq<byte>)
    requires stored == ListItem([U4Of(id), v]) && read != []
    requires Decoded(written) == Ok(ListItem([stored])) && Decoded(read) == Ok(ReadRequest(id))
    ensures ShapedData(2, 15, written) && ShapedData(2, 13, read)
    ensures var (q', ack) := BuiltIn(q, 2, 15, written, ch);
            var got := if id in q.ecs && Settable(q.ecs[id]) then v else ConstantItem(q, id);
            ack == Answer(Ack(0)) && BuiltIn(q', 2, 13, read, ch').1 == Answer(ListItem([got]))
  {
    hide Decoded;
    assert FirstId(U4Of(id)) == Some(id) && Pair(stored) && Readable([U4Of(id)]);
    assert SetConstants(q.ecs, [stored]) == SetOne(q.ecs, stored) by {
      SetConstantsAppends(q.ecs, [], stored);
      assert [] + [stored] == [stored];
    }
    var q' := BuiltIn(q, 2, 15, written, ch).0;
    assert q'.ecs == SetEC(q.ecs, id, v);
    hide EachRequested;
    var a := BuiltIn(q', 2, 13, read, ch').1;
    assert ReadRequest(id).Items()[0] == U4Of(id);
    assert a.Answer? && a.item.items == [ConstantItem(q', id)];
  }

  // ----- Listing alarms -----

  lemma {:induction false} EnabledIdsAre(q: Equipment, ids: seq<uint32>)
    requires forall i, j | 0 <= i < j < |ids| :: ids[i] != ids[j]
    ensures
      var es := EnabledIds(q, ids);
      && (forall i, j | 0 <= i < j < |es| :: es[i] != es[j])
      && (forall id :: id in es <==> id in ids && id in q.alarms && q.alarms[id].enabled)
  {
    if ids != [] {
      var rest := ids[1..];
      EnabledIdsAre(q, rest);
      assert ids == [ids[0]] + rest;
      assert forall j | 0 <= j < |rest| :: rest[j] == ids[j + 1];
      var es, tail := EnabledIds(q, ids), EnabledIds(q, rest);
      if ids[0] in q.alarms && q.alarms[ids[0]].enabled {
        assert es == [ids[0]] + tail;
        assert ids[0] !in rest;
      } else {
        assert es == tail;
      }
    }
  }

  /** The list has one entry for each alarm of the set and no other. */
  ghost predicate ListsAlarms(q: Equipment, items: seq<Item>, ids: seq<uint32>, which: set<uint32>) {
    Enumerates(ids, which) && |items| == |ids| && forall i | 0 <= i < |ids| :: items[i] == AlarmItem(q, ids[i])
  }

  function EnabledAlarms(q: Equipment): set<uint32> {
    set id | id in q.alarms && q.alarms[id].enabled
  }

  /** The S5F6 body lists every alarm once and the S5F8 body every enabled one, whatever the order of the alarm map. */
  lemma AlarmsAreListed(q: Equipment, data: seq<byte>, ch: Choice)
    requires Enumerates(ch.ids, Listed(q, 5)) && ShapedData(5, 5, data) && ShapedData(5, 7, data)
    ensures
      var all := Stream5(q, 5, data, ch).1;
      all.Answer? && all.item.ListItem? && ListsAlarms(q, all.item.items, ch.ids, q.alarms.Keys)
    ensures
      var some := Stream5(q, 7, data, ch).1;
      some.Answer? && some.item.ListItem? && ListsAlarms(q, some.item.items, EnabledIds(q, ch.ids), EnabledAlarms(q))
  {
    hide AlarmItem, Decoded;
    EnabledIdsAre(q, ch.ids);
    var es := EnabledIds(q, ch.ids);
    assert forall id | id in EnabledAlarms(q) :: id in es;
  }
}
