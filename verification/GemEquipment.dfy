/** What the GEM handler owns: state machine, variables, events, alarms (pkg/driver/gem/state.go, variable.go, event.go, alarm.go). */
module GemEquipment {
  import opened Outcomes
  import opened Bytes
  import opened Secs2Item

  // ----- Communication and control state (SEMI E30) -----

  datatype CommState = CommDisabled | CommWaitCra | CommWaitDelay | CommCommunicating

  datatype ControlState = OfflineEquipment | OfflineHost | OnlineLocal | OnlineRemote

  predicate IsOnline(c: ControlState) {
    c.OnlineLocal? || c.OnlineRemote?
  }

  datatype StateMachine = StateMachine(comm: CommState, control: ControlState)

  datatype StateOp = EnableComm | DisableComm | CommEstablished | CommFailed | RetryComm | GoOnlineLocal | GoOnlineRemote | GoOffline

  /** Whether the guard of the method lets it change the state; otherwise it returns an error. */
  predicate Allowed(sm: StateMachine, op: StateOp) {
    match op
    case EnableComm => sm.comm.CommDisabled?
    case DisableComm => true
    case CommEstablished => sm.comm.CommWaitCra?
    case CommFailed => sm.comm.CommWaitCra?
    case RetryComm => sm.comm.CommWaitDelay?
    case GoOnlineLocal => sm.comm.CommCommunicating?
    case GoOnlineRemote => sm.comm.CommCommunicating?
    case GoOffline => IsOnline(sm.control)
  }

  function Perform(sm: StateMachine, op: StateOp): StateMachine {
    if !Allowed(sm, op) then sm
    else
      match op
      case EnableComm => sm.(comm := CommWaitCra)
      case DisableComm => StateMachine(CommDisabled, OfflineEquipment)
      case CommEstablished => sm.(comm := CommCommunicating)
      case CommFailed => sm.(comm := CommWaitDelay)
      case RetryComm => sm.(comm := CommWaitCra)
      case GoOnlineLocal => sm.(control := OnlineLocal)
      case GoOnlineRemote => sm.(control := OnlineRemote)
      case GoOffline => sm.(control := OfflineEquipment)
  }

  /** No machine is online without communicating. */
  predicate OnlineCommunicates(sm: StateMachine) {
    IsOnline(sm.control) ==> sm.comm.CommCommunicating?
  }

  // ----- Values -----

  /** The dynamic types valueToItem distinguishes; floats are bit patterns, Other is what %v prints. */
  datatype Value =
    | Nil
    | OfItem(item: Item)
    | OfString(text: seq<byte>)
    | OfInt(n: int)
    | OfInt32(n: int)
    | OfInt64(n: int)
    | OfUint32(n: int)
    | OfUint64(n: int)
    | OfFloat32(bits: int)
    | OfFloat64(bits: int)
    | OfBool(flag: bool)
    | OfBytes(bytes: seq<byte>)
    | Other(printed: seq<byte>)

  predicate TypedValue(v: Value) {
    match v
    case OfItem(x) => Typed(x)
    case OfInt32(n) => InRange(I4, n)
    case OfInt64(n) => InRange(I8, n)
    case OfUint32(n) => InRange(U4, n)
    case OfUint64(n) => InRange(U8, n)
    case OfFloat32(n) => InRange(F4, n)
    case OfFloat64(n) => InRange(F8, n)
    case _ => true
  }

  /** Go's int32(v): the low 32 bits, read as a signed number. */
  function Int32(n: int): (r: int)
    ensures InRange(I4, r) && (r - n) % 0x1_0000_0000 == 0
  {
    PowersOf256();
    var u := n % 0x1_0000_0000;
    if u >= 0x8000_0000 then u - 0x1_0000_0000 else u
  }

  /** Strings, bytes and items are the only values that can be too long. */
  predicate SizedValue(v: Value) {
    match v
    case OfItem(x) => Fits(x)
    case OfString(s) => |s| <= MAX_LENGTH
    case OfBytes(s) => |s| <= MAX_LENGTH
    case Other(s) => |s| <= MAX_LENGTH
    case _ => true
  }

  function ValueToItem(v: Value): (x: Item)
    ensures TypedValue(v) ==> Typed(x)
    ensures Fits(x) <==> SizedValue(v)
  {
    match v
    case Nil => ListItem([])
    case OfItem(x) => x
    case OfString(s) => TextItem(Ascii, Some(s))
    case OfInt(n) => NumItem(I4, [Int32(n)])
    case OfInt32(n) => NumItem(I4, [n])
    case OfInt64(n) => NumItem(I8, [n])
    case OfUint32(n) => NumItem(U4, [n])
    case OfUint64(n) => NumItem(U8, [n])
    case OfFloat32(n) => NumItem(F4, [n])
    case OfFloat64(n) => NumItem(F8, [n])
    case OfBool(b) => BoolItem([b])
    case OfBytes(s) => TextItem(Binary, Some(s))
    case Other(s) => TextItem(Ascii, Some(s))
  }

  // ----- Stores -----

  datatype Variable = Variable(name: seq<byte>, units: seq<byte>, value: Value)

  datatype Constant = Constant(name: seq<byte>, units: seq<byte>, value: Value, min: Value, max: Value)

  datatype Event = Event(enabled: bool, reports: seq<uint32>)

  datatype Alarm = Alarm(text: seq<byte>, severity: byte, set_: bool, enabled: bool)

  type Command = (seq<byte>, seq<(seq<byte>, Item)>)

  datatype Equipment = Equipment(
    mdln: seq<byte>,
    softrev: seq<byte>,
    machine: StateMachine,
    svs: map<uint32, Variable>,
    ecs: map<uint32, Constant>,
    events: map<uint32, Event>,
    reports: map<uint32, seq<uint32>>,
    alarms: map<uint32, Alarm>,
    commands: set<seq<byte>>,
    executed: seq<Command>)

  predicate TypedConstant(c: Constant) {
    TypedValue(c.value) && TypedValue(c.min) && TypedValue(c.max)
  }

  ghost predicate TypedConstants(ecs: map<uint32, Constant>) {
    forall id | id in ecs :: TypedConstant(ecs[id])
  }

  /** Every stored value is one Go's types admit. */
  ghost predicate TypedEquipment(q: Equipment) {
    (forall id | id in q.svs :: TypedValue(q.svs[id].value)) && TypedConstants(q.ecs)
  }

  /** `checkECRange` on a decoded item: it is not a Go number, so any declared bound rejects it. */
  predicate Settable(c: Constant) {
    c.min.Nil? && c.max.Nil?
  }

  /** `SetEC` with an item from a message; an unknown or bounded constant stays as it is. */
  function SetEC(ecs: map<uint32, Constant>, id: uint32, x: Item): map<uint32, Constant> {
    if id in ecs && Settable(ecs[id]) then ecs[id := ecs[id].(value := OfItem(x))] else ecs
  }

  /** `LinkEventReport`: unknown events and unknown reports leave the links as they are. */
  function LinkEvent(events: map<uint32, Event>, reports: map<uint32, seq<uint32>>, ceid: uint32, rptids: seq<uint32>)
    : map<uint32, Event>
  {
    if ceid in events && forall r | r in rptids :: r in reports then
      events[ceid := events[ceid].(reports := rptids)]
    else events
  }

  function EnableEvent(events: map<uint32, Event>, ceid: uint32, enabled: bool): map<uint32, Event> {
    if ceid in events then events[ceid := events[ceid].(enabled := enabled)] else events
  }

  function EnableAllEvents(events: map<uint32, Event>, enabled: bool): map<uint32, Event> {
    map ceid | ceid in events :: events[ceid].(enabled := enabled)
  }

  function UnlinkAll(events: map<uint32, Event>): map<uint32, Event> {
    map ceid | ceid in events :: events[ceid].(reports := [])
  }
}
