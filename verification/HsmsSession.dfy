/**
 * One HSMS session as a machine of atomic steps (pkg/transport/hsms/session.go).
 *
 * A step is what one goroutine does between two points where another one may
 * run: a load or store of the connection state, a lock section on the pending
 * map, one channel operation or one write to the connection. The read loop is
 * one goroutine with a program counter; every call of sendAndWait is another,
 * identified by its reply channel, which is not the same as its system ID.
 */
module HsmsSession {
  import opened Outcomes
  import opened Bytes
  import opened HsmsMessage

  const INBOUND_CAPACITY: nat := 256

  datatype ConnState = Disconnected | Connecting | Connected | Selected

  /** How sendAndWait ends; a cancelled context ends it like an expired timer. */
  datatype Outcome = Answered(message: Message) | GaveUp | WriteFailed

  /** Where a call of sendAndWait stands. Leaving is between the select statement and the deferred delete. */
  datatype Phase = Registered | Waiting | Leaving(outcome: Outcome) | Returned(outcome: Outcome)

  /** A call of sendAndWait: its request and its reply channel, which buffers one message. */
  datatype Waiter = Waiter(request: Message, phase: Phase, slot: Option<Message>) {
    function Id(): uint32 {
      request.SystemId()
    }

    predicate Open() {
      !phase.Returned?
    }

    function Result(): Option<Outcome> {
      match phase
      case Leaving(o) => Some(o)
      case Returned(o) => Some(o)
      case _ => None
    }
  }

  /** What became of a message that was read. */
  datatype Fate = Throttled | ToWaiter(waiter: nat) | WaiterFull(waiter: nat) | Queued | QueueFull | Refused | Handled

  /** A message that was read, whether the pending lookup matched it, and the state a data check saw. */
  datatype Arrival = Arrival(message: Message, matched: bool, seen: ConnState, fate: Option<Fate>)

  /** A message that was written; `cause` is the arrival the read loop answers with it. */
  datatype Sent = Sent(message: Message, cause: Option<nat>)

  datatype Reader =
    | NotStarted
    | Idle
    | Took
    | Matched(waiter: nat)
    | Unmatched
    | Accepting
    | Rejecting
    | SelectReplying(status: byte)
    | SelectStoring
    | DeselectReplying
    | DeselectStoring
    | LinktestReplying
    | Stopped
  {
    /** The message being handled has no fate yet. */
    predicate Deciding() {
      Took? || Matched? || Unmatched? || Accepting?
    }

    predicate Replying() {
      Rejecting? || SelectReplying? || DeselectReplying? || LinktestReplying?
    }
  }

  /** The session, with the history of what it read, wrote and handed to the application. */
  datatype Endpoint = Endpoint(
    state: ConnState,
    nextId: nat,
    pending: map<uint32, nat>,
    waiters: seq<Waiter>,
    reader: Reader,
    inbound: seq<Message>,
    received: seq<Message>,
    arrivals: seq<Arrival>,
    sent: seq<Sent>,
    selectReturn: Option<nat>)
  {
    function Current(): Arrival
      requires arrivals != []
    {
      arrivals[|arrivals| - 1]
    }

    function WithCurrent(a: Arrival): Endpoint
      requires arrivals != []
    {
      this.(arrivals := arrivals[|arrivals| - 1 := a])
    }

    function WithFate(f: Fate): Endpoint
      requires arrivals != []
    {
      WithCurrent(Current().(fate := Some(f)))
    }

    function Write(m: Message, cause: Option<nat>): Endpoint {
      this.(sent := sent + [Sent(m, cause)])
    }

    function WithWaiter(w: nat, x: Waiter): Endpoint
      requires w < |waiters|
    {
      this.(waiters := waiters[w := x])
    }
  }

  /** After `NewSession`. */
  const START: Endpoint := Endpoint(Disconnected, 0, map[], [], NotStarted, [], [], [], [], None)

  // ----- Steps -----

  datatype Action =
    | Connect
    | Establish
    | Receive(message: Message, throttled: bool)
    | Lookup
    | Deliver
    | Dispatch
    | Enqueue
    | WriteReply(ok: bool)
    | StoreState
    | StopReading
    | Register(request: Message)
    | WriteRequest(waiter: nat, ok: bool)
    | TakeAnswer(waiter: nat)
    | GiveUp(waiter: nat)
    | Unregister(waiter: nat)
    | FinishSelect(waiter: nat)
    | Post(message: Message)
    | SendRaw(message: Message)
    | AppReceive
    | StoreDisconnected

  /** `nextSystemID.Add(1)` on a uint32. */
  function NextId(e: Endpoint): uint32 {
    (e.nextId + 1) % 0x1_0000_0000
  }

  /** `SendMessage` numbers a message whose system ID is 0; Select and the linktest loop always take a new number. */
  function Numbered(e: Endpoint, m: Message): Message {
    if m.SystemId() == 0 then m.(header := m.header.(systemId := NextId(e))) else m
  }

  predicate Enabled(e: Endpoint, a: Action) {
    match a
    case Connect => e.reader.NotStarted? && e.state.Disconnected?
    case Establish => e.reader.NotStarted?
    case Receive(_, _) => e.reader.Idle?
    case Lookup => e.reader.Took? && e.arrivals != []
    case Deliver => e.reader.Matched? && e.arrivals != [] && e.reader.waiter < |e.waiters|
    case Dispatch => e.reader.Unmatched? && e.arrivals != []
    case Enqueue => e.reader.Accepting? && e.arrivals != []
    case WriteReply(_) => e.reader.Replying() && e.arrivals != []
    case StoreState => e.reader.SelectStoring? || e.reader.DeselectStoring?
    case StopReading => e.reader.Idle?
    case Register(_) => true
    case WriteRequest(w, _) => w < |e.waiters| && e.waiters[w].phase.Registered?
    case TakeAnswer(w) => w < |e.waiters| && e.waiters[w].phase.Waiting? && e.waiters[w].slot.Some?
    case GiveUp(w) => w < |e.waiters| && e.waiters[w].phase.Waiting?
    case Unregister(w) => w < |e.waiters| && e.waiters[w].phase.Leaving?
    case FinishSelect(w) => w < |e.waiters| && SelectSucceeded(e.waiters[w])
    case Post(_) => true
    case SendRaw(m) => m.SType() == DATA_MESSAGE
    case AppReceive => e.inbound != []
    case StoreDisconnected => true
  }

  predicate IsSelectSuccess(m: Message) {
    m.SType() == SELECT_RSP && m.header.stream == SELECT_SUCCESS
  }

  /** The checks of `Select` on what sendAndWait returned. */
  predicate SelectSucceeded(w: Waiter) {
    w.request.SType() == SELECT_REQ && w.phase.Returned? && w.phase.outcome.Answered?
    && IsSelectSuccess(w.phase.outcome.message)
  }

  /** `handleMessage` after the pending lookup found nothing. */
  function Dispatched(e: Endpoint): Endpoint
    requires e.arrivals != []
  {
    var m := e.Current().message;
    if m.SType() == DATA_MESSAGE then
      var seen := e.WithCurrent(e.Current().(seen := e.state));
      if e.state == Selected then seen.(reader := Accepting) else seen.WithFate(Refused).(reader := Rejecting)
    else if m.SType() == SELECT_REQ then
      e.WithFate(Handled).(reader := SelectReplying(if e.state == Selected then SELECT_ALREADY_ACTIVE else SELECT_SUCCESS))
    else if m.SType() == DESELECT_REQ then e.WithFate(Handled).(reader := DeselectReplying)
    else if m.SType() == LINKTEST_REQ then e.WithFate(Handled).(reader := LinktestReplying)
    else if m.SType() == SEPARATE_REQ then e.WithFate(Handled).(reader := Stopped)
    else e.WithFate(Handled).(reader := Idle)
  }

  /** The message the read loop is about to write. */
  function Reply(r: Reader, m: Message): Message
    requires r.Replying()
  {
    match r
    case Rejecting => RejectReq(m.header.sessionId, m.SystemId(), DATA_MESSAGE, REASON_NOT_SELECTED)
    case SelectReplying(status) => SelectRsp(m.header.sessionId, m.SystemId(), status)
    case DeselectReplying => DeselectRsp(m.header.sessionId, m.SystemId(), 0)
    case LinktestReplying => LinktestRsp(m.SystemId())
  }

  /** Where the read loop goes after the write: select and deselect store their state only after a successful one. */
  function AfterReply(r: Reader, ok: bool): Reader
    requires r.Replying()
  {
    if ok && r == SelectReplying(SELECT_SUCCESS) then SelectStoring
    else if ok && r.DeselectReplying? then DeselectStoring
    else Idle
  }

  function Apply(e: Endpoint, a: Action): Endpoint
    requires Enabled(e, a)
  {
    match a
    case Connect => e.(state := Connecting)
    case Establish => e.(state := Connected, reader := Idle)
    case Receive(m, throttled) =>
      e.(arrivals := e.arrivals + [Arrival(m, false, Disconnected, if throttled then Some(Throttled) else None)],
         reader := if throttled then Idle else Took)
    case Lookup =>
      var id := e.Current().message.SystemId();
      if id in e.pending then
        e.WithCurrent(e.Current().(matched := true)).(reader := Matched(e.pending[id]))
      else e.(reader := Unmatched)
    case Deliver =>
      var w := e.reader.waiter;
      var x := e.waiters[w];
      if x.slot.None? then
        e.WithFate(ToWaiter(w)).WithWaiter(w, x.(slot := Some(e.Current().message))).(reader := Idle)
      else e.WithFate(WaiterFull(w)).(reader := Idle)
    case Dispatch => Dispatched(e)
    case Enqueue =>
      if |e.inbound| < INBOUND_CAPACITY then
        e.WithFate(Queued).(inbound := e.inbound + [e.Current().message], reader := Idle)
      else e.WithFate(QueueFull).(reader := Idle)
    case WriteReply(ok) =>
      var m := Reply(e.reader, e.Current().message);
      (if ok then e.Write(m, Some(|e.arrivals| - 1)) else e).(reader := AfterReply(e.reader, ok))
    case StoreState => e.(state := if e.reader.SelectStoring? then Selected else Connected, reader := Idle)
    case StopReading => e.(reader := Stopped)
    case Register(m) =>
      var q := Numbered(e, m);
      e.(nextId := if m.SystemId() == 0 then e.nextId + 1 else e.nextId,
         pending := e.pending[q.SystemId() := |e.waiters|],
         waiters := e.waiters + [Waiter(q, Registered, None)])
    case WriteRequest(w, ok) =>
      var x := e.waiters[w];
      if ok then e.WithWaiter(w, x.(phase := Waiting)).Write(x.request, None)
      else e.WithWaiter(w, x.(phase := Leaving(WriteFailed)))
    case TakeAnswer(w) =>
      var x := e.waiters[w];
      e.WithWaiter(w, x.(phase := Leaving(Answered(x.slot.value)), slot := None))
    case GiveUp(w) => e.WithWaiter(w, e.waiters[w].(phase := Leaving(GaveUp)))
    case Unregister(w) =>
      var x := e.waiters[w];
      e.WithWaiter(w, x.(phase := Returned(x.phase.outcome))).(pending := e.pending - {x.Id()})
    case FinishSelect(w) =>
      e.(state := Selected, selectReturn := if e.selectReturn.None? then Some(|e.sent|) else e.selectReturn)
    case Post(m) => e.(nextId := if m.SystemId() == 0 then e.nextId + 1 else e.nextId).Write(Numbered(e, m), None)
    case SendRaw(m) => e.Write(m, None)
    case AppReceive => e.(received := e.received + [e.inbound[0]], inbound := e.inbound[1..])
    case StoreDisconnected => e.(state := Disconnected)
  }

  // ----- Runs -----

  /** Every action of the run is enabled when its turn comes. */
  ghost predicate IsRun(e: Endpoint, run: seq<Action>)
    decreases run
  {
    run == [] || (Enabled(e, run[0]) && IsRun(Apply(e, run[0]), run[1..]))
  }

  ghost function After(e: Endpoint, run: seq<Action>): Endpoint
    requires IsRun(e, run)
    decreases run
  {
    if run == [] then e else After(Apply(e, run[0]), run[1..])
  }

  // ----- What no step takes back -----

  lemma SentGrows(e: Endpoint, a: Action)
    requires Enabled(e, a)
    ensures
      var e' := Apply(e, a);
      |e.sent| <= |e'.sent| && e'.sent[..|e.sent|] == e.sent
  {
  }

  lemma ArrivalsGrow(e: Endpoint, a: Action)
    requires Enabled(e, a)
    ensures
      var e' := Apply(e, a);
      && |e.arrivals| <= |e'.arrivals| <= |e.arrivals| + 1
      && (forall i | 0 <= i < |e.arrivals| :: e'.arrivals[i].message == e.arrivals[i].message)
      && (a.Receive? ==> |e'.arrivals| == |e.arrivals| + 1 && e'.arrivals[|e.arrivals|].message == a.message)
      && (!a.Receive? ==> |e'.arrivals| == |e.arrivals|)
  {
  }

  /** History only grows. */
  lemma HistoryGrows(e: Endpoint, a: Action)
    requires Enabled(e, a)
    ensures
      var e' := Apply(e, a);
      && |e.sent| <= |e'.sent| && e'.sent[..|e.sent|] == e.sent
      && |e.arrivals| <= |e'.arrivals| <= |e.arrivals| + 1
      && (forall i | 0 <= i < |e.arrivals| :: e'.arrivals[i].message == e.arrivals[i].message)
      && (a.Receive? ==> |e'.arrivals| == |e.arrivals| + 1 && e'.arrivals[|e.arrivals|].message == a.message)
      && (!a.Receive? ==> |e'.arrivals| == |e.arrivals|)
  {
    hide Apply, Enabled;
    SentGrows(e, a);
    ArrivalsGrow(e, a);
  }
}
