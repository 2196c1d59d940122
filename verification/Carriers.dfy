/** Carriers and load ports (pkg/driver/gem/carrier.go, SEMI E87). */
module Carriers {
  import opened StateValidator
  import opened Bytes

  datatype CarrierState = NotAccessed | WaitingForHost | InAccess | Complete | Halted | ReadyToUnload

  datatype PortState = OutOfService | TransferBlocked | ReadyToLoad | TransferReady | UnloadReady

  datatype Carrier = Carrier(state: CarrierState, port: uint32)

  /** `carrier` is the empty string on a free port. */
  datatype Port = Port(state: PortState, carrier: string)

  datatype Store = Store(carriers: map<string, Carrier>, ports: map<uint32, Port>)

  /** The public transitions that only move a carrier. */
  datatype Move = ProceedWithCarrier | StartAccess | CompleteAccess | StopCarrier | ResumeCarrier

  /** UnloadCarrier and UnloadPort are the two critical sections of `ReadyToUnload`, Unload both in one. */
  datatype Op =
    | DefinePort(port: uint32)
    | PutInService(port: uint32)
    | TakeOutOfService(port: uint32)
    | Bind(id: string, port: uint32)
    | Unbind(id: string)
    | Transit(id: string, move: Move)
    | UnloadCarrier(id: string)
    | UnloadPort(id: string)
    | Unload(id: string)

  function Expected(m: Move): seq<CarrierState> {
    match m
    case ProceedWithCarrier => [NotAccessed]
    case StartAccess => [WaitingForHost]
    case CompleteAccess => [InAccess]
    case StopCarrier => [InAccess]
    case ResumeCarrier => [Halted]
  }

  function Target(m: Move): CarrierState {
    match m
    case ProceedWithCarrier => WaitingForHost
    case StartAccess => InAccess
    case CompleteAccess => Complete
    case StopCarrier => Halted
    case ResumeCarrier => InAccess
  }

  const UNLOADABLE: seq<CarrierState> := [Complete, Halted, NotAccessed]

  // ----- The operations -----

  predicate CanBind(s: Store, p: uint32) {
    p in s.ports && s.ports[p].state.ReadyToLoad? && s.ports[p].carrier == ""
  }

  predicate CanUnbind(s: Store, id: string) {
    id in s.carriers && (s.carriers[id].state.ReadyToUnload? || s.carriers[id].state.NotAccessed?)
  }

  predicate CanTransit(s: Store, id: string, expected: seq<CarrierState>) {
    id in s.carriers && s.carriers[id].state in expected
  }

  /** `transitionCarrier`. */
  function Transition(s: Store, id: string, expected: seq<CarrierState>, to: CarrierState): Store {
    if CanTransit(s, id, expected) then s.(carriers := s.carriers[id := s.carriers[id].(state := to)]) else s
  }

  function SetPort(s: Store, p: uint32, port: Port): Store {
    s.(ports := s.ports[p := port])
  }

  function MarkPort(s: Store, id: string): Store {
    if id in s.carriers && s.carriers[id].port in s.ports then
      var p := s.carriers[id].port;
      SetPort(s, p, s.ports[p].(state := UnloadReady))
    else s
  }

  function Apply(s: Store, op: Op): Store {
    match op
    case DefinePort(p) => SetPort(s, p, Port(OutOfService, ""))
    case PutInService(p) => if p in s.ports then SetPort(s, p, s.ports[p].(state := ReadyToLoad)) else s
    case TakeOutOfService(p) =>
      if p in s.ports && s.ports[p].carrier == "" then SetPort(s, p, s.ports[p].(state := OutOfService)) else s
    case Bind(id, p) =>
      if CanBind(s, p) then
        Store(s.carriers[id := Carrier(NotAccessed, p)], s.ports[p := Port(TransferReady, id)])
      else s
    case Unbind(id) =>
      if CanUnbind(s, id) then
        var p := s.carriers[id].port;
        Store(s.carriers - {id}, if p in s.ports then s.ports[p := Port(ReadyToLoad, "")] else s.ports)
      else s
    case Transit(id, m) => Transition(s, id, Expected(m), Target(m))
    case UnloadCarrier(id) => Transition(s, id, UNLOADABLE, ReadyToUnload)
    case UnloadPort(id) => MarkPort(s, id)
    case Unload(id) =>
      if CanTransit(s, id, UNLOADABLE) then MarkPort(Transition(s, id, UNLOADABLE, ReadyToUnload), id) else s
  }

  /** What the state-change callback hears. */
  function Announced(s: Store, op: Op): seq<Announcement<CarrierState>> {
    match op
    case Transit(id, m) =>
      if CanTransit(s, id, Expected(m)) then [Announcement(id, s.carriers[id].state, Target(m))] else []
    case UnloadCarrier(id) =>
      if CanTransit(s, id, UNLOADABLE) then [Announcement(id, s.carriers[id].state, ReadyToUnload)] else []
    case Unload(id) =>
      if CanTransit(s, id, UNLOADABLE) then [Announcement(id, s.carriers[id].state, ReadyToUnload)] else []
    case _ => []
  }

  function After(s: Store, run: seq<Op>): Store
    decreases run
  {
    if run == [] then s else After(Apply(s, run[0]), run[1..])
  }

  /** Everything the callback hears during a run, in order. */
  function Heard(s: Store, run: seq<Op>): seq<Announcement<CarrierState>>
    decreases run
  {
    if run == [] then [] else Announced(s, run[0]) + Heard(Apply(s, run[0]), run[1..])
  }

  const EMPTY: Store := Store(map[], map[])

  /** Some run of an empty manager announces the change. */
  ghost predicate CanBeHeard(a: Announcement<CarrierState>) {
    exists run: seq<Op> :: a in Heard(EMPTY, run)
  }

  ghost predicate Reachable(id: string, state: CarrierState) {
    exists run: seq<Op> :: HasCarrier(After(EMPTY, run), id, state)
  }

  predicate HasCarrier(s: Store, id: string, state: CarrierState) {
    id in s.carriers && s.carriers[id].state == state
  }

  lemma {:induction false} RunsAppend(s: Store, run: seq<Op>, op: Op)
    ensures After(s, run + [op]) == Apply(After(s, run), op)
    ensures Heard(s, run + [op]) == Heard(s, run) + Announced(After(s, run), op)
    decreases run
  {
    hide Apply, Announced;
    var all := run + [op];
    if run == [] {
      assert all[0] == op && all[1..] == [];
    } else {
      assert all[0] == run[0] && all[1..] == run[1..] + [op];
      RunsAppend(Apply(s, run[0]), run[1..], op);
    }
  }

  lemma BoundIsReachable(id: string)
    ensures Reachable(id, NotAccessed)
  {
    var two := [DefinePort(0), PutInService(0)];
    assert After(EMPTY, []) == EMPTY;
    RunsAppend(EMPTY, [], DefinePort(0));
    assert [] + [DefinePort(0)] == [DefinePort(0)] && [DefinePort(0)] + [PutInService(0)] == two;
    RunsAppend(EMPTY, [DefinePort(0)], PutInService(0));
    RunsAppend(EMPTY, two, Bind(id, 0));
    assert HasCarrier(After(EMPTY, two + [Bind(id, 0)]), id, NotAccessed);
  }

  /** A transition that is legal in a reachable state makes its target reachable and its change heard. */
  lemma MoveReaches(id: string, from: CarrierState, m: Move)
    requires Reachable(id, from) && from in Expected(m)
    ensures Reachable(id, Target(m)) && CanBeHeard(Announcement(id, from, Target(m)))
  {
    var run: seq<Op> :| HasCarrier(After(EMPTY, run), id, from);
    RunsAppend(EMPTY, run, Op.Transit(id, m));
    assert HasCarrier(After(EMPTY, run + [Op.Transit(id, m)]), id, Target(m));
    assert Announcement(id, from, Target(m)) in Heard(EMPTY, run + [Op.Transit(id, m)]);
  }

  lemma UnloadReaches(id: string, from: CarrierState)
    requires Reachable(id, from) && from in UNLOADABLE
    ensures Reachable(id, ReadyToUnload) && CanBeHeard(Announcement(id, from, ReadyToUnload))
  {
    var run: seq<Op> :| HasCarrier(After(EMPTY, run), id, from);
    RunsAppend(EMPTY, run, UnloadCarrier(id));
    assert HasCarrier(After(EMPTY, run + [UnloadCarrier(id)]), id, ReadyToUnload);
    assert Announcement(id, from, ReadyToUnload) in Heard(EMPTY, run + [UnloadCarrier(id)]);
  }

  // ----- Carriers and occupied ports are in bijection -----

  ghost predicate Bijection(s: Store) {
    && (forall id | id in s.carriers ::
          id != "" && s.carriers[id].port in s.ports && s.ports[s.carriers[id].port].carrier == id)
    && (forall p | p in s.ports ::
          s.ports[p].carrier != "" ==> s.ports[p].carrier in s.carriers && s.carriers[s.ports[p].carrier].port == p)
  }

  /** What a caller must see to: IDs bound are fresh and nonempty, and an occupied port is not defined again. */
  predicate Careful(s: Store, op: Op) {
    match op
    case DefinePort(p) => p in s.ports ==> s.ports[p].carrier == ""
    case Bind(id, p) => CanBind(s, p) ==> id != "" && id !in s.carriers
    case _ => true
  }

  lemma CarefulKeepsBijection(s: Store, op: Op)
    requires Bijection(s) && Careful(s, op)
    ensures Bijection(Apply(s, op))
  {
  }

  lemma CarelessBreaksBijection(s: Store, op: Op)
    requires Bijection(s) && !Careful(s, op)
    ensures !Bijection(Apply(s, op))
  {
    var t := Apply(s, op);
    if op.Bind? && op.id != "" {
      var old_ := s.carriers[op.id].port;
      assert t.ports[old_].carrier == op.id && t.carriers[op.id].port != old_;
    } else if op.Bind? {
      assert op.id in t.carriers;
    } else {
      var id := s.ports[op.port].carrier;
      assert id in t.carriers && t.ports[t.carriers[id].port].carrier == "";
    }
  }

  predicate AllCareful(s: Store, run: seq<Op>)
    decreases run
  {
    run == [] || (Careful(s, run[0]) && AllCareful(Apply(s, run[0]), run[1..]))
  }

  ghost predicate AlwaysBijection(s: Store, run: seq<Op>)
    decreases run
  {
    Bijection(s) && (run == [] || AlwaysBijection(Apply(s, run[0]), run[1..]))
  }

  /** In every interleaving, the bijection holds throughout exactly when every call is careful. */
  lemma {:induction false} BijectionIffCareful(s: Store, run: seq<Op>)
    requires Bijection(s)
    ensures AlwaysBijection(s, run) <==> AllCareful(s, run)
    decreases run
  {
    if run != [] {
      if Careful(s, run[0]) {
        CarefulKeepsBijection(s, run[0]);
        BijectionIffCareful(Apply(s, run[0]), run[1..]);
      } else {
        CarelessBreaksBijection(s, run[0]);
      }
    }
  }

  // ----- A port is READY_TO_UNLOAD exactly when its carrier is -----

  /** The store and the calls of `ReadyToUnload` between their two critical sections, by carrier ID. */
  datatype Tracked = Tracked(store: Store, open: multiset<string>)

  /** The second section of `ReadyToUnload` runs only after a first one that succeeded. */
  predicate CanStep(t: Tracked, op: Op) {
    op.UnloadPort? ==> op.id in t.open
  }

  function Step(t: Tracked, op: Op): Tracked {
    var open :=
      match op
      case UnloadCarrier(id) => if CanTransit(t.store, id, UNLOADABLE) then t.open + multiset{id} else t.open
      case UnloadPort(id) => t.open - multiset{id}
      case _ => t.open;
    Tracked(Apply(t.store, op), open)
  }

  predicate PortAgrees(s: Store, p: uint32)
    requires p in s.ports
  {
    var id := s.ports[p].carrier;
    s.ports[p].state.UnloadReady? <==> (id in s.carriers && s.carriers[id].state.ReadyToUnload?)
  }

  ghost predicate Aligned(s: Store) {
    forall p | p in s.ports :: PortAgrees(s, p)
  }

  predicate Unloading(t: Tracked, p: uint32)
    requires p in t.store.ports
  {
    t.store.ports[p].carrier != "" && t.store.ports[p].carrier in t.open
  }

  /** Port and carrier agree, or an unload of the carrier is under way. */
  predicate Fine(t: Tracked, p: uint32)
    requires p in t.store.ports
  {
    Unloading(t, p) || PortAgrees(t.store, p)
  }

  /** The bijection, and agreement at every port whose carrier has no unload under way. */
  ghost predicate Agreeing(t: Tracked) {
    Bijection(t.store) && forall p | p in t.store.ports :: Fine(t, p)
  }

  lemma AgreeingMeansAligned(s: Store)
    ensures Agreeing(Tracked(s, multiset{})) <==> Bijection(s) && Aligned(s)
  {
    assert forall p | p in s.ports :: Fine(Tracked(s, multiset{}), p) <==> PortAgrees(s, p);
  }

  predicate IsReady(s: Store, id: string) {
    id in s.carriers && s.carriers[id].state.ReadyToUnload?
  }

  /**
   * Besides being careful: a port whose carrier is ready to unload, with no
   * unload under way, is not put in service; and the second section of an
   * unload finds the carrier gone, or still ready, or due to be unloaded again.
   */
  predicate Orderly(t: Tracked, op: Op) {
    match op
    case PutInService(p) => p in t.store.ports && IsReady(t.store, t.store.ports[p].carrier) ==> Unloading(t, p)
    case UnloadPort(id) => id in t.store.carriers && !IsReady(t.store, id) ==> id in t.open - multiset{id}
    case _ => Careful(t.store, op)
  }

  /** Steps about a port or about which carriers there are. */
  lemma PlacingKeepsFine(t: Tracked, op: Op, p: uint32)
    requires Agreeing(t) && Orderly(t, op) && p in Step(t, op).store.ports
    requires op.DefinePort? || op.PutInService? || op.TakeOutOfService? || op.Bind? || op.Unbind?
    ensures Fine(Step(t, op), p)
  {
    assert p in t.store.ports ==> Fine(t, p);
  }

  /** Steps about one carrier's state. */
  lemma MovingKeepsFine(t: Tracked, op: Op, p: uint32)
    requires Agreeing(t) && Orderly(t, op) && p in Step(t, op).store.ports
    requires op.Transit? || op.UnloadCarrier? || op.UnloadPort? || op.Unload?
    ensures Fine(Step(t, op), p)
  {
    assert p in t.store.ports && Fine(t, p);
  }

  lemma OrderlyKeepsAgreeing(t: Tracked, op: Op)
    requires Agreeing(t) && CanStep(t, op) && Orderly(t, op)
    ensures Agreeing(Step(t, op))
  {
    CarefulKeepsBijection(t.store, op);
    hide Bijection, Apply, Orderly;
    forall p | p in Step(t, op).store.ports
      ensures Fine(Step(t, op), p)
    {
      if op.Transit? || op.UnloadCarrier? || op.UnloadPort? || op.Unload? {
        MovingKeepsFine(t, op, p);
      } else {
        PlacingKeepsFine(t, op, p);
      }
    }
  }

  lemma DisorderlyBreaksAgreeing(t: Tracked, op: Op)
    requires Agreeing(t) && CanStep(t, op) && !Orderly(t, op)
    ensures !Agreeing(Step(t, op))
  {
    var s, t' := t.store, Step(t, op);
    match op
    case PutInService(p) => assert !Fine(t', p);
    case UnloadPort(id) =>
      var p := s.carriers[id].port;
      assert !Fine(t', p);
    case _ => CarelessBreaksBijection(s, op);
  }

  predicate IsRun(t: Tracked, run: seq<Op>)
    decreases run
  {
    run == [] || (CanStep(t, run[0]) && IsRun(Step(t, run[0]), run[1..]))
  }

  predicate AllOrderly(t: Tracked, run: seq<Op>)
    decreases run
  {
    run == [] || (Orderly(t, run[0]) && AllOrderly(Step(t, run[0]), run[1..]))
  }

  ghost predicate AlwaysAgreeing(t: Tracked, run: seq<Op>)
    decreases run
  {
    Agreeing(t) && (run == [] || AlwaysAgreeing(Step(t, run[0]), run[1..]))
  }

  /**
   * With `ReadyToUnload` in its two sections, in every interleaving: ports and
   * carriers agree on readiness, wherever no unload is under way, throughout
   * the run if and only if every step is orderly.
   */
  lemma {:induction false} AgreeingIffOrderly(t: Tracked, run: seq<Op>)
    requires Agreeing(t) && IsRun(t, run)
    ensures AlwaysAgreeing(t, run) <==> AllOrderly(t, run)
    decreases run
  {
    if run != [] {
      if Orderly(t, run[0]) {
        OrderlyKeepsAgreeing(t, run[0]);
        AgreeingIffOrderly(Step(t, run[0]), run[1..]);
      } else {
        DisorderlyBreaksAgreeing(t, run[0]);
      }
    }
  }

  /** Without the lock held across `ReadyToUnload`, a carrier bound again in between leaves its new port wrongly ready. */
  lemma SplitUnloadMarksWrongCarrier(id: string, p: uint32)
    requires id != ""
    ensures
      var start := Store(map[], map[p := Port(ReadyToLoad, "")]);
      var run := [Bind(id, p), UnloadCarrier(id), Unbind(id), Bind(id, p), UnloadPort(id)];
      && AllCareful(start, run)
      && After(start, run) == Store(map[id := Carrier(NotAccessed, p)], map[p := Port(UnloadReady, id)])
  {
    var run := [Bind(id, p), UnloadCarrier(id), Unbind(id), Bind(id, p), UnloadPort(id)];
    var start := Store(map[], map[p := Port(ReadyToLoad, "")]);
    var bound := Apply(start, run[0]);
    var half := Apply(bound, run[1]);
    assert Apply(half, run[2]) == start;
    var end := Apply(bound, run[4]);
    assert AllCareful(end, []) && After(end, []) == end;
    assert AllCareful(bound, run[4..]) && After(bound, run[4..]) == end;
    assert AllCareful(start, run[3..]) && After(start, run[3..]) == end;
    assert AllCareful(half, run[2..]) && After(half, run[2..]) == end;
    assert AllCareful(bound, run[1..]) && After(bound, run[1..]) == end;
  }

  // ----- The manager as an object -----

  class CarrierManager {
    var carriers: map<string, Carrier>
    var ports: map<uint32, Port>
    var announced: seq<Announcement<CarrierState>>

    ghost function View(): Store
      reads this
    {
      Store(carriers, ports)
    }

    constructor ()
      ensures View() == EMPTY && announced == []
    {
      carriers, ports, announced := map[], map[], [];
    }

    method DefinePort(p: uint32)
      modifies this`ports
      ensures View() == Apply(old(View()), Op.DefinePort(p))
    {
      ports := ports[p := Port(OutOfService, "")];
    }

    method SetPortInService(p: uint32) returns (ok: bool)
      modifies this`ports
      ensures View() == Apply(old(View()), PutInService(p)) && ok == (p in old(ports))
    {
      if p !in ports {
        return false;
      }
      ports := ports[p := ports[p].(state := ReadyToLoad)];
      ok := true;
    }

    method SetPortOutOfService(p: uint32) returns (ok: bool)
      modifies this`ports
      ensures View() == Apply(old(View()), TakeOutOfService(p))
      ensures ok == (p in old(ports) && old(ports)[p].carrier == "")
    {
      if p !in ports || ports[p].carrier != "" {
        return false;
      }
      ports := ports[p := ports[p].(state := OutOfService)];
      ok := true;
    }

    method BindCarrier(id: string, p: uint32) returns (ok: bool)
      modifies this`carriers, this`ports
      ensures View() == Apply(old(View()), Bind(id, p)) && ok == CanBind(old(View()), p)
    {
      if p !in ports || ports[p].state != ReadyToLoad || ports[p].carrier != "" {
        return false;
      }
      carriers := carriers[id := Carrier(NotAccessed, p)];
      ports := ports[p := ports[p].(carrier := id)];
      ports := ports[p := ports[p].(state := TransferReady)];
      ok := true;
    }

    method UnbindCarrier(id: string) returns (ok: bool)
      modifies this`carriers, this`ports
      ensures View() == Apply(old(View()), Unbind(id)) && ok == CanUnbind(old(View()), id)
    {
      if id !in carriers || (carriers[id].state != CarrierState.ReadyToUnload && carriers[id].state != NotAccessed) {
        return false;
      }
      var p := carriers[id].port;
      if p in ports {
        ports := ports[p := Port(ReadyToLoad, "")];
      }
      carriers := carriers - {id};
      ok := true;
    }

    method TransitionCarrier(id: string, expected: seq<CarrierState>, to: CarrierState) returns (ok: bool)
      modifies this`carriers, this`announced
      ensures View() == Transition(old(View()), id, expected, to) && ok == CanTransit(old(View()), id, expected)
      ensures announced == old(announced) + (if ok then [Announcement(id, old(carriers)[id].state, to)] else [])
    {
      if id !in carriers {
        return false;
      }
      var valid := false;
      for i := 0 to |expected|
        invariant !valid && carriers[id].state !in expected[..i]
      {
        if carriers[id].state == expected[i] {
          valid := true;
          break;
        }
      }
      if !valid {
        return false;
      }
      var oldState := carriers[id].state;
      carriers := carriers[id := carriers[id].(state := to)];
      announced := announced + [Announcement(id, oldState, to)];
      ok := true;
    }

    method Transit(id: string, m: Move) returns (ok: bool)
      modifies this`carriers, this`announced
      ensures View() == Apply(old(View()), Op.Transit(id, m)) && ok == CanTransit(old(View()), id, Expected(m))
      ensures announced == old(announced) + Announced(old(View()), Op.Transit(id, m))
    {
      ok := TransitionCarrier(id, Expected(m), Target(m));
    }

    /** Both critical sections of `ReadyToUnload`, run without interference. */
    method ReadyToUnload(id: string) returns (ok: bool)
      modifies this
      ensures View() == Apply(old(View()), Unload(id)) && ok == CanTransit(old(View()), id, UNLOADABLE)
      ensures announced == old(announced) + Announced(old(View()), Unload(id))
    {
      ok := TransitionCarrier(id, UNLOADABLE, CarrierState.ReadyToUnload);
      if ok {
        MarkPort(id);
      }
    }

    /** The second critical section of `ReadyToUnload`. */
    method MarkPort(id: string)
      modifies this`ports
      ensures View() == Apply(old(View()), UnloadPort(id))
    {
      if id in carriers {
        var p := carriers[id].port;
        if p in ports {
          ports := ports[p := ports[p].(state := UnloadReady)];
        }
      }
    }
  }
}
