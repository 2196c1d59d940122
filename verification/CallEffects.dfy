/** Which call makes which change (SEMI E40, E94 and E87), and which jobs and ports may be used for what. */
module CallEffects {
  import C = Carriers
  import J = Jobs
  import PJ = ProcessJobs
  import CJ = ControlJobs
  import opened Bytes

  // ----- Jobs -----

  const PROCESS_CALLS: set<(PJ.Call, PJ.State, PJ.State)> := {
    (PJ.Setup, PJ.Queued, PJ.SettingUp),
    (PJ.SetupComplete, PJ.SettingUp, PJ.WaitingForStart),
    (PJ.Start, PJ.WaitingForStart, PJ.Processing),
    (PJ.Complete, PJ.Processing, PJ.ProcessComplete),
    (PJ.Stop, PJ.Processing, PJ.Stopping),
    (PJ.StopDone, PJ.Stopping, PJ.Stopped),
    (PJ.Abort, PJ.Queued, PJ.Aborting),
    (PJ.Abort, PJ.SettingUp, PJ.Aborting),
    (PJ.Abort, PJ.WaitingForStart, PJ.Aborting),
    (PJ.Abort, PJ.Processing, PJ.Aborting),
    (PJ.Abort, PJ.Stopping, PJ.Aborting),
    (PJ.AbortDone, PJ.Aborting, PJ.Aborted)
  }

  const CONTROL_CALLS: set<(CJ.Call, CJ.State, CJ.State)> := {
    (CJ.Select, CJ.Queued, CJ.Selected),
    (CJ.WaitForStart, CJ.Selected, CJ.WaitingForStart),
    (CJ.Execute, CJ.WaitingForStart, CJ.Executing),
    (CJ.Execute, CJ.Paused, CJ.Executing),
    (CJ.Complete, CJ.Executing, CJ.Completed),
    (CJ.Pause, CJ.Executing, CJ.Pausing),
    (CJ.PauseDone, CJ.Pausing, CJ.Paused),
    (CJ.Stop, CJ.Queued, CJ.Stopping),
    (CJ.Stop, CJ.Selected, CJ.Stopping),
    (CJ.Stop, CJ.WaitingForStart, CJ.Stopping),
    (CJ.Stop, CJ.Executing, CJ.Stopping),
    (CJ.Stop, CJ.Pausing, CJ.Stopping),
    (CJ.Stop, CJ.Paused, CJ.Stopping),
    (CJ.StopDone, CJ.Stopping, CJ.Stopped)
  }

  /** A call on a process job succeeds in the listed states only, and then makes the listed change and no other. */
  lemma ProcessCallDoes(jobs: map<string, PJ.State>, id: string, c: PJ.Call)
    requires id in jobs
    ensures
      var after := J.Apply(PJ.MODEL, jobs, J.Do(id, c));
      && after.Keys == jobs.Keys && (forall other | other in jobs && other != id :: after[other] == jobs[other])
      && (J.Accepts(PJ.MODEL, jobs, J.Do(id, c)) <==> exists s :: (c, jobs[id], s) in PROCESS_CALLS)
      && (J.Accepts(PJ.MODEL, jobs, J.Do(id, c)) ==> (c, jobs[id], after[id]) in PROCESS_CALLS)
      && (!J.Accepts(PJ.MODEL, jobs, J.Do(id, c)) ==> after == jobs)
  {
  }

  lemma ControlCallDoes(jobs: map<string, CJ.State>, id: string, c: CJ.Call)
    requires id in jobs
    ensures
      var after := J.Apply(CJ.MODEL, jobs, J.Do(id, c));
      && after.Keys == jobs.Keys && (forall other | other in jobs && other != id :: after[other] == jobs[other])
      && (J.Accepts(CJ.MODEL, jobs, J.Do(id, c)) <==> exists s :: (c, jobs[id], s) in CONTROL_CALLS)
      && (J.Accepts(CJ.MODEL, jobs, J.Do(id, c)) ==> (c, jobs[id], after[id]) in CONTROL_CALLS)
      && (!J.Accepts(CJ.MODEL, jobs, J.Do(id, c)) ==> after == jobs)
  {
  }

  ghost predicate Stuck<S, D(!new)>(m: J.Model<S, D>, s: S) {
    forall c :: s !in m.expected(c)
  }

  /** A process job can be removed exactly when no call can move it any more. */
  lemma RemovableIffStuck(p: PJ.State)
    ensures p in PJ.MODEL.terminal <==> Stuck(PJ.MODEL, p)
  {
    if p !in PJ.MODEL.terminal {
      var call := if p.Aborting? then PJ.AbortDone else PJ.Abort;
      assert p in PJ.MODEL.expected(call);
    }
  }

  /** So can a control job. */
  lemma ControlRemovableIffStuck(c: CJ.State)
    ensures c in CJ.MODEL.terminal <==> Stuck(CJ.MODEL, c)
  {
    if c !in CJ.MODEL.terminal {
      var call := if c.Stopping? then CJ.StopDone else CJ.Stop;
      assert c in CJ.MODEL.expected(call);
    }
  }

  // ----- Carriers -----

  const CARRIER_MOVES: set<(C.Move, C.CarrierState, C.CarrierState)> := {
    (C.ProceedWithCarrier, C.NotAccessed, C.WaitingForHost),
    (C.StartAccess, C.WaitingForHost, C.InAccess),
    (C.CompleteAccess, C.InAccess, C.Complete),
    (C.StopCarrier, C.InAccess, C.Halted),
    (C.ResumeCarrier, C.Halted, C.InAccess)
  }

  /** A transition of a carrier makes the listed change, in the listed state only, and touches nothing else. */
  lemma MoveDoes(s: C.Store, id: string, m: C.Move)
    requires id in s.carriers
    ensures
      var after := C.Apply(s, C.Op.Transit(id, m));
      && after.ports == s.ports && after.carriers.Keys == s.carriers.Keys
      && (forall other | other in s.carriers && other != id :: after.carriers[other] == s.carriers[other])
      && after.carriers[id].port == s.carriers[id].port
      && (after != s ==> (m, s.carriers[id].state, after.carriers[id].state) in CARRIER_MOVES)
      && (after == s ==> forall t :: (m, s.carriers[id].state, t) !in CARRIER_MOVES)
  {
    if C.CanTransit(s, id, C.Expected(m)) {
      assert C.Apply(s, C.Op.Transit(id, m)).carriers[id].state != s.carriers[id].state;
    }
  }

  /** Carriers are unloaded from COMPLETE, STOPPED and NOT_ACCESSED only. */
  lemma UnloadDoes(s: C.Store, id: string)
    requires id in s.carriers
    ensures
      var after := C.Apply(s, C.UnloadCarrier(id));
      if s.carriers[id].state in {C.Complete, C.Halted, C.NotAccessed}
      then after == C.Store(s.carriers[id := C.Carrier(C.ReadyToUnload, s.carriers[id].port)], s.ports)
      else after == s
  {
  }

  // ----- Load ports -----

  /** A free port is out of service or ready to load; an occupied one is ready for transfer or, like its carrier, to unload. */
  predicate PortInOrder(s: C.Store, p: uint32)
    requires p in s.ports
  {
    var id := s.ports[p].carrier;
    if id == "" then s.ports[p].state in {C.OutOfService, C.ReadyToLoad}
    else s.ports[p].state == if C.IsReady(s, id) then C.UnloadReady else C.TransferReady
  }

  ghost predicate InOrder(s: C.Store) {
    C.Bijection(s) && forall p | p in s.ports :: PortInOrder(s, p)
  }

  /** Careful calls, ports put in service only while free, and `ReadyToUnload` uninterrupted. */
  predicate Proper(s: C.Store, op: C.Op) {
    && C.Careful(s, op) && !op.UnloadCarrier? && !op.UnloadPort?
    && (op.PutInService? && op.port in s.ports ==> s.ports[op.port].carrier == "")
  }

  lemma ProperKeepsOrder(s: C.Store, op: C.Op)
    requires InOrder(s) && Proper(s, op)
    ensures InOrder(C.Apply(s, op))
  {
    C.CarefulKeepsBijection(s, op);
    var t := C.Apply(s, op);
    forall p | p in t.ports
      ensures PortInOrder(t, p)
    {
      assert p in s.ports ==> PortInOrder(s, p);
    }
  }

  predicate AllProper(s: C.Store, run: seq<C.Op>)
    decreases run
  {
    run == [] || (Proper(s, run[0]) && AllProper(C.Apply(s, run[0]), run[1..]))
  }

  /** Over every run of proper calls the ports' states follow from what stands on them. */
  lemma {:induction false} PortsStayInOrder(s: C.Store, run: seq<C.Op>)
    requires InOrder(s) && AllProper(s, run)
    ensures InOrder(C.After(s, run))
    decreases run
  {
    hide InOrder, Proper, C.Apply;
    if run != [] {
      ProperKeepsOrder(s, run[0]);
      PortsStayInOrder(C.Apply(s, run[0]), run[1..]);
    }
  }

  predicate ClosedPort(s: C.Store, p: uint32) {
    p in s.ports ==> s.ports[p].carrier == "" && s.ports[p].state == C.OutOfService
  }

  /** Defining a port, and taking a free one out of service, closes it. */
  lemma ClosedByCall(s: C.Store, p: uint32)
    ensures p in C.Apply(s, C.DefinePort(p)).ports && ClosedPort(C.Apply(s, C.DefinePort(p)), p)
    ensures p in s.ports && s.ports[p].carrier == "" ==> ClosedPort(C.Apply(s, C.TakeOutOfService(p)), p)
    ensures p in s.ports && s.ports[p].carrier != "" ==> C.Apply(s, C.TakeOutOfService(p)) == s
  {
  }

  /** A port that was defined or taken out of service takes no carrier until it is put in service. */
  lemma {:induction false} ClosedUntilInService(s: C.Store, run: seq<C.Op>, p: uint32)
    requires InOrder(s) && ClosedPort(s, p) && AllProper(s, run) && C.PutInService(p) !in run
    ensures ClosedPort(C.After(s, run), p) && !C.CanBind(C.After(s, run), p)
    decreases run
  {
    if run != [] {
      ProperKeepsOrder(s, run[0]);
      assert ClosedPort(C.Apply(s, run[0]), p);
      hide InOrder, Proper, C.Apply;
      ClosedUntilInService(C.Apply(s, run[0]), run[1..], p);
    }
  }

  /** Once in service, a free port takes a carrier. */
  lemma OpenOnceInService(s: C.Store, p: uint32, id: string)
    requires p in s.ports && s.ports[p].carrier == ""
    ensures C.CanBind(C.Apply(s, C.PutInService(p)), p)
    ensures
      var t := C.Apply(C.Apply(s, C.PutInService(p)), C.Bind(id, p));
      id in t.carriers && t.carriers[id] == C.Carrier(C.NotAccessed, p) && t.ports[p].carrier == id
  {
  }

  /** A carrier leaves only from READY_TO_UNLOAD or NOT_ACCESSED; its port is then ready for the next one. */
  lemma UnbindDoes(s: C.Store, id: string)
    requires C.Bijection(s) && id in s.carriers
    ensures
      var t, p := C.Apply(s, C.Unbind(id)), s.carriers[id].port;
      if s.carriers[id].state in {C.ReadyToUnload, C.NotAccessed}
      then id !in t.carriers && t.carriers == s.carriers - {id} && C.CanBind(t, p)
      else t == s
  {
  }

  /** New jobs are queued, known ones kept as they are, and only stuck ones removed. */
  lemma CreateAndRemove(jobs: map<string, PJ.State>, id: string)
    ensures J.Apply(PJ.MODEL, jobs, J.Create(id)) == if id in jobs then jobs else jobs[id := PJ.Queued]
    ensures J.Apply(PJ.MODEL, jobs, J.Remove(id)) ==
            if id in jobs && jobs[id] in {PJ.ProcessComplete, PJ.Stopped, PJ.Aborted} then jobs - {id} else jobs
  {
  }
}
