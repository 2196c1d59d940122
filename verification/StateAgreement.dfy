/** The managers against the observer's tables (pkg/validator/state.go): two separate descriptions of the same machines. */
module StateAgreement {
  import opened StateValidator
  import opened GemEquipment
  import C = Carriers
  import J = Jobs
  import PJ = ProcessJobs
  import CJ = ControlJobs

  // ----- Carriers (SEMI E87) -----

  const CARRIER_TABLE: set<(C.CarrierState, C.CarrierState)> := {
    (C.NotAccessed, C.WaitingForHost),
    (C.WaitingForHost, C.InAccess),
    (C.InAccess, C.Complete),
    (C.InAccess, C.Halted),
    (C.Complete, C.ReadyToUnload),
    (C.Halted, C.ReadyToUnload),
    (C.Halted, C.InAccess),
    (C.WaitingForHost, C.ReadyToUnload),
    (C.NotAccessed, C.ReadyToUnload)
  }

  /** What the table lists and no call of the manager does: a carrier that waits for the host cannot be cancelled. */
  const CARRIER_UNUSED := (C.WaitingForHost, C.ReadyToUnload)

  ghost predicate CarrierEdge(from: C.CarrierState, to: C.CarrierState) {
    (exists m :: from in C.Expected(m) && to == C.Target(m)) || (from in C.UNLOADABLE && to == C.ReadyToUnload)
  }

  lemma CarrierEdgesAreListedBut(from: C.CarrierState, to: C.CarrierState)
    ensures CarrierEdge(from, to) <==> (from, to) in CARRIER_TABLE - {CARRIER_UNUSED}
  {
    forall m
      ensures from in C.Expected(m) && to == C.Target(m) ==> (from, to) in CARRIER_TABLE - {CARRIER_UNUSED}
    {
    }
    assert from in C.Expected(C.ProceedWithCarrier) && to == C.Target(C.ProceedWithCarrier) ==> CarrierEdge(from, to);
    assert from in C.Expected(C.StartAccess) && to == C.Target(C.StartAccess) ==> CarrierEdge(from, to);
    assert from in C.Expected(C.CompleteAccess) && to == C.Target(C.CompleteAccess) ==> CarrierEdge(from, to);
    assert from in C.Expected(C.StopCarrier) && to == C.Target(C.StopCarrier) ==> CarrierEdge(from, to);
    assert from in C.Expected(C.ResumeCarrier) && to == C.Target(C.ResumeCarrier) ==> CarrierEdge(from, to);
  }

  lemma {:induction false} CarrierHeardAreEdges(s: C.Store, run: seq<C.Op>)
    ensures forall a | a in C.Heard(s, run) :: CarrierEdge(a.from, a.to)
    decreases run
  {
    if run != [] {
      CarrierHeardAreEdges(C.Apply(s, run[0]), run[1..]);
    }
  }

  lemma EveryCarrierStateIsReachable(id: string, s: C.CarrierState)
    ensures C.Reachable(id, s)
  {
    hide C.Reachable, C.CanBeHeard;
    C.BoundIsReachable(id);
    C.MoveReaches(id, C.NotAccessed, C.ProceedWithCarrier);
    C.MoveReaches(id, C.WaitingForHost, C.StartAccess);
    C.MoveReaches(id, C.InAccess, C.CompleteAccess);
    C.MoveReaches(id, C.InAccess, C.StopCarrier);
    C.UnloadReaches(id, C.Complete);
    match s
    case NotAccessed =>
    case WaitingForHost =>
    case InAccess =>
    case Complete =>
    case Halted =>
    case ReadyToUnload =>
  }

  /** The changes some run announces are the listed ones but one. */
  lemma CarrierChangesHeard(a: Announcement<C.CarrierState>)
    ensures C.CanBeHeard(a) <==> (a.from, a.to) in CARRIER_TABLE - {CARRIER_UNUSED}
  {
    CarrierEdgesAreListedBut(a.from, a.to);
    if C.CanBeHeard(a) {
      var run: seq<C.Op> :| a in C.Heard(C.EMPTY, run);
      CarrierHeardAreEdges(C.EMPTY, run);
    }
    if CarrierEdge(a.from, a.to) {
      EveryCarrierStateIsReachable(a.id, a.from);
      hide C.CanBeHeard, C.Reachable;
      if a.from in C.UNLOADABLE && a.to == C.ReadyToUnload {
        C.UnloadReaches(a.id, a.from);
      } else {
        var m :| a.from in C.Expected(m) && a.to == C.Target(m);
        C.MoveReaches(a.id, a.from, m);
      }
    }
  }

  /** Over any run, in any interleaving, the observer records no violation of the carrier manager. */
  lemma CarrierRunsAreAccepted(s: C.Store, run: seq<C.Op>)
    ensures Violations(CARRIER_TABLE, C.Heard(s, run)) == []
  {
    CarrierHeardAreEdges(s, run);
    forall a | a in C.Heard(s, run)
      ensures Listed(CARRIER_TABLE, a)
    {
      CarrierEdgesAreListedBut(a.from, a.to);
    }
    NoViolationsIff(CARRIER_TABLE, C.Heard(s, run));
  }

  // ----- Process jobs (SEMI E40) -----

  const PROCESS_TABLE: set<(PJ.State, PJ.State)> := {
    (PJ.Queued, PJ.SettingUp),
    (PJ.SettingUp, PJ.WaitingForStart),
    (PJ.WaitingForStart, PJ.Processing),
    (PJ.Processing, PJ.ProcessComplete),
    (PJ.Processing, PJ.Stopping),
    (PJ.Stopping, PJ.Stopped),
    (PJ.Stopped, PJ.SettingUp),
    (PJ.Queued, PJ.Aborting),
    (PJ.SettingUp, PJ.Aborting),
    (PJ.WaitingForStart, PJ.Aborting),
    (PJ.Processing, PJ.Aborting),
    (PJ.Stopping, PJ.Aborting),
    (PJ.Stopped, PJ.Aborting),
    (PJ.Aborting, PJ.Aborted)
  }

  /** The table lets a stopped job restart or abort; the manager does neither. */
  const PROCESS_UNUSED := {(PJ.Stopped, PJ.SettingUp), (PJ.Stopped, PJ.Aborting)}


  lemma ProcessEdges(from: PJ.State, to: PJ.State)
    ensures J.IsEdge(PJ.MODEL, from, to) <==> (from, to) in PROCESS_TABLE - PROCESS_UNUSED
  {
    if (from, to) in PROCESS_TABLE - PROCESS_UNUSED {
      var c :=
        match to
        case SettingUp => PJ.Setup
        case WaitingForStart => PJ.SetupComplete
        case Processing => PJ.Start
        case ProcessComplete => PJ.Complete
        case Stopping => PJ.Stop
        case Stopped => PJ.StopDone
        case Aborting => PJ.Abort
        case _ => PJ.AbortDone;
      assert from in PJ.MODEL.expected(c) && to == PJ.MODEL.target(c);
    }
  }

  lemma ProcessCallReaches(id: string, s: PJ.State, c: PJ.Call)
    requires J.Reachable(PJ.MODEL, id, s) && s in PJ.Expected(c)
    ensures J.Reachable(PJ.MODEL, id, PJ.Target(c))
  {
    J.CallReaches(PJ.MODEL, id, s, c);
  }

  lemma EveryProcessStateIsReachable(id: string)
    ensures forall s :: J.Reachable(PJ.MODEL, id, s)
  {
    hide J.Reachable, J.CanBeHeard;
    J.InitialIsReachable(PJ.MODEL, id);
    ProcessCallReaches(id, PJ.Queued, PJ.Setup);
    ProcessCallReaches(id, PJ.SettingUp, PJ.SetupComplete);
    ProcessCallReaches(id, PJ.WaitingForStart, PJ.Start);
    ProcessCallReaches(id, PJ.Processing, PJ.Complete);
    ProcessCallReaches(id, PJ.Processing, PJ.Stop);
    ProcessCallReaches(id, PJ.Stopping, PJ.StopDone);
    ProcessCallReaches(id, PJ.Queued, PJ.Abort);
    ProcessCallReaches(id, PJ.Aborting, PJ.AbortDone);
    forall s: PJ.State
      ensures J.Reachable(PJ.MODEL, id, s)
    {
      match s
      case Queued =>
      case SettingUp =>
      case WaitingForStart =>
      case Processing =>
      case ProcessComplete =>
      case Stopping =>
      case Stopped =>
      case Aborting =>
      case Aborted =>
    }
  }

  /** The changes some run announces are the listed ones but two. */
  lemma ProcessChangesHeard(a: Announcement<PJ.State>)
    ensures J.CanBeHeard(PJ.MODEL, a) <==> (a.from, a.to) in PROCESS_TABLE - PROCESS_UNUSED
  {
    EveryProcessStateIsReachable(a.id);
    J.HeardIffEdge(PJ.MODEL, a);
    ProcessEdges(a.from, a.to);
  }

  lemma ProcessRunsAreAccepted(jobs: map<string, PJ.State>, run: seq<J.Step<PJ.Call>>)
    ensures Violations(PROCESS_TABLE, J.Heard(PJ.MODEL, jobs, run)) == []
  {
    J.HeardAreEdges(PJ.MODEL, jobs, run);
    forall a | a in J.Heard(PJ.MODEL, jobs, run)
      ensures Listed(PROCESS_TABLE, a)
    {
      ProcessEdges(a.from, a.to);
    }
    NoViolationsIff(PROCESS_TABLE, J.Heard(PJ.MODEL, jobs, run));
  }

  // ----- Control jobs (SEMI E94) -----

  const CONTROL_JOB_TABLE: set<(CJ.State, CJ.State)> := {
    (CJ.Queued, CJ.Selected),
    (CJ.Selected, CJ.WaitingForStart),
    (CJ.WaitingForStart, CJ.Executing),
    (CJ.Executing, CJ.Completed),
    (CJ.Executing, CJ.Pausing),
    (CJ.Pausing, CJ.Paused),
    (CJ.Paused, CJ.Executing),
    (CJ.Executing, CJ.Stopping),
    (CJ.Pausing, CJ.Stopping),
    (CJ.Paused, CJ.Stopping),
    (CJ.Stopping, CJ.Stopped),
    (CJ.Queued, CJ.Stopping),
    (CJ.Selected, CJ.Stopping),
    (CJ.WaitingForStart, CJ.Stopping)
  }

  lemma ControlJobEdges(from: CJ.State, to: CJ.State)
    ensures J.IsEdge(CJ.MODEL, from, to) <==> (from, to) in CONTROL_JOB_TABLE
  {
    if (from, to) in CONTROL_JOB_TABLE {
      var c :=
        match to
        case Selected => CJ.Select
        case WaitingForStart => CJ.WaitForStart
        case Executing => CJ.Execute
        case Completed => CJ.Complete
        case Pausing => CJ.Pause
        case Paused => CJ.PauseDone
        case Stopping => CJ.Stop
        case _ => CJ.StopDone;
      assert from in CJ.MODEL.expected(c) && to == CJ.MODEL.target(c);
    }
  }

  lemma ControlJobCallReaches(id: string, s: CJ.State, c: CJ.Call)
    requires J.Reachable(CJ.MODEL, id, s) && s in CJ.Expected(c)
    ensures J.Reachable(CJ.MODEL, id, CJ.Target(c))
  {
    J.CallReaches(CJ.MODEL, id, s, c);
  }

  lemma EveryControlJobStateIsReachable(id: string)
    ensures forall s :: J.Reachable(CJ.MODEL, id, s)
  {
    hide J.Reachable, J.CanBeHeard;
    J.InitialIsReachable(CJ.MODEL, id);
    ControlJobCallReaches(id, CJ.Queued, CJ.Select);
    ControlJobCallReaches(id, CJ.Selected, CJ.WaitForStart);
    ControlJobCallReaches(id, CJ.WaitingForStart, CJ.Execute);
    ControlJobCallReaches(id, CJ.Executing, CJ.Complete);
    ControlJobCallReaches(id, CJ.Executing, CJ.Pause);
    ControlJobCallReaches(id, CJ.Pausing, CJ.PauseDone);
    ControlJobCallReaches(id, CJ.Queued, CJ.Stop);
    ControlJobCallReaches(id, CJ.Stopping, CJ.StopDone);
    forall s: CJ.State
      ensures J.Reachable(CJ.MODEL, id, s)
    {
      match s
      case Queued =>
      case Selected =>
      case WaitingForStart =>
      case Executing =>
      case Pausing =>
      case Paused =>
      case Completed =>
      case Stopping =>
      case Stopped =>
    }
  }

  /** The changes some run announces are exactly the listed ones. */
  lemma ControlJobChangesHeard(a: Announcement<CJ.State>)
    ensures J.CanBeHeard(CJ.MODEL, a) <==> Listed(CONTROL_JOB_TABLE, a)
  {
    EveryControlJobStateIsReachable(a.id);
    J.HeardIffEdge(CJ.MODEL, a);
    ControlJobEdges(a.from, a.to);
  }

  lemma ControlJobRunsAreAccepted(jobs: map<string, CJ.State>, run: seq<J.Step<CJ.Call>>)
    ensures Violations(CONTROL_JOB_TABLE, J.Heard(CJ.MODEL, jobs, run)) == []
  {
    J.HeardAreEdges(CJ.MODEL, jobs, run);
    forall a | a in J.Heard(CJ.MODEL, jobs, run)
      ensures Listed(CONTROL_JOB_TABLE, a)
    {
      ControlJobEdges(a.from, a.to);
    }
    NoViolationsIff(CONTROL_JOB_TABLE, J.Heard(CJ.MODEL, jobs, run));
  }

  // ----- Communication and control state (SEMI E30) -----

  const COMM_TABLE: set<(CommState, CommState)> := {
    (CommDisabled, CommWaitCra),
    (CommWaitCra, CommCommunicating),
    (CommWaitCra, CommWaitDelay),
    (CommWaitDelay, CommWaitCra),
    (CommWaitCra, CommDisabled),
    (CommWaitDelay, CommDisabled),
    (CommCommunicating, CommDisabled)
  }

  const CONTROL_TABLE: set<(ControlState, ControlState)> := {
    (OfflineEquipment, OfflineHost),
    (OfflineHost, OnlineLocal),
    (OfflineHost, OnlineRemote),
    (OnlineLocal, OnlineRemote),
    (OnlineRemote, OnlineLocal),
    (OnlineLocal, OfflineEquipment),
    (OnlineRemote, OfflineEquipment),
    (OfflineHost, OfflineEquipment)
  }

  /** The communication changes of a run; an operation that changes nothing is no change. */
  function CommChanges(sm: StateMachine, run: seq<StateOp>): seq<Announcement<CommState>>
    decreases run
  {
    if run == [] then []
    else
      var next := Perform(sm, run[0]);
      (if next.comm == sm.comm then [] else [Announcement("", sm.comm, next.comm)]) + CommChanges(next, run[1..])
  }

  function ControlChanges(sm: StateMachine, run: seq<StateOp>): seq<Announcement<ControlState>>
    decreases run
  {
    if run == [] then []
    else
      var next := Perform(sm, run[0]);
      (if next.control == sm.control then [] else [Announcement("", sm.control, next.control)]) + ControlChanges(next, run[1..])
  }

  predicate NeverOnline(sm: StateMachine, run: seq<StateOp>)
    decreases run
  {
    !IsOnline(sm.control) && (run == [] || NeverOnline(Perform(sm, run[0]), run[1..]))
  }

  lemma {:induction false} CommChangesAreListed(sm: StateMachine, run: seq<StateOp>)
    ensures forall a | a in CommChanges(sm, run) :: Listed(COMM_TABLE, a)
    decreases run
  {
    if run != [] {
      CommChangesAreListed(Perform(sm, run[0]), run[1..]);
    }
  }

  lemma CommRunsAreAccepted(sm: StateMachine, run: seq<StateOp>)
    ensures Violations(COMM_TABLE, CommChanges(sm, run)) == []
  {
    CommChangesAreListed(sm, run);
    NoViolationsIff(COMM_TABLE, CommChanges(sm, run));
  }

  lemma {:induction false} ListedIffNeverOnline(sm: StateMachine, run: seq<StateOp>)
    requires sm.control.OfflineEquipment?
    ensures (forall a | a in ControlChanges(sm, run) :: Listed(CONTROL_TABLE, a)) <==> NeverOnline(sm, run)
    decreases run
  {
    if run != [] {
      var next := Perform(sm, run[0]);
      if next.control.OfflineEquipment? {
        ListedIffNeverOnline(next, run[1..]);
        assert ControlChanges(sm, run) == ControlChanges(next, run[1..]);
      } else {
        var a := Announcement("", sm.control, next.control);
        assert ControlChanges(sm, run)[0] == a && !Listed(CONTROL_TABLE, a);
      }
    }
  }

  /** The control table disagrees: an equipment is free of violations exactly when it never goes online. */
  lemma ControlAcceptedIffNeverOnline(run: seq<StateOp>)
    ensures
      var start := StateMachine(CommDisabled, OfflineEquipment);
      Violations(CONTROL_TABLE, ControlChanges(start, run)) == [] <==> NeverOnline(start, run)
  {
    var start := StateMachine(CommDisabled, OfflineEquipment);
    ListedIffNeverOnline(start, run);
    NoViolationsIff(CONTROL_TABLE, ControlChanges(start, run));
  }

  /** The disagreement is reached by establishing communication and going online, as S1F13 and S1F17 do. */
  lemma GoingOnlineIsAViolation()
    ensures
      var start := StateMachine(CommDisabled, OfflineEquipment);
      Violations(CONTROL_TABLE, ControlChanges(start, [EnableComm, CommEstablished, GoOnlineRemote]))
      == [Announcement("", OfflineEquipment, OnlineRemote)]
  {
    var sm2 := StateMachine(CommCommunicating, OfflineEquipment);
    var run := [EnableComm, CommEstablished, GoOnlineRemote];
    assert run[1..][1..] == [GoOnlineRemote] && run[1..][0] == CommEstablished;
    assert ControlChanges(sm2, [GoOnlineRemote]) == [Announcement("", OfflineEquipment, OnlineRemote)];
    assert ControlChanges(StateMachine(CommWaitCra, OfflineEquipment), run[1..]) == ControlChanges(sm2, [GoOnlineRemote]);
  }
}
