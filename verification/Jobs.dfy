/** The job managers (pkg/driver/gem/processjob.go and controljob.go): one shape, instantiated by SEMI E40 and SEMI E94 below. */
module Jobs {
  import opened StateValidator

  /** What distinguishes the managers: where jobs start, where they may be removed, and what each call does. */
  datatype Model<S, !C> = Model(initial: S, terminal: seq<S>, expected: C -> seq<S>, target: C -> S)

  datatype Step<C> = Create(id: string) | Remove(id: string) | Do(id: string, call: C)

  predicate Accepts<S(==), C>(m: Model<S, C>, jobs: map<string, S>, step: Step<C>) {
    match step
    case Create(id) => id !in jobs
    case Remove(id) => id in jobs && jobs[id] in m.terminal
    case Do(id, c) => id in jobs && jobs[id] in m.expected(c)
  }

  function Apply<S(==), C>(m: Model<S, C>, jobs: map<string, S>, step: Step<C>): map<string, S> {
    if !Accepts(m, jobs, step) then jobs
    else
      match step
      case Create(id) => jobs[id := m.initial]
      case Remove(id) => jobs - {id}
      case Do(id, c) => jobs[id := m.target(c)]
  }

  function Announced<S(==), C>(m: Model<S, C>, jobs: map<string, S>, step: Step<C>): seq<Announcement<S>> {
    if step.Do? && Accepts(m, jobs, step) then [Announcement(step.id, jobs[step.id], m.target(step.call))] else []
  }

  function After<S(==), C>(m: Model<S, C>, jobs: map<string, S>, run: seq<Step<C>>): map<string, S>
    decreases run
  {
    if run == [] then jobs else After(m, Apply(m, jobs, run[0]), run[1..])
  }

  /** Everything the callback hears during a run, in order. */
  function Heard<S(==), C>(m: Model<S, C>, jobs: map<string, S>, run: seq<Step<C>>): seq<Announcement<S>>
    decreases run
  {
    if run == [] then [] else Announced(m, jobs, run[0]) + Heard(m, Apply(m, jobs, run[0]), run[1..])
  }

  /** The changes the calls of a manager can make. */
  ghost predicate IsEdge<S, C(!new)>(m: Model<S, C>, from: S, to: S) {
    exists c :: from in m.expected(c) && to == m.target(c)
  }

  lemma {:induction false} HeardAreEdges<S, C(!new)>(m: Model<S, C>, jobs: map<string, S>, run: seq<Step<C>>)
    ensures forall a | a in Heard(m, jobs, run) :: IsEdge(m, a.from, a.to)
    decreases run
  {
    if run != [] {
      HeardAreEdges(m, Apply(m, jobs, run[0]), run[1..]);
    }
  }

  /** Some run from an empty manager announces the change. */
  ghost predicate CanBeHeard<S, C(!new)>(m: Model<S, C>, a: Announcement<S>) {
    exists run: seq<Step<C>> :: a in Heard(m, map[], run)
  }

  ghost predicate Reachable<S, C(!new)>(m: Model<S, C>, id: string, s: S) {
    exists run: seq<Step<C>> :: After(m, map[], run) == map[id := s]
  }

  lemma {:induction false} RunsAppend<S, C>(m: Model<S, C>, jobs: map<string, S>, run: seq<Step<C>>, step: Step<C>)
    ensures After(m, jobs, run + [step]) == Apply(m, After(m, jobs, run), step)
    ensures Heard(m, jobs, run + [step]) == Heard(m, jobs, run) + Announced(m, After(m, jobs, run), step)
    decreases run
  {
    var all := run + [step];
    if run == [] {
      assert all[0] == step && all[1..] == [];
    } else {
      assert all[0] == run[0] && all[1..] == run[1..] + [step];
      RunsAppend(m, Apply(m, jobs, run[0]), run[1..], step);
    }
  }

  lemma InitialIsReachable<S, C(!new)>(m: Model<S, C>, id: string)
    ensures Reachable(m, id, m.initial)
  {
    var run: seq<Step<C>> := [Create(id)];
    var none: map<string, S> := map[];
    assert run[1..] == [];
    assert After(m, Apply(m, none, run[0]), run[1..]) == map[id := m.initial];
    assert After(m, none, run) == map[id := m.initial];
  }

  /** A call that is legal in a reachable state makes its target reachable and its change heard. */
  lemma CallReaches<S, C(!new)>(m: Model<S, C>, id: string, s: S, c: C)
    requires Reachable(m, id, s) && s in m.expected(c)
    ensures Reachable(m, id, m.target(c)) && CanBeHeard(m, Announcement(id, s, m.target(c)))
  {
    var run: seq<Step<C>> :| After(m, map[], run) == map[id := s];
    RunsAppend(m, map[], run, Do(id, c));
    assert After(m, map[], run + [Do(id, c)]) == map[id := m.target(c)];
    assert Announcement(id, s, m.target(c)) in Heard(m, map[], run + [Do(id, c)]);
  }

  /** Where every state is reachable, the changes heard over all runs are exactly the edges. */
  lemma HeardIffEdge<S(!new), C(!new)>(m: Model<S, C>, a: Announcement<S>)
    requires forall s :: Reachable(m, a.id, s)
    ensures CanBeHeard(m, a) <==> IsEdge(m, a.from, a.to)
  {
    if CanBeHeard(m, a) {
      var run: seq<Step<C>> :| a in Heard(m, map[], run);
      HeardAreEdges(m, map[], run);
    }
    if IsEdge(m, a.from, a.to) {
      var c :| a.from in m.expected(c) && a.to == m.target(c);
      assert Reachable(m, a.id, a.from);
      CallReaches(m, a.id, a.from, c);
    }
  }

  function CountOf<S>(heard: seq<Announcement<S>>, id: string): nat {
    if heard == [] then 0 else (if heard[0].id == id then 1 else 0) + CountOf(heard[1..], id)
  }

  lemma {:induction false} CountAdds<S>(a: seq<Announcement<S>>, b: seq<Announcement<S>>, id: string)
    ensures CountOf(a + b, id) == CountOf(a, id) + CountOf(b, id)
  {
    if a == [] {
      assert a + b == b;
    } else {
      assert (a + b)[1..] == a[1..] + b;
      CountAdds(a[1..], b, id);
    }
  }

  // ----- Calls on one job -----

  predicate Legal<S(==), C>(m: Model<S, C>, s: S, calls: seq<C>)
    decreases calls
  {
    calls == [] || (s in m.expected(calls[0]) && Legal(m, m.target(calls[0]), calls[1..]))
  }

  function Doing<C>(id: string, calls: seq<C>): seq<Step<C>> {
    if calls == [] then [] else [Do(id, calls[0])] + Doing(id, calls[1..])
  }

  /** Calls that are legal one after the other are all announced. */
  lemma {:induction false} LegalCallsAreHeard<S, C>(m: Model<S, C>, id: string, s: S, calls: seq<C>)
    requires Legal(m, s, calls)
    ensures CountOf(Heard(m, map[id := s], Doing(id, calls)), id) == |calls|
    decreases calls
  {
    if calls != [] {
      var next, run := m.target(calls[0]), Doing(id, calls);
      assert run[0] == Do(id, calls[0]) && run[1..] == Doing(id, calls[1..]);
      assert Apply(m, map[id := s], run[0]) == map[id := next];
      LegalCallsAreHeard(m, id, next, calls[1..]);
      CountAdds([Announcement(id, s, next)], Heard(m, map[id := next], run[1..]), id);
    }
  }

  class JobManager<S(==), !C> {
    const model: Model<S, C>
    var jobs: map<string, S>
    var announced: seq<Announcement<S>>

    constructor (model: Model<S, C>)
      ensures this.model == model && jobs == map[] && announced == []
    {
      this.model := model;
      jobs, announced := map[], [];
    }

    method Create(id: string) returns (ok: bool)
      modifies this`jobs
      ensures jobs == Apply(model, old(jobs), Step.Create(id)) && ok == Accepts(model, old(jobs), Step.Create(id))
    {
      if id in jobs {
        return false;
      }
      jobs := jobs[id := model.initial];
      ok := true;
    }

    /** `transition`, as called by one of the public calls. */
    method Transition(id: string, call: C) returns (ok: bool)
      modifies this`jobs, this`announced
      ensures jobs == Apply(model, old(jobs), Do(id, call)) && ok == Accepts(model, old(jobs), Do(id, call))
      ensures announced == old(announced) + Announced(model, old(jobs), Do(id, call))
    {
      var expected, to := model.expected(call), model.target(call);
      if id !in jobs {
        return false;
      }
      var valid := false;
      for i := 0 to |expected|
        invariant !valid && jobs[id] !in expected[..i]
      {
        if jobs[id] == expected[i] {
          valid := true;
          break;
        }
      }
      if !valid {
        return false;
      }
      var oldState := jobs[id];
      jobs := jobs[id := to];
      announced := announced + [Announcement(id, oldState, to)];
      ok := true;
    }

    method Remove(id: string) returns (ok: bool)
      modifies this`jobs
      ensures jobs == Apply(model, old(jobs), Step.Remove(id)) && ok == Accepts(model, old(jobs), Step.Remove(id))
    {
      if id !in jobs || jobs[id] !in model.terminal {
        return false;
      }
      jobs := jobs - {id};
      ok := true;
    }

    /** `ListActiveJobs`: each job that is not in a terminal state, once. */
    method ListActive() returns (active: seq<string>)
      ensures forall id :: id in active <==> id in jobs && jobs[id] !in model.terminal
      ensures forall i, j | 0 <= i < j < |active| :: active[i] != active[j]
    {
      active := [];
      var rest := jobs.Keys;
      while rest != {}
        invariant rest <= jobs.Keys
        invariant forall id :: id in active <==> id in jobs && id !in rest && jobs[id] !in model.terminal
        invariant forall i, j | 0 <= i < j < |active| :: active[i] != active[j]
        decreases rest
      {
        var id :| id in rest;
        rest := rest - {id};
        if jobs[id] !in model.terminal {
          active := active + [id];
        }
      }
    }
  }
}

/** Process jobs, SEMI E40. */
module ProcessJobs {
  import opened Jobs

  datatype State = Queued | SettingUp | WaitingForStart | Processing | ProcessComplete | Stopping | Stopped | Aborting | Aborted

  datatype Call = Setup | SetupComplete | Start | Complete | Stop | StopDone | Abort | AbortDone

  function Expected(c: Call): seq<State> {
    match c
    case Setup => [Queued]
    case SetupComplete => [SettingUp]
    case Start => [WaitingForStart]
    case Complete => [Processing]
    case Stop => [Processing]
    case StopDone => [Stopping]
    case Abort => [Queued, SettingUp, WaitingForStart, Processing, Stopping]
    case AbortDone => [Aborting]
  }

  function Target(c: Call): State {
    match c
    case Setup => SettingUp
    case SetupComplete => WaitingForStart
    case Start => Processing
    case Complete => ProcessComplete
    case Stop => Stopping
    case StopDone => Stopped
    case Abort => Aborting
    case AbortDone => Aborted
  }

  const MODEL: Model<State, Call> := Model(Queued, [ProcessComplete, Stopped, Aborted], Expected, Target)

  function Rank(s: State): nat {
    match s
    case Queued => 0
    case SettingUp => 1
    case WaitingForStart => 2
    case Processing => 3
    case Stopping => 4
    case ProcessComplete => 4
    case Aborting => 5
    case Stopped => 5
    case Aborted => 6
  }

  /** While a job lives, what is heard of it climbs its rank: never more than six changes in all. */
  lemma {:induction false} AtMostSixMoves(jobs: map<string, State>, run: seq<Step<Call>>, id: string)
    requires id in jobs && forall s | s in run :: !(s.Remove? && s.id == id)
    ensures id in After(MODEL, jobs, run)
    ensures CountOf(Heard(MODEL, jobs, run), id) + Rank(jobs[id]) <= Rank(After(MODEL, jobs, run)[id]) <= 6
    decreases run
  {
    if run != [] {
      var step := run[0];
      assert step in run;
      var next := Apply(MODEL, jobs, step);
      AtMostSixMoves(next, run[1..], id);
      CountAdds(Announced(MODEL, jobs, step), Heard(MODEL, next, run[1..]), id);
    }
  }

  /** The bound is reached: stopping and then aborting makes six. */
  lemma SixIsReached(id: string)
    ensures
      var run := Doing(id, [Setup, SetupComplete, Start, Stop, Abort, AbortDone]);
      CountOf(Heard(MODEL, map[id := Queued], run), id) == 6
  {
    var calls := [Setup, SetupComplete, Start, Stop, Abort, AbortDone];
    assert Legal(MODEL, Aborted, []);
    assert Legal(MODEL, Aborting, calls[5..]);
    assert Legal(MODEL, Stopping, calls[4..]);
    assert Legal(MODEL, Processing, calls[3..]);
    assert Legal(MODEL, WaitingForStart, calls[2..]);
    assert Legal(MODEL, SettingUp, calls[1..]);
    LegalCallsAreHeard(MODEL, id, Queued, calls);
  }
}

/** Control jobs, SEMI E94. */
module ControlJobs {
  import opened Jobs

  datatype State = Queued | Selected | WaitingForStart | Executing | Pausing | Paused | Completed | Stopping | Stopped

  datatype Call = Select | WaitForStart | Execute | Complete | Pause | PauseDone | Stop | StopDone

  function Expected(c: Call): seq<State> {
    match c
    case Select => [Queued]
    case WaitForStart => [Selected]
    case Execute => [WaitingForStart, Paused]
    case Complete => [Executing]
    case Pause => [Executing]
    case PauseDone => [Pausing]
    case Stop => [Queued, Selected, WaitingForStart, Executing, Pausing, Paused]
    case StopDone => [Stopping]
  }

  function Target(c: Call): State {
    match c
    case Select => Selected
    case WaitForStart => WaitingForStart
    case Execute => Executing
    case Complete => Completed
    case Pause => Pausing
    case PauseDone => Paused
    case Stop => Stopping
    case StopDone => Stopped
  }

  const MODEL: Model<State, Call> := Model(Queued, [Completed, Stopped], Expected, Target)

  /** Pausing and resuming n times over. */
  function Cycles(n: nat): seq<Call> {
    if n == 0 then [] else [Pause, PauseDone, Execute] + Cycles(n - 1)
  }

  lemma {:induction false} CyclesAreLegal(n: nat)
    ensures Legal(MODEL, Executing, Cycles(n)) && |Cycles(n)| == 3 * n
  {
    if n > 0 {
      CyclesAreLegal(n - 1);
      var calls := Cycles(n);
      assert calls[3..] == Cycles(n - 1) && calls[2..][1..] == calls[3..] && calls[1..][1..] == calls[2..];
      assert Legal(MODEL, Paused, calls[2..]);
      assert Legal(MODEL, Pausing, calls[1..]);
    }
  }

  /** A control job, unlike a process job, has no bound: a pause can be repeated any number of times. */
  lemma ControlJobsMoveForEver(id: string, n: nat)
    ensures CountOf(Heard(MODEL, map[id := Executing], Doing(id, Cycles(n))), id) == 3 * n
  {
    CyclesAreLegal(n);
    LegalCallsAreHeard(MODEL, id, Executing, Cycles(n));
  }
}
