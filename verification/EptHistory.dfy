/** The performance tracker against the calls it received: which state it was in when, and what its figures mean. */
module EptHistory {
  import opened Ept

  // ----- What the calls say -----

  /** The state at an instant: the target of the last SetState until then, 10 (NON_SCHEDULED) after a Reset or none. */
  function StateByCalls(run: seq<Op>, t: int): State {
    if run == [] then 10
    else
      var last, before := run[|run| - 1], run[..|run| - 1];
      match last
      case ToState(s, now) => if now <= t then s else StateByCalls(before, t)
      case Unit(_) => StateByCalls(before, t)
      case Restart(now) => if now <= t then 10 else StateByCalls(before, t)
  }

  /** When the tracker was created or last reset. */
  function Since(start: int, run: seq<Op>): int {
    if run == [] then start
    else if run[|run| - 1].Restart? then run[|run| - 1].now
    else Since(start, run[..|run| - 1])
  }

  function UnitsSince(run: seq<Op>): nat {
    if run == [] || run[|run| - 1].Restart? then 0
    else UnitsSince(run[..|run| - 1]) + if run[|run| - 1].Unit? then 1 else 0
  }

  function DefectsSince(run: seq<Op>): nat {
    if run == [] || run[|run| - 1].Restart? then 0
    else DefectsSince(run[..|run| - 1]) + if run[|run| - 1] == Unit(true) then 1 else 0
  }

  // ----- The tracker agrees -----

  lemma {:induction false} AfterLast(t: Tracker, run: seq<Op>, op: Op)
    ensures After(t, run + [op]) == Apply(After(t, run), op)
    decreases run
  {
    hide Apply;
    if run == [] {
      assert (run + [op])[0] == op && (run + [op])[1..] == [];
    } else {
      assert (run + [op])[0] == run[0] && (run + [op])[1..] == run[1..] + [op];
      AfterLast(Apply(t, run[0]), run[1..], op);
    }
  }

  lemma {:induction false} ClockedUntil(clock: int, run: seq<Op>, op: Op, now: int)
    requires Clocked(clock, run + [op], now)
    ensures op.Unit? ==> Clocked(clock, run, now)
    ensures !op.Unit? ==> Clocked(clock, run, op.now) && op.now <= now
    decreases run
  {
    if run == [] {
      assert (run + [op])[0] == op && (run + [op])[1..] == [];
    } else {
      assert (run + [op])[0] == run[0] && (run + [op])[1..] == run[1..] + [op];
      ClockedUntil(if run[0].Unit? then clock else run[0].now, run[1..], op, now);
    }
  }

  lemma {:induction false} CountersAreHistory(start: int, run: seq<Op>)
    ensures
      var t := After(New(start), run);
      t.created == Since(start, run) && t.units == UnitsSince(run) && t.defects == DefectsSince(run)
    decreases |run|
  {
    if run != [] {
      var n := |run| - 1;
      CountersAreHistory(start, run[..n]);
      AfterLast(New(start), run[..n], run[n]);
      assert run[..n] + [run[n]] == run;
    }
  }

  /** From its start on, a tracker in order is in its current state. */
  lemma CurrentState(t: Tracker, at: int)
    requires Chain(t) && t.stateStart <= at
    ensures StateAt(t.transitions, at) == t.state
  {
  }

  lemma StateStep(t: Tracker, op: Op, at: int)
    requires Chain(t) && t.created <= at && (op.ToState? ==> t.stateStart <= op.now)
    ensures op.ToState? ==> StateAt(Apply(t, op).transitions, at) == if op.now <= at then op.to else StateAt(t.transitions, at)
    ensures op.Unit? ==> Apply(t, op).transitions == t.transitions
    ensures op.Restart? ==> StateAt(Apply(t, op).transitions, at) == 10
  {
    if op.ToState? {
      if op.to == t.state {
        if op.now <= at {
          CurrentState(t, at);
        }
      } else {
        var log := Apply(t, op).transitions;
        assert log[..|log| - 1] == t.transitions;
      }
    }
  }

  /** After any run under a monotone clock, the log places every instant in the state the calls put it in. */
  lemma {:induction false} LogIsHistory(start: int, run: seq<Op>, now: int, at: int)
    requires Clocked(start, run, now) && After(New(start), run).created <= at
    ensures StateAt(After(New(start), run).transitions, at) == StateByCalls(run, at)
    decreases |run|
  {
    if run != [] {
      var n := |run| - 1;
      var before, op := run[..n], run[n];
      assert before + [op] == run;
      AfterLast(New(start), before, op);
      ClockedUntil(start, before, op, now);
      var until := if op.Unit? then now else op.now;
      NewKeepsInv(start);
      RunKeepsInv(New(start), start, before, until);
      var t := After(New(start), before);
      hide Inv, Ledger, Clocked, After;
      ChainOf(t);
      if !op.Restart? {
        LogIsHistory(start, before, until, at);
        StateStep(t, op, at);
      }
    }
  }

  lemma ChainOf(t: Tracker)
    requires Inv(t)
    ensures Chain(t)
  {
  }

  // ----- What the figures mean -----

  function Ratio(part: int, whole: int): real
    requires whole > 0
  {
    part as real / whole as real
  }

  predicate IsNot10(s: State) {
    s != 10
  }

  ghost const ALL_BUT_10: iset<State> := iset s: State | IsNot10(s)

  lemma SetsAre()
    ensures SCHEDULED == ALL_BUT_10
    ensures AVAILABLE == iset{0, 1, 2, 3}
    ensures PRODUCTIVE == iset{1, 3}
  {
  }

  /** The four figures, from the ticks spent in each kind of state and the units made. */
  predicate FiguresMean(f: Figures, scheduled: nat, available: nat, productive: nat, units: nat, bad: nat) {
    && (scheduled == 0 ==> f == Figures(0.0, 0.0, 0.0, 0.0))
    && (scheduled > 0 ==>
          && f.availability == Ratio(available, scheduled)
          && f.performance == (if available > 0 then Ratio(productive, available) else 0.0)
          && f.quality == (if units > 0 then Ratio(units - bad, units) else 1.0)
          && f.oee == f.availability * f.performance * f.quality)
  }

  lemma FiguresOfMean(scheduled: nat, available: nat, productive: nat, units: nat, bad: nat)
    ensures FiguresMean(FiguresOf(scheduled, available, productive, Quality(units, bad)), scheduled, available, productive, units, bad)
  {
  }

  /**
   * Availability is the available part of the scheduled time, performance the
   * productive part of the available time, quality the good part of the units
   * since the last Reset, and OEE their product. States 0 to 3 are available,
   * 1 and 3 productive, all but 10 scheduled.
   */
  lemma FiguresAre(start: int, run: seq<Op>, now: int)
    requires Clocked(start, run, now)
    ensures
      var log, from := After(New(start), run).transitions, Since(start, run);
      FiguresMean(
        OeeOf(After(New(start), run), now),
        Instants(log, from, now, ALL_BUT_10), Instants(log, from, now, iset{0, 1, 2, 3}), Instants(log, from, now, iset{1, 3}),
        UnitsSince(run), DefectsSince(run))
  {
    var t := After(New(start), run);
    CountersAreHistory(start, run);
    NewKeepsInv(start);
    RunKeepsInv(New(start), start, run, now);
    SetsAre();
    hide Instants, Booked, Flushed, Inv, After, Clocked, UnitsSince, DefectsSince, Since, FiguresMean, FiguresOf, Quality;
    OeeTotals(t, now);
    FlushedCountsInstants(t, now, AVAILABLE);
    FiguresOfMean(
      Instants(t.transitions, t.created, now, SCHEDULED), Instants(t.transitions, t.created, now, AVAILABLE),
      Instants(t.transitions, t.created, now, PRODUCTIVE), t.units, t.defects);
  }
}
