/** Equipment performance tracking (pkg/driver/gem/ept.go, SEMI E116): a time ledger per state, with the clock as a parameter. */
module Ept {

  /** Go's EPTState: any integer; 0 to 10 have names. */
  type State = int

  const BUSY: State := 1
  const BUSY_AND_BLOCKED: State := 3
  const NON_SCHEDULED: State := 10

  predicate IsProductive(s: State) {
    s == BUSY || s == BUSY_AND_BLOCKED
  }

  predicate IsAvailable(s: State) {
    0 <= s <= 3
  }

  ghost const ANY: iset<State> := iset s: State | true
  ghost const SCHEDULED: iset<State> := iset s: State | s != NON_SCHEDULED
  ghost const AVAILABLE: iset<State> := iset s: State | IsAvailable(s)
  ghost const PRODUCTIVE: iset<State> := iset s: State | IsProductive(s)

  datatype Transition = Transition(time: int, from: State, to: State)

  /** `created` is the time of construction or of the last Reset, which the program does not keep. */
  datatype Tracker = Tracker(
    created: int,
    state: State,
    stateStart: int,
    durations: map<State, int>,
    transitions: seq<Transition>,
    units: nat,
    defects: nat)

  function New(now: int): Tracker {
    Tracker(now, NON_SCHEDULED, now, map[], [], 0, 0)
  }

  function Get(m: map<State, int>, s: State): int {
    if s in m then m[s] else 0
  }

  /** The ledger with the current state's time booked up to now. */
  function Flushed(t: Tracker, now: int): map<State, int> {
    t.durations[t.state := Get(t.durations, t.state) + (now - t.stateStart)]
  }

  function SetState(t: Tracker, to: State, now: int): Tracker {
    if to == t.state then t
    else
      t.(state := to, stateStart := now, durations := Flushed(t, now),
         transitions := t.transitions + [Transition(now, t.state, to)])
  }

  datatype Op = ToState(to: State, now: int) | Unit(defective: bool) | Restart(now: int)

  function Apply(t: Tracker, op: Op): Tracker {
    match op
    case ToState(to, now) => SetState(t, to, now)
    case Unit(defective) => t.(units := t.units + 1, defects := if defective then t.defects + 1 else t.defects)
    case Restart(now) => New(now)
  }

  function After(t: Tracker, run: seq<Op>): Tracker
    decreases run
  {
    if run == [] then t else After(Apply(t, run[0]), run[1..])
  }

  /** The clock never runs backwards: operations carry nondecreasing times from `clock` up to `now`. */
  predicate Clocked(clock: int, run: seq<Op>, now: int)
    decreases run
  {
    if run == [] then clock <= now
    else if run[0].Unit? then Clocked(clock, run[1..], now)
    else clock <= run[0].now && Clocked(run[0].now, run[1..], now)
  }

  // ----- The reference: which state the equipment was in at each instant -----

  function StateAt(log: seq<Transition>, t: int): State {
    if log == [] then NON_SCHEDULED
    else if log[|log| - 1].time <= t then log[|log| - 1].to
    else StateAt(log[..|log| - 1], t)
  }

  /** How many clock ticks of [begin, end) found the equipment in one of the states. */
  ghost function Instants(log: seq<Transition>, begin: int, end: int, states: iset<State>): nat
    decreases end - begin
  {
    if end <= begin then 0
    else Instants(log, begin, end - 1, states) + (if StateAt(log, end - 1) in states then 1 else 0)
  }

  lemma {:induction false} InstantsAgree(log: seq<Transition>, log': seq<Transition>, begin: int, end: int, states: iset<State>)
    requires forall t | begin <= t < end :: StateAt(log, t) == StateAt(log', t)
    ensures Instants(log, begin, end, states) == Instants(log', begin, end, states)
    decreases end - begin
  {
    if begin < end {
      assert StateAt(log, end - 1) == StateAt(log', end - 1);
      InstantsAgree(log, log', begin, end - 1, states);
    }
  }

  lemma {:induction false} InstantsInOneState(log: seq<Transition>, begin: int, mid: int, end: int, s: State, states: iset<State>)
    requires begin <= mid <= end && forall t | mid <= t < end :: StateAt(log, t) == s
    ensures Instants(log, begin, end, states) == Instants(log, begin, mid, states) + (if s in states then end - mid else 0)
    decreases end - mid
  {
    if mid < end {
      assert StateAt(log, end - 1) == s;
      InstantsInOneState(log, begin, mid, end - 1, s, states);
    }
  }

  lemma {:induction false} InstantsGrow(log: seq<Transition>, begin: int, end: int, fewer: iset<State>, more: iset<State>)
    requires fewer <= more
    ensures Instants(log, begin, end, fewer) <= Instants(log, begin, end, more)
    decreases end - begin
  {
    if begin < end {
      InstantsGrow(log, begin, end - 1, fewer, more);
    }
  }

  lemma {:induction false} EveryInstantCounts(log: seq<Transition>, begin: int, end: int)
    requires begin <= end
    ensures Instants(log, begin, end, ANY) == end - begin
    ensures Instants(log, begin, end, SCHEDULED) == end - begin - Instants(log, begin, end, iset{NON_SCHEDULED})
    decreases end - begin
  {
    if begin < end {
      EveryInstantCounts(log, begin, end - 1);
    }
  }

  // ----- Sums over the ledger -----

  ghost function Sum<K>(m: map<K, int>, keys: set<K>): int
    requires keys <= m.Keys
  {
    if keys == {} then 0
    else
      var k :| k in keys;
      m[k] + Sum(m, keys - {k})
  }

  lemma {:induction false} SumOfOthers<K>(m: map<K, int>, keys: set<K>, k: K)
    requires keys <= m.Keys && k in keys
    ensures Sum(m, keys) == m[k] + Sum(m, keys - {k})
  {
    var j :| j in keys && Sum(m, keys) == m[j] + Sum(m, keys - {j});
    if j != k {
      SumOfOthers(m, keys - {j}, k);
      SumOfOthers(m, keys - {k}, j);
      assert keys - {j} - {k} == keys - {k} - {j};
    }
  }

  lemma {:induction false} SumAgrees<K>(m: map<K, int>, m': map<K, int>, keys: set<K>)
    requires keys <= m.Keys && keys <= m'.Keys && forall k | k in keys :: m[k] == m'[k]
    ensures Sum(m, keys) == Sum(m', keys)
  {
    if keys != {} {
      var k :| k in keys;
      SumOfOthers(m, keys, k);
      SumOfOthers(m', keys, k);
      SumAgrees(m, m', keys - {k});
    }
  }

  ghost function Within(keys: set<State>, states: iset<State>): set<State> {
    set k | k in keys && k in states
  }

  /** The time the ledger holds for the given states. */
  ghost function Booked(m: map<State, int>, states: iset<State>): int {
    Sum(m, Within(m.Keys, states))
  }

  lemma BookedAdds(m: map<State, int>, k: State, d: int, states: iset<State>)
    ensures Booked(m[k := Get(m, k) + d], states) == Booked(m, states) + (if k in states then d else 0)
  {
    var m' := m[k := Get(m, k) + d];
    var rest := Within(m.Keys, states) - {k};
    assert Within(m'.Keys, states) - {k} == rest;
    SumAgrees(m, m', rest);
    if k in states {
      SumOfOthers(m', Within(m'.Keys, states), k);
      if k in m {
        SumOfOthers(m, Within(m.Keys, states), k);
      } else {
        assert rest == Within(m.Keys, states);
      }
    } else {
      assert rest == Within(m.Keys, states) == Within(m'.Keys, states);
    }
  }

  lemma BookedOne(m: map<State, int>, k: State)
    ensures Booked(m, iset{k}) == Get(m, k)
  {
    assert Within(m.Keys, iset{k}) == if k in m then {k} else {};
    if k in m {
      SumOfOthers(m, {k}, k);
      assert {k} - {k} == {};
    }
  }

  // ----- What every run keeps -----

  /** The log is a chain of real changes, in time order, from NON_SCHEDULED at `created` to the current state. */
  ghost predicate Chain(t: Tracker) {
    var log := t.transitions;
    && (log == [] ==> t.state == NON_SCHEDULED && t.stateStart == t.created)
    && (log != [] ==> log[0].from == NON_SCHEDULED && log[|log| - 1].to == t.state && log[|log| - 1].time == t.stateStart)
    && (forall i | 0 <= i < |log| :: log[i].from != log[i].to && t.created <= log[i].time <= t.stateStart)
    && (forall i | 0 < i < |log| :: log[i].from == log[i - 1].to && log[i - 1].time <= log[i].time)
  }

  /** The ledger counts, for every set of states, the instants spent there until the current state began. */
  ghost predicate Ledger(t: Tracker) {
    forall states: iset<State> :: Booked(t.durations, states) == Instants(t.transitions, t.created, t.stateStart, states)
  }

  ghost predicate Inv(t: Tracker) {
    t.created <= t.stateStart && Chain(t) && Ledger(t) && t.defects <= t.units
  }

  /** Whatever the set of states, the flushed ledger holds the number of instants spent in it. */
  lemma FlushedCountsInstants(t: Tracker, now: int, states: iset<State>)
    requires Inv(t) && t.stateStart <= now
    ensures Booked(Flushed(t, now), states) == Instants(t.transitions, t.created, now, states)
  {
    BookedAdds(t.durations, t.state, now - t.stateStart, states);
    InstantsInOneState(t.transitions, t.created, t.stateStart, now, t.state, states);
  }

  lemma SetStateKeepsInv(t: Tracker, to: State, now: int)
    requires Inv(t) && t.stateStart <= now
    ensures Inv(SetState(t, to, now))
  {
    if to != t.state {
      var t' := SetState(t, to, now);
      assert t'.transitions[..|t.transitions|] == t.transitions;
      forall states: iset<State>
        ensures Booked(t'.durations, states) == Instants(t'.transitions, t'.created, now, states)
      {
        FlushedCountsInstants(t, now, states);
        InstantsAgree(t.transitions, t'.transitions, t.created, now, states);
      }
    }
  }

  lemma NewKeepsInv(now: int)
    ensures Inv(New(now))
  {
  }

  lemma {:induction false} RunKeepsInv(t: Tracker, clock: int, run: seq<Op>, now: int)
    requires Inv(t) && t.stateStart <= clock && Clocked(clock, run, now)
    ensures Inv(After(t, run)) && After(t, run).stateStart <= now
    decreases run
  {
    if run != [] {
      match run[0] {
        case ToState(to, n) =>
          SetStateKeepsInv(t, to, n);
          RunKeepsInv(Apply(t, run[0]), n, run[1..], now);
        case Unit(_) =>
          RunKeepsInv(Apply(t, run[0]), clock, run[1..], now);
        case Restart(n) =>
          NewKeepsInv(n);
          RunKeepsInv(Apply(t, run[0]), n, run[1..], now);
      }
    }
  }

  /** After any run: the log is a chain, the ledger agrees with it state by state, and all of the time is booked. */
  lemma LedgerIsExact(start: int, run: seq<Op>, now: int, s: State)
    requires Clocked(start, run, now)
    ensures
      var t := After(New(start), run);
      && Chain(t)
      && Get(Flushed(t, now), s) == Instants(t.transitions, t.created, now, iset{s})
      && Booked(Flushed(t, now), ANY) == now - t.created
  {
    NewKeepsInv(start);
    RunKeepsInv(New(start), start, run, now);
    var t := After(New(start), run);
    FlushedCountsInstants(t, now, iset{s});
    BookedOne(Flushed(t, now), s);
    FlushedCountsInstants(t, now, ANY);
    EveryInstantCounts(t.transitions, t.created, now);
  }

  // ----- Overall equipment effectiveness -----

  datatype Figures = Figures(availability: real, performance: real, quality: real, oee: real)

  function Quality(units: nat, defects: nat): real {
    if units > 0 then (units - defects) as real / units as real else 1.0
  }

  /** The productive share of the scheduled time, times quality. */
  function Share(productive: int, scheduled: int, quality: real): real
    requires scheduled > 0
  {
    productive as real / scheduled as real * quality
  }

  /** The arithmetic of `OEE` on its three totals. */
  function FiguresOf(scheduled: int, available: int, productive: int, quality: real): Figures {
    if scheduled <= 0 then Figures(0.0, 0.0, 0.0, 0.0)
    else
      var a := available as real / scheduled as real;
      var p := if available > 0 then productive as real / available as real else 0.0;
      Figures(a, p, quality, a * p * quality)
  }

  ghost function OeeOf(t: Tracker, now: int): Figures {
    var m := Flushed(t, now);
    FiguresOf(Booked(m, ANY) - Get(m, NON_SCHEDULED), Booked(m, AVAILABLE), Booked(m, PRODUCTIVE), Quality(t.units, t.defects))
  }

  lemma RatioInRange(part: int, whole: int)
    requires 0 <= part <= whole && whole > 0
    ensures 0.0 <= part as real / whole as real <= 1.0
  {
  }

  lemma ProductIsPositive(x: real, y: real)
    requires x >= 0.0 && y >= 0.0
    ensures x * y >= 0.0
  {
  }

  lemma ProductInRange(x: real, y: real)
    requires 0.0 <= x <= 1.0 && 0.0 <= y <= 1.0
    ensures 0.0 <= x * y <= 1.0
  {
    ProductIsPositive(x, y);
    ProductIsPositive(x, 1.0 - y);
    assert x * (1.0 - y) == x - x * y;
  }

  predicate InUnit(x: real) {
    0.0 <= x <= 1.0
  }

  lemma FiguresInRange(scheduled: int, available: int, productive: int, quality: real)
    requires 0 <= productive <= available <= scheduled && InUnit(quality)
    ensures
      var f := FiguresOf(scheduled, available, productive, quality);
      && InUnit(f.availability) && InUnit(f.performance) && InUnit(f.quality) && InUnit(f.oee)
      && (scheduled == 0 ==> f.oee == 0.0)
      && (scheduled > 0 ==> f.oee == Share(productive, scheduled, quality))
  {
    if scheduled > 0 {
      RatioInRange(available, scheduled);
      if available > 0 {
        RatioInRange(productive, available);
        RatioInRange(productive, scheduled);
        var a, p := available as real / scheduled as real, productive as real / available as real;
        assert a * p == productive as real / scheduled as real;
        ProductInRange(a * p, quality);
      }
    }
  }

  lemma QualityInRange(units: nat, defects: nat)
    requires defects <= units
    ensures InUnit(Quality(units, defects))
  {
  }

  /** The four figures lie in [0, 1], and OEE is the share of scheduled instants that were productive, times quality. */
  lemma OeeIsProductiveShare(start: int, run: seq<Op>, now: int)
    requires Clocked(start, run, now)
    ensures
      var t := After(New(start), run);
      var f := OeeOf(t, now);
      var scheduled := Instants(t.transitions, t.created, now, SCHEDULED);
      && InUnit(f.availability) && InUnit(f.performance) && InUnit(f.quality) && InUnit(f.oee)
      && (scheduled == 0 ==> f.oee == 0.0)
      && (scheduled > 0 ==>
            f.oee == Share(Instants(t.transitions, t.created, now, PRODUCTIVE), scheduled, Quality(t.units, t.defects)))
  {
    NewKeepsInv(start);
    RunKeepsInv(New(start), start, run, now);
    var t := After(New(start), run);
    var m := Flushed(t, now);
    QualityInRange(t.units, t.defects);
    hide FiguresOf, Share, Booked, Flushed, Instants, Quality, Inv, After, InUnit, Clocked;
    OeeTotals(t, now);
    FiguresInRange(
      Booked(m, ANY) - Get(m, NON_SCHEDULED), Booked(m, AVAILABLE), Booked(m, PRODUCTIVE), Quality(t.units, t.defects));
  }

  lemma OeeTotals(t: Tracker, now: int)
    requires Inv(t) && t.stateStart <= now
    ensures
      var m := Flushed(t, now);
      && Booked(m, ANY) - Get(m, NON_SCHEDULED) == Instants(t.transitions, t.created, now, SCHEDULED)
      && Booked(m, PRODUCTIVE) == Instants(t.transitions, t.created, now, PRODUCTIVE)
      && 0 <= Booked(m, PRODUCTIVE) <= Booked(m, AVAILABLE) <= Instants(t.transitions, t.created, now, SCHEDULED)
  {
    FlushedCountsInstants(t, now, ANY);
    FlushedCountsInstants(t, now, iset{NON_SCHEDULED});
    FlushedCountsInstants(t, now, AVAILABLE);
    FlushedCountsInstants(t, now, PRODUCTIVE);
    BookedOne(Flushed(t, now), NON_SCHEDULED);
    EveryInstantCounts(t.transitions, t.created, now);
    InstantsGrow(t.transitions, t.created, now, PRODUCTIVE, AVAILABLE);
    InstantsGrow(t.transitions, t.created, now, AVAILABLE, SCHEDULED);
  }

  // ----- The tracker as an object -----

  lemma WithinGrows(m: map<State, int>, done: set<State>, k: State, states: iset<State>)
    requires done <= m.Keys && k in m.Keys && k !in done
    ensures Sum(m, Within(done + {k}, states)) == Sum(m, Within(done, states)) + (if k in states then m[k] else 0)
  {
    if k in states {
      SumOfOthers(m, Within(done + {k}, states), k);
      assert Within(done + {k}, states) - {k} == Within(done, states);
    } else {
      assert Within(done + {k}, states) == Within(done, states);
    }
  }

  method Pick<K>(keys: set<K>) returns (k: K)
    requires keys != {}
    ensures k in keys
  {
    k :| k in keys;
  }

  /** The summing loop of `OEE`, which visits the map in no particular order. */
  method Totals(m: map<State, int>) returns (total: int, available: int, productive: int)
    ensures total == Booked(m, ANY) && available == Booked(m, AVAILABLE) && productive == Booked(m, PRODUCTIVE)
  {
    total, available, productive := 0, 0, 0;
    var rest := m.Keys;
    ghost var done: set<State> := {};
    while rest != {}
      invariant done !! rest && done + rest == m.Keys
      invariant total == Sum(m, Within(done, ANY))
      invariant available == Sum(m, Within(done, AVAILABLE))
      invariant productive == Sum(m, Within(done, PRODUCTIVE))
      decreases rest
    {
      var k := Pick(rest);
      WithinGrows(m, done, k, ANY);
      WithinGrows(m, done, k, AVAILABLE);
      WithinGrows(m, done, k, PRODUCTIVE);
      total := total + m[k];
      if IsAvailable(k) {
        available := available + m[k];
      }
      if IsProductive(k) {
        productive := productive + m[k];
      }
      rest, done := rest - {k}, done + {k};
    }
    assert done == m.Keys;
  }

  class EptTracker {
    var state: State
    var stateStart: int
    var durations: map<State, int>
    var transitions: seq<Transition>
    var unitCount: nat
    var defectCount: nat
    ghost var created: int

    ghost function View(): Tracker
      reads this
    {
      Tracker(created, state, stateStart, durations, transitions, unitCount, defectCount)
    }

    constructor (now: int)
      ensures View() == New(now)
    {
      state, stateStart, durations, transitions, unitCount, defectCount := NON_SCHEDULED, now, map[], [], 0, 0;
      created := now;
    }

    method SetState(newState: State, now: int)
      modifies this
      ensures View() == Apply(old(View()), ToState(newState, now))
    {
      if newState == state {
        return;
      }
      var elapsed := now - stateStart;
      durations := durations[state := Get(durations, state) + elapsed];
      var oldState := state;
      transitions := transitions + [Transition(now, oldState, newState)];
      state := newState;
      stateStart := now;
    }

    method RecordUnit(defective: bool)
      modifies this
      ensures View() == Apply(old(View()), Unit(defective))
    {
      unitCount := unitCount + 1;
      if defective {
        defectCount := defectCount + 1;
      }
    }

    method Reset(now: int)
      modifies this
      ensures View() == Apply(old(View()), Restart(now))
    {
      state, stateStart, durations, transitions, unitCount, defectCount := NON_SCHEDULED, now, map[], [], 0, 0;
      created := now;
    }

    method StateDurations(now: int) returns (result: map<State, int>)
      ensures result == Flushed(View(), now)
    {
      result := durations;
      result := result[state := Get(result, state) + (now - stateStart)];
    }

    method Oee(now: int) returns (f: Figures)
      ensures f == OeeOf(View(), now)
    {
      var flushed := durations[state := Get(durations, state) + (now - stateStart)];
      var total, available, productive := Totals(flushed);
      var scheduled := total - Get(flushed, NON_SCHEDULED);
      if scheduled <= 0 {
        return Figures(0.0, 0.0, 0.0, 0.0);
      }
      var availability := available as real / scheduled as real;
      var performance := 0.0;
      if available > 0 {
        performance := productive as real / available as real;
      }
      var quality := 1.0;
      if unitCount > 0 {
        quality := (unitCount - defectCount) as real / unitCount as real;
      }
      f := Figures(availability, performance, quality, availability * performance * quality);
    }
  }
}
