/** The webhook batcher (pkg/security/webhook.go): events are batched under a lock, and timers that fired may flush late. */
module Webhook {
  import opened Outcomes

  /** Fired: the runtime has started the flush, which still waits for the lock; Stop no longer reaches it. */
  datatype TimerState = Armed | Fired | Stopped | Ran

  /** `timers` holds every timer ever started; `timer` is the handler's own, and `handed` the batches given to send. */
  datatype Batcher<E> = Batcher(batch: seq<E>, timer: Option<nat>, timers: seq<TimerState>, handed: seq<seq<E>>)

  datatype Step<E> = Handle(event: E) | Fire(id: nat) | Flush(id: nat)

  function Start<E>(): Batcher<E> {
    Batcher([], None, [], [])
  }

  /** `timer.Stop`: only a timer that has not fired yet is stopped. */
  function StopTimer(timers: seq<TimerState>, id: nat): seq<TimerState> {
    if id < |timers| && timers[id].Armed? then timers[id := Stopped] else timers
  }

  predicate Enabled<E>(s: Batcher<E>, step: Step<E>) {
    match step
    case Handle(_) => true
    case Fire(id) => id < |s.timers| && s.timers[id].Armed?
    case Flush(id) => id < |s.timers| && s.timers[id].Fired?
  }

  function HandleEvent<E>(size: int, s: Batcher<E>, e: E): Batcher<E> {
    if size <= 0 then s.(handed := s.handed + [[e]])
    else
      var batch := s.batch + [e];
      if |batch| >= size then
        Batcher([], None, if s.timer.Some? then StopTimer(s.timers, s.timer.value) else s.timers, s.handed + [batch])
      else if s.timer.None? then s.(batch := batch, timer := Some(|s.timers|), timers := s.timers + [Armed])
      else s.(batch := batch)
  }

  /** Which timer called `flush` makes no difference to what it does. */
  function FlushBatch<E>(s: Batcher<E>): Batcher<E> {
    if s.batch == [] then s.(timer := None) else s.(batch := [], timer := None, handed := s.handed + [s.batch])
  }

  function Apply<E>(size: int, s: Batcher<E>, step: Step<E>): Batcher<E>
    requires Enabled(s, step)
  {
    match step
    case Handle(e) => HandleEvent(size, s, e)
    case Fire(id) => s.(timers := s.timers[id := Fired])
    case Flush(id) => FlushBatch(s.(timers := s.timers[id := Ran]))
  }

  predicate IsRun<E>(size: int, s: Batcher<E>, run: seq<Step<E>>)
    decreases run
  {
    run == [] || (Enabled(s, run[0]) && IsRun(size, Apply(size, s, run[0]), run[1..]))
  }

  function After<E>(size: int, s: Batcher<E>, run: seq<Step<E>>): Batcher<E>
    requires IsRun(size, s, run)
    decreases run
  {
    if run == [] then s else After(size, Apply(size, s, run[0]), run[1..])
  }

  function Flatten<E>(batches: seq<seq<E>>): seq<E> {
    if batches == [] then [] else batches[0] + Flatten(batches[1..])
  }

  function Events<E>(run: seq<Step<E>>): seq<E> {
    if run == [] then [] else (if run[0].Handle? then [run[0].event] else []) + Events(run[1..])
  }

  /** Everything handled so far, in order. */
  function Taken<E>(s: Batcher<E>): seq<E> {
    Flatten(s.handed) + s.batch
  }

  predicate Pending(timers: seq<TimerState>, id: nat) {
    id < |timers| && (timers[id].Armed? || timers[id].Fired?)
  }

  /** A waiting event has a flush of the current timer still to come, and nothing else holds a timer. */
  ghost predicate Inv<E>(size: int, s: Batcher<E>) {
    && (forall b | b in s.handed :: 1 <= |b| <= size)
    && |s.batch| < size
    && (s.batch != [] <==> s.timer.Some?)
    && (s.timer.Some? ==> Pending(s.timers, s.timer.value))
  }

  lemma {:induction false} FlattenAppends<E>(batches: seq<seq<E>>, b: seq<E>)
    ensures Flatten(batches + [b]) == Flatten(batches) + b
  {
    if batches == [] {
      assert Flatten([b]) == b + Flatten([]);
    } else {
      assert (batches + [b])[1..] == batches[1..] + [b];
      FlattenAppends(batches[1..], b);
    }
  }

  lemma StepKeepsInv<E>(size: int, s: Batcher<E>, step: Step<E>)
    requires size > 0 && Inv(size, s) && Enabled(s, step)
    ensures Inv(size, Apply(size, s, step))
  {
  }

  lemma StepTakes<E>(size: int, s: Batcher<E>, step: Step<E>)
    requires Enabled(s, step) && (size <= 0 ==> s.batch == [])
    ensures Taken(Apply(size, s, step)) == Taken(s) + Events([step])
    ensures size <= 0 ==> Apply(size, s, step).batch == []
  {
    if step.Handle? {
      FlattenAppends(s.handed, if size <= 0 then [step.event] else s.batch + [step.event]);
    } else {
      FlattenAppends(s.handed, s.batch);
    }
  }

  lemma Regroup<E>(a: seq<E>, b: seq<E>, c: seq<E>)
    ensures (a + b) + c == a + (b + c)
  {
  }

  lemma EventsOfFirst<E>(run: seq<Step<E>>)
    requires run != []
    ensures Events(run) == Events([run[0]]) + Events(run[1..])
  {
    var first := if run[0].Handle? then [run[0].event] else [];
    assert Events([run[0]]) == first + Events([]) == first;
  }

  lemma {:induction false} RunTakes<E>(size: int, s: Batcher<E>, run: seq<Step<E>>)
    requires IsRun(size, s, run) && (size <= 0 ==> s.batch == [])
    ensures Taken(After(size, s, run)) == Taken(s) + Events(run)
    ensures size <= 0 ==> After(size, s, run).batch == []
    decreases run
  {
    if run == [] {
      assert Taken(s) + [] == Taken(s);
    } else {
      hide Apply, Enabled, Taken, Events;
      StepTakes(size, s, run[0]);
      RunTakes(size, Apply(size, s, run[0]), run[1..]);
      EventsOfFirst(run);
      Regroup(Taken(s), Events([run[0]]), Events(run[1..]));
    }
  }

  lemma {:induction false} RunKeepsInv<E>(size: int, s: Batcher<E>, run: seq<Step<E>>)
    requires size > 0 && Inv(size, s) && IsRun(size, s, run)
    ensures Inv(size, After(size, s, run))
    decreases run
  {
    if run != [] {
      StepKeepsInv(size, s, run[0]);
      RunKeepsInv(size, Apply(size, s, run[0]), run[1..]);
    }
  }

  /** No event is lost, doubled or reordered, batches keep to their size, and what waits has a flush to come. */
  lemma BatchingIsExact<E>(size: int, run: seq<Step<E>>)
    requires size > 0 && IsRun(size, Start<E>(), run)
    ensures
      var s := After(size, Start<E>(), run);
      && Flatten(s.handed) + s.batch == Events(run)
      && (forall b | b in s.handed :: 1 <= |b| <= size)
      && |s.batch| < size
      && (s.batch != [] <==> s.timer.Some?)
      && (s.timer.Some? ==> Pending(s.timers, s.timer.value))
  {
    RunTakes(size, Start<E>(), run);
    RunKeepsInv(size, Start<E>(), run);
  }

  /** Once no timer is armed and no flush waits, everything has been handed over. */
  lemma QuietMeansDelivered<E>(size: int, run: seq<Step<E>>)
    requires IsRun(size, Start<E>(), run)
    requires forall id | 0 <= id < |After(size, Start<E>(), run).timers| :: !Pending(After(size, Start<E>(), run).timers, id)
    ensures Flatten(After(size, Start<E>(), run).handed) == Events(run)
  {
    var s := After(size, Start<E>(), run);
    RunTakes(size, Start<E>(), run);
    if size > 0 {
      BatchingIsExact(size, run);
    }
    assert s.batch == [] && Taken(s) == Flatten(s.handed);
    assert Taken(Start<E>()) + Events(run) == Events(run);
  }

  /** Without a positive batch size every event is its own batch, at once. */
  lemma {:induction false} SingletonsWithoutBatching<E>(size: int, s: Batcher<E>, run: seq<Step<E>>)
    requires size <= 0 && IsRun(size, s, run) && s.batch == []
    ensures After(size, s, run).handed == s.handed + seq(|Events(run)|, i requires 0 <= i < |Events(run)| => [Events(run)[i]])
    decreases run
  {
    if run != [] {
      SingletonsWithoutBatching(size, Apply(size, s, run[0]), run[1..]);
    }
  }

  /** What a run does to the events waiting at its start: they still wait for the same timer, or they were handed over. */
  ghost predicate WaitingOrHanded<E>(s: Batcher<E>, t: Batcher<E>) {
    || (t.handed == s.handed && s.batch <= t.batch && t.timer == s.timer)
    || Taken(s) <= Flatten(t.handed)
  }

  lemma HandedGrows<E>(size: int, t: Batcher<E>, step: Step<E>)
    requires Enabled(t, step)
    ensures Flatten(t.handed) <= Flatten(Apply(size, t, step).handed)
  {
    FlattenAppends(t.handed, t.batch);
    if step.Handle? {
      FlattenAppends(t.handed, [step.event]);
      FlattenAppends(t.handed, t.batch + [step.event]);
    }
  }

  lemma WaitingStep<E>(size: int, s: Batcher<E>, t: Batcher<E>, step: Step<E>)
    requires size > 0 && Inv(size, t) && s.batch != [] && Enabled(t, step)
    requires t.handed == s.handed && s.batch <= t.batch && t.timer == s.timer
    ensures WaitingOrHanded(s, Apply(size, t, step))
  {
    var t' := Apply(size, t, step);
    if t'.handed != t.handed {
      var b := if step.Handle? then t.batch + [step.event] else t.batch;
      assert t'.handed == t.handed + [b] && s.batch <= b;
      FlattenAppends(t.handed, b);
      assert Flatten(s.handed) + s.batch <= Flatten(s.handed) + b;
    }
  }

  lemma StepHandsOver<E>(size: int, s: Batcher<E>, t: Batcher<E>, step: Step<E>)
    requires size > 0 && WaitingOrHanded(s, t) && Inv(size, s) && Inv(size, t) && s.batch != [] && Enabled(t, step)
    ensures WaitingOrHanded(s, Apply(size, t, step))
  {
    hide Apply, Inv, Enabled;
    if Taken(s) <= Flatten(t.handed) {
      HandedGrows(size, t, step);
    } else {
      WaitingStep(size, s, t, step);
    }
  }

  lemma {:induction false} RunHandsOver<E>(size: int, s: Batcher<E>, t: Batcher<E>, run: seq<Step<E>>)
    requires size > 0 && WaitingOrHanded(s, t) && Inv(size, s) && Inv(size, t) && s.batch != [] && IsRun(size, t, run)
    ensures WaitingOrHanded(s, After(size, t, run))
    decreases run
  {
    if run != [] {
      StepHandsOver(size, s, t, run[0]);
      StepKeepsInv(size, t, run[0]);
      RunHandsOver(size, s, Apply(size, t, run[0]), run[1..]);
    }
  }

  /** An event leaves no later than the timer it waits for: in any continuation where that timer is done, it was handed over. */
  lemma DeliveredByItsTimer<E>(size: int, before: seq<Step<E>>, run: seq<Step<E>>)
    requires size > 0 && IsRun(size, Start<E>(), before) && IsRun(size, After(size, Start<E>(), before), run)
    requires
      var s := After(size, Start<E>(), before);
      s.timer.Some? && !Pending(After(size, s, run).timers, s.timer.value)
    ensures Events(before) <= Flatten(After(size, After(size, Start<E>(), before), run).handed)
  {
    var s := After(size, Start<E>(), before);
    BatchingIsExact(size, before);
    RunHandsOver(size, s, s, run);
    RunKeepsInv(size, s, run);
  }

  // ----- Which step hands a batch over -----

  /** A step and the batch it handed over. */
  datatype Handover<E> = Handover(sender: Step<E>, batch: seq<E>)

  ghost function StepHandover<E>(size: int, s: Batcher<E>, step: Step<E>): seq<Handover<E>>
    requires Enabled(s, step)
  {
    var t := Apply(size, s, step);
    if t.handed == s.handed || t.handed == [] then [] else [Handover(step, t.handed[|t.handed| - 1])]
  }

  /** The handovers of a run, in order. */
  ghost function Handovers<E>(size: int, s: Batcher<E>, run: seq<Step<E>>): seq<Handover<E>>
    requires IsRun(size, s, run)
    decreases run
  {
    if run == [] then [] else StepHandover(size, s, run[0]) + Handovers(size, Apply(size, s, run[0]), run[1..])
  }

  function Batches<E>(hs: seq<Handover<E>>): seq<seq<E>> {
    if hs == [] then [] else [hs[0].batch] + Batches(hs[1..])
  }

  lemma {:induction false} BatchesJoin<E>(a: seq<Handover<E>>, b: seq<Handover<E>>)
    ensures Batches(a + b) == Batches(a) + Batches(b)
  {
    if a == [] {
      assert a + b == b;
    } else {
      assert (a + b)[1..] == a[1..] + b;
      BatchesJoin(a[1..], b);
    }
  }

  lemma StepHands<E>(size: int, s: Batcher<E>, step: Step<E>)
    requires size > 0 && Inv(size, s) && Enabled(s, step)
    ensures
      var hs := StepHandover(size, s, step);
      && Apply(size, s, step).handed == s.handed + Batches(hs)
      && (forall h | h in hs :: h.sender == step && (step.Flush? || (step.Handle? && |h.batch| == size)))
  {
    var hs := StepHandover(size, s, step);
    if hs == [] {
      assert s.handed + [] == s.handed;
    } else {
      assert Batches(hs) == [hs[0].batch] + Batches(hs[1..]) == [hs[0].batch];
    }
  }

  /** The handovers make up what was handed over. */
  lemma {:induction false} HandoversAreAll<E>(size: int, s: Batcher<E>, run: seq<Step<E>>)
    requires size > 0 && Inv(size, s) && IsRun(size, s, run)
    ensures After(size, s, run).handed == s.handed + Batches(Handovers(size, s, run))
    decreases run
  {
    if run == [] {
      assert s.handed + [] == s.handed;
    } else {
      hide Apply, Inv, Enabled, StepHandover;
      var next := Apply(size, s, run[0]);
      StepHands(size, s, run[0]);
      StepKeepsInv(size, s, run[0]);
      HandoversAreAll(size, next, run[1..]);
      BatchesJoin(StepHandover(size, s, run[0]), Handovers(size, next, run[1..]));
      Regroup(s.handed, Batches(StepHandover(size, s, run[0])), Batches(Handovers(size, next, run[1..])));
    }
  }

  /** A batch that a handled event hands over is full; only a flush hands over a shorter one. */
  lemma {:induction false} HandledBatchesAreFull<E>(size: int, s: Batcher<E>, run: seq<Step<E>>)
    requires size > 0 && Inv(size, s) && IsRun(size, s, run)
    ensures forall h | h in Handovers(size, s, run) ::
              h.sender in run && (h.sender.Flush? || (h.sender.Handle? && |h.batch| == size))
    decreases run
  {
    if run != [] {
      hide Apply, Inv, Enabled, StepHandover;
      StepHands(size, s, run[0]);
      StepKeepsInv(size, s, run[0]);
      HandledBatchesAreFull(size, Apply(size, s, run[0]), run[1..]);
    }
  }

  /** The consecutive blocks of `size` events, and what is left over. */
  function Blocks<E>(events: seq<E>, size: nat): seq<seq<E>>
    requires size > 0
  {
    if |events| < size then [] else [events[..size]] + Blocks(events[size..], size)
  }

  function LeftOver<E>(events: seq<E>, size: nat): seq<E>
    requires size > 0
  {
    if |events| < size then events else LeftOver(events[size..], size)
  }

  lemma {:induction false} BlocksOfFlattened<E>(batches: seq<seq<E>>, size: nat, rest: seq<E>)
    requires |rest| < size && forall b | b in batches :: |b| == size
    ensures Blocks(Flatten(batches) + rest, size) == batches && LeftOver(Flatten(batches) + rest, size) == rest
  {
    if batches == [] {
      assert [] + rest == rest;
    } else {
      var first, tail := batches[0], Flatten(batches[1..]) + rest;
      assert |first| == size;
      assert Flatten(batches) + rest == first + tail;
      assert (first + tail)[..size] == first && (first + tail)[size..] == tail;
      BlocksOfFlattened(batches[1..], size, rest);
    }
  }

  lemma {:induction false} BatchesAreIn<E>(hs: seq<Handover<E>>, b: seq<E>)
    requires b in Batches(hs)
    ensures exists h | h in hs :: h.batch == b
  {
    if hs[0].batch != b {
      BatchesAreIn(hs[1..], b);
    }
  }

  /** Without a flush, the batches are the consecutive blocks of BatchSize events, and what is left over still waits. */
  lemma FullBlocksWithoutFlush<E>(size: int, run: seq<Step<E>>)
    requires size > 0 && IsRun(size, Start<E>(), run) && forall x | x in run :: !x.Flush?
    ensures After(size, Start<E>(), run).handed == Blocks(Events(run), size)
    ensures After(size, Start<E>(), run).batch == LeftOver(Events(run), size)
  {
    var s, hs := After(size, Start<E>(), run), Handovers(size, Start<E>(), run);
    BatchingIsExact(size, run);
    HandoversAreAll(size, Start<E>(), run);
    HandledBatchesAreFull(size, Start<E>(), run);
    hide IsRun, After, Handovers, Inv, Events;
    assert s.handed == Batches(hs);
    forall b | b in s.handed
      ensures |b| == size
    {
      BatchesAreIn(hs, b);
    }
    BlocksOfFlattened(s.handed, size, s.batch);
  }

  // ----- A full batch stops its timer -----

  lemma {:induction false} DoneStaysDone<E>(size: int, s: Batcher<E>, run: seq<Step<E>>, id: nat)
    requires IsRun(size, s, run) && id < |s.timers| && !Pending(s.timers, id)
    ensures id < |After(size, s, run).timers| && !Pending(After(size, s, run).timers, id)
    decreases run
  {
    if run != [] {
      DoneStaysDone(size, Apply(size, s, run[0]), run[1..], id);
    }
  }

  /** A batch that fills before its timer fires never sees that timer's flush. */
  lemma FullBatchStopsItsTimer<E>(size: int, s: Batcher<E>, e: E, run: seq<Step<E>>)
    requires size > 0 && Inv(size, s) && |s.batch| + 1 == size && s.timer.Some? && s.timers[s.timer.value].Armed?
    requires IsRun(size, Apply(size, s, Handle(e)), run)
    ensures !Enabled(After(size, Apply(size, s, Handle(e)), run), Fire(s.timer.value))
    ensures !Enabled(After(size, Apply(size, s, Handle(e)), run), Flush(s.timer.value))
  {
    DoneStaysDone(size, Apply(size, s, Handle(e)), run, s.timer.value);
  }

  class WebhookHandler<E> {
    const batchSize: int
    var batch: seq<E>
    var timer: Option<nat>
    var timers: seq<TimerState>
    var handed: seq<seq<E>>

    ghost function View(): Batcher<E>
      reads this
    {
      Batcher(batch, timer, timers, handed)
    }

    constructor (batchSize: int)
      ensures View() == Start<E>() && this.batchSize == batchSize
    {
      this.batchSize := batchSize;
      batch, timer, timers, handed := [], None, [], [];
    }

    method Handle(event: E)
      modifies this
      ensures View() == HandleEvent(batchSize, old(View()), event)
    {
      if batchSize <= 0 {
        handed := handed + [[event]];
        return;
      }
      batch := batch + [event];
      if |batch| >= batchSize {
        var events := batch;
        batch := [];
        if timer.Some? {
          timers := StopTimer(timers, timer.value);
          timer := None;
        }
        handed := handed + [events];
        return;
      }
      if timer.None? {
        timers := timers + [Armed];
        timer := Some(|timers| - 1);
      }
    }

    /** The flush of timer `id`, whether or not that timer is still the handler's own. */
    method Flush(id: nat)
      requires id < |timers| && timers[id].Fired?
      modifies this
      ensures View() == Apply(batchSize, old(View()), Step.Flush(id))
    {
      timers := timers[id := Ran];
      if |batch| == 0 {
        timer := None;
        return;
      }
      var events := batch;
      batch, timer := [], None;
      handed := handed + [events];
    }
  }
}
