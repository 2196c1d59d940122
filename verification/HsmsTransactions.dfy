/** Request/reply matching: what every interleaving of senders, timeouts and the read loop keeps. */
module HsmsTransactions {
  import opened Outcomes
  import opened Bytes
  import opened HsmsMessage
  import opened HsmsSession

  predicate CarriesId(m: Message, id: uint32) {
    m.SystemId() == id
  }

  /** The pending map and the open transactions are the same thing, seen from two sides. */
  ghost predicate PendingExact(e: Endpoint) {
    && (forall id | id in e.pending ::
          e.pending[id] < |e.waiters| && e.waiters[e.pending[id]].Open() && e.waiters[e.pending[id]].Id() == id)
    && (forall w | 0 <= w < |e.waiters| && e.waiters[w].Open() ::
          e.waiters[w].Id() in e.pending && e.pending[e.waiters[w].Id()] == w)
  }

  /** Whatever sits in a reply channel or was returned from one carries the request's system ID. */
  predicate RightAnswer(x: Waiter) {
    && (x.slot.Some? ==> CarriesId(x.slot.value, x.Id()))
    && (x.Result().Some? && x.Result().value.Answered? ==> CarriesId(x.Result().value.message, x.Id()))
  }

  ghost predicate AnswersMatch(e: Endpoint) {
    && (forall w | 0 <= w < |e.waiters| :: RightAnswer(e.waiters[w]))
    && (e.reader.Matched? ==>
          e.arrivals != [] && e.reader.waiter < |e.waiters|
          && CarriesId(e.Current().message, e.waiters[e.reader.waiter].Id()))
  }

  ghost predicate TransactionInv(e: Endpoint) {
    PendingExact(e) && AnswersMatch(e)
  }

  /** The caller's part: a request is registered under a number no open transaction uses. */
  predicate FreshId(e: Endpoint, a: Action) {
    a.Register? ==> Numbered(e, a.request).SystemId() !in e.pending
  }

  /** Changing one waiter's phase or slot, but neither its number nor whether it is open, keeps the pending map exact. */
  lemma WaiterStep(e: Endpoint, w: nat, x: Waiter)
    requires PendingExact(e) && w < |e.waiters|
    requires x.Id() == e.waiters[w].Id() && x.Open() == e.waiters[w].Open()
    ensures PendingExact(e.WithWaiter(w, x))
  {
  }

  lemma RegisterStep(e: Endpoint, m: Message)
    requires TransactionInv(e) && FreshId(e, Register(m))
    ensures TransactionInv(Apply(e, Register(m)))
  {
  }

  lemma UnregisterStep(e: Endpoint, w: nat)
    requires TransactionInv(e) && Enabled(e, Unregister(w))
    ensures TransactionInv(Apply(e, Unregister(w)))
  {
  }

  /** Steps of a sender other than registering and unregistering. */
  lemma SenderStep(e: Endpoint, a: Action)
    requires TransactionInv(e) && Enabled(e, a)
    requires a.WriteRequest? || a.TakeAnswer? || a.GiveUp?
    ensures TransactionInv(Apply(e, a))
  {
    var w := a.waiter;
    assert RightAnswer(e.waiters[w]);
    WaiterStep(e, w, Apply(e, a).waiters[w]);
  }

  /** Steps that leave the pending map and the waiters alone, except that a delivery fills an empty slot. */
  lemma ReaderStep(e: Endpoint, a: Action)
    requires TransactionInv(e) && Enabled(e, a)
    requires !a.Register? && !a.WriteRequest? && !a.TakeAnswer? && !a.GiveUp? && !a.Unregister?
    ensures TransactionInv(Apply(e, a))
  {
    if a.Deliver? {
      var w := e.reader.waiter;
      WaiterStep(e, w, Apply(e, a).waiters[w]);
    } else {
      assert Apply(e, a).pending == e.pending && Apply(e, a).waiters == e.waiters;
    }
  }

  lemma TransactionStep(e: Endpoint, a: Action)
    requires TransactionInv(e) && Enabled(e, a) && FreshId(e, a)
    ensures TransactionInv(Apply(e, a))
  {
    hide TransactionInv, Apply;
    match a
    case Register(m) => RegisterStep(e, m);
    case Unregister(w) => UnregisterStep(e, w);
    case WriteRequest(_, _) => SenderStep(e, a);
    case TakeAnswer(_) => SenderStep(e, a);
    case GiveUp(_) => SenderStep(e, a);
    case _ => ReaderStep(e, a);
  }

  // ----- Whole runs -----

  ghost predicate DistinctIds(e: Endpoint, run: seq<Action>)
    requires IsRun(e, run)
    decreases run
  {
    run == [] || (FreshId(e, run[0]) && DistinctIds(Apply(e, run[0]), run[1..]))
  }

  /** In every reachable state the pending map is exact and every answer carries its request's number. */
  lemma {:induction false} TransactionsStayExact(e: Endpoint, run: seq<Action>)
    requires TransactionInv(e) && IsRun(e, run) && DistinctIds(e, run)
    ensures TransactionInv(After(e, run))
    decreases run
  {
    hide TransactionInv, Apply, Enabled;
    if run != [] {
      TransactionStep(e, run[0]);
      TransactionsStayExact(Apply(e, run[0]), run[1..]);
    }
  }

  lemma StartIsExact()
    ensures TransactionInv(START)
  {
  }

  /** Registering keeps the pending map exact if and only if the number is not in use. */
  lemma RegisterNeedsFreshId(e: Endpoint, m: Message)
    requires PendingExact(e)
    ensures PendingExact(Apply(e, Register(m))) <==> FreshId(e, Register(m))
  {
    var id := Numbered(e, m).SystemId();
    var e' := Apply(e, Register(m));
    if id in e.pending {
      var w := e.pending[id];
      assert e'.waiters[w] == e.waiters[w] && e'.waiters[w].Open() && e'.pending[id] != w;
    } else {
      forall w | 0 <= w < |e'.waiters| && e'.waiters[w].Open()
        ensures e'.waiters[w].Id() in e'.pending && e'.pending[e'.waiters[w].Id()] == w
      {
        assert w < |e.waiters| ==> e.waiters[w] == e'.waiters[w];
      }
    }
  }

  /** The lookup hands a message to exactly the open transaction whose number it carries. */
  lemma LookupFindsOwner(e: Endpoint, w: nat)
    requires TransactionInv(e) && Enabled(e, Lookup)
    ensures Apply(e, Lookup).reader == Matched(w) <==>
            w < |e.waiters| && e.waiters[w].Open() && CarriesId(e.Current().message, e.waiters[w].Id())
  {
  }

  /** The waiter an action touches, if it touches one. */
  function Touched(e: Endpoint, a: Action): Option<nat> {
    match a
    case WriteRequest(w, _) => Some(w)
    case TakeAnswer(w) => Some(w)
    case GiveUp(w) => Some(w)
    case Unregister(w) => Some(w)
    case Deliver => if e.reader.Matched? then Some(e.reader.waiter) else None
    case _ => None
  }

  /** No step of one transaction, nor a delivery to it, changes another one's slot, result or pending entry. */
  lemma OthersAreUntouched(e: Endpoint, a: Action, v: nat)
    requires TransactionInv(e) && Enabled(e, a) && FreshId(e, a)
    requires v < |e.waiters| && Touched(e, a) != Some(v)
    ensures Apply(e, a).waiters[v] == e.waiters[v]
    ensures e.waiters[v].Open() ==>
              var e' := Apply(e, a);
              e.waiters[v].Id() in e'.pending && e'.pending[e.waiters[v].Id()] == v
  {
    if a.Unregister? && e.waiters[v].Open() {
      assert e.waiters[a.waiter].Open();
    }
  }

  /** sendAndWait returns once: its result, and with it the one message it returns, never changes. */
  lemma ResultIsFinal(e: Endpoint, a: Action, w: nat)
    requires Enabled(e, a) && w < |e.waiters| && e.waiters[w].Result().Some?
    ensures w < |Apply(e, a).waiters| && Apply(e, a).waiters[w].Result() == e.waiters[w].Result()
  {
  }

  lemma {:induction false} ResultIsFinalForEver(e: Endpoint, run: seq<Action>, w: nat)
    requires IsRun(e, run) && w < |e.waiters| && e.waiters[w].Result().Some?
    ensures w < |After(e, run).waiters| && After(e, run).waiters[w].Result() == e.waiters[w].Result()
    decreases run
  {
    hide Apply, Enabled;
    if run != [] {
      ResultIsFinal(e, run[0], w);
      ResultIsFinalForEver(Apply(e, run[0]), run[1..], w);
    }
  }

  // ----- The first reply wins -----

  /** The reply waits in the channel of a call that still waits, or it is what the call returns unless the call gave up. */
  predicate HoldsReply(x: Waiter, m: Message) {
    match x.phase
    case Registered => x.slot == Some(m)
    case Waiting => x.slot == Some(m)
    case Leaving(o) => o == Answered(m) || !o.Answered?
    case Returned(o) => o == Answered(m) || !o.Answered?
  }

  lemma FirstReplyStep(e: Endpoint, a: Action, w: nat, m: Message)
    requires Enabled(e, a) && w < |e.waiters| && HoldsReply(e.waiters[w], m)
    ensures w < |Apply(e, a).waiters| && HoldsReply(Apply(e, a).waiters[w], m)
  {
  }

  /** Once a reply is in a call's channel, no later message takes its place: the call returns that reply or gives up. */
  lemma {:induction false} FirstReplyIsReturned(e: Endpoint, run: seq<Action>, w: nat, m: Message)
    requires IsRun(e, run) && w < |e.waiters| && HoldsReply(e.waiters[w], m)
    ensures w < |After(e, run).waiters| && HoldsReply(After(e, run).waiters[w], m)
    decreases run
  {
    hide Apply, Enabled, HoldsReply;
    if run != [] {
      FirstReplyStep(e, run[0], w, m);
      FirstReplyIsReturned(Apply(e, run[0]), run[1..], w, m);
    }
  }

  /** Taking the answer returns the message in the channel, giving up returns none. */
  lemma HowCallsEnd(e: Endpoint, w: nat)
    ensures Enabled(e, TakeAnswer(w)) ==> Apply(e, TakeAnswer(w)).waiters[w].Result() == Some(Answered(e.waiters[w].slot.value))
    ensures Enabled(e, GiveUp(w)) ==> Apply(e, GiveUp(w)).waiters[w].Result() == Some(GaveUp)
    ensures Enabled(e, WriteRequest(w, false)) ==> Apply(e, WriteRequest(w, false)).waiters[w].Result() == Some(WriteFailed)
  {
  }

  // ----- When the session numbers the requests itself -----

  predicate SelfNumbered(a: Action) {
    a.Register? ==> a.request.SystemId() == 0
  }

  ghost predicate Counted(e: Endpoint, steps: nat) {
    e.nextId <= steps && forall id | id in e.pending :: id <= e.nextId
  }

  lemma CountStep(e: Endpoint, a: Action, steps: nat)
    requires Counted(e, steps) && Enabled(e, a) && SelfNumbered(a) && steps + 1 < 0x1_0000_0000
    ensures FreshId(e, a) && Counted(Apply(e, a), steps + 1)
  {
  }

  /** If every number comes from the session's own counter, fewer than 2^32 steps never reuse one. */
  lemma {:induction false} CounterGivesDistinctIds(e: Endpoint, run: seq<Action>, steps: nat)
    requires Counted(e, steps) && IsRun(e, run) && steps + |run| < 0x1_0000_0000
    requires forall a | a in run :: SelfNumbered(a)
    ensures DistinctIds(e, run)
    decreases run
  {
    hide Apply, Enabled, FreshId, Counted;
    if run != [] {
      assert SelfNumbered(run[0]);
      CountStep(e, run[0], steps);
      CounterGivesDistinctIds(Apply(e, run[0]), run[1..], steps + 1);
    }
  }
}
