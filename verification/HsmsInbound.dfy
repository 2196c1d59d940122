/** What the application receives, and what becomes of every message that arrives. */
module HsmsInbound {
  import opened Outcomes
  import opened HsmsMessage
  import opened HsmsSession

  /** A recorded fate is the one the code prescribes for what the lookup and the state check saw. */
  predicate FateOk(a: Arrival) {
    var data := a.message.SType() == DATA_MESSAGE;
    match a.fate
    case None => true
    case Some(Throttled) => !a.matched
    case Some(ToWaiter(_)) => a.matched
    case Some(WaiterFull(_)) => a.matched
    case Some(Queued) => !a.matched && data && a.seen == Selected
    case Some(QueueFull) => !a.matched && data && a.seen == Selected
    case Some(Refused) => !a.matched && data && a.seen != Selected
    case Some(Handled) => !a.matched && !data
  }

  /** The arrivals that were put into the inbound queue, in order. */
  function Accepted(arrivals: seq<Arrival>): (ms: seq<Message>) {
    if arrivals == [] then []
    else
      var last := arrivals[|arrivals| - 1];
      Accepted(arrivals[..|arrivals| - 1]) + if last.fate == Some(Queued) then [last.message] else []
  }

  /** The current arrival, as far as the read loop has got with it. */
  predicate CurrentOk(e: Endpoint) {
    && (e.reader.Deciding() || e.reader.Replying() ==> e.arrivals != [])
    && (e.reader.Deciding() ==>
          var c := e.Current();
          c.fate.None? && c.matched == e.reader.Matched?
          && (e.reader.Accepting? ==> c.message.SType() == DATA_MESSAGE && c.seen == Selected))
    && (e.reader.Rejecting? ==> e.Current().fate == Some(Refused))
    && (e.reader.Replying() && !e.reader.Rejecting? ==> e.Current().fate == Some(Handled))
    && (e.reader.SelectReplying? ==> e.Current().message.SType() == SELECT_REQ && e.reader.status in {0, 1})
    && (e.reader.DeselectReplying? ==> e.Current().message.SType() == DESELECT_REQ)
    && (e.reader.LinktestReplying? ==> e.Current().message.SType() == LINKTEST_REQ)
  }

  ghost predicate FatesOk(e: Endpoint) {
    && (forall i | 0 <= i < |e.arrivals| :: FateOk(e.arrivals[i]))
    && (forall i | 0 <= i < |e.arrivals| :: e.arrivals[i].fate.Some? || (i == |e.arrivals| - 1 && e.reader.Deciding()))
  }

  ghost predicate InboundInv(e: Endpoint) {
    CurrentOk(e) && FatesOk(e) && |e.inbound| <= INBOUND_CAPACITY && e.received + e.inbound == Accepted(e.arrivals)
  }

  /** Deciding the last arrival adds it to the accepted ones exactly when it was queued. */
  lemma AcceptedDecides(arrivals: seq<Arrival>, a: Arrival)
    requires arrivals != [] && arrivals[|arrivals| - 1].fate.None?
    ensures Accepted(arrivals[|arrivals| - 1 := a]) ==
            Accepted(arrivals) + if a.fate == Some(Queued) then [a.message] else []
  {
    var n := |arrivals| - 1;
    assert arrivals[n := a][..n] == arrivals[..n];
  }

  /** A step that decides, or looks further at, the current arrival. */
  lemma Decided(e: Endpoint, e': Endpoint)
    requires InboundInv(e) && e.reader.Deciding()
    requires |e'.arrivals| == |e.arrivals| && e'.arrivals == e.arrivals[|e.arrivals| - 1 := e'.Current()]
    requires CurrentOk(e') && FateOk(e'.Current()) && (e'.Current().fate.Some? || e'.reader.Deciding())
    requires e'.received == e.received && |e'.inbound| <= INBOUND_CAPACITY
    requires e'.inbound == e.inbound + if e'.Current().fate == Some(Queued) then [e'.Current().message] else []
    ensures InboundInv(e')
  {
    AcceptedDecides(e.arrivals, e'.Current());
    assert e'.received + e'.inbound ==
           e.received + e.inbound + if e'.Current().fate == Some(Queued) then [e'.Current().message] else [];
  }

  /** A step that leaves arrivals, queue and application alone. */
  lemma Quiet(e: Endpoint, e': Endpoint)
    requires InboundInv(e) && CurrentOk(e') && (e.reader.Deciding() ==> e'.reader == e.reader)
    requires e'.arrivals == e.arrivals && e'.inbound == e.inbound && e'.received == e.received
    ensures InboundInv(e')
  {
  }

  lemma ReceiveStep(e: Endpoint, m: Message, throttled: bool)
    requires InboundInv(e) && Enabled(e, Receive(m, throttled))
    ensures InboundInv(Apply(e, Receive(m, throttled)))
  {
  }

  lemma DecideStep(e: Endpoint, a: Action)
    requires InboundInv(e) && Enabled(e, a) && (a.Lookup? || a.Deliver? || a.Enqueue?)
    ensures InboundInv(Apply(e, a))
  {
    assert e.inbound + [] == e.inbound;
    assert FateOk(e.Current());
    Decided(e, Apply(e, a));
  }

  lemma DispatchStep(e: Endpoint)
    requires InboundInv(e) && Enabled(e, Dispatch)
    ensures InboundInv(Dispatched(e))
  {
    assert e.inbound + [] == e.inbound;
    assert FateOk(e.Current());
    Decided(e, Dispatched(e));
  }

  lemma InboundStep(e: Endpoint, a: Action)
    requires InboundInv(e) && Enabled(e, a)
    ensures InboundInv(Apply(e, a))
  {
    hide FatesOk;
    match a
    case Receive(m, t) => ReceiveStep(e, m, t);
    case Lookup => DecideStep(e, a);
    case Deliver => DecideStep(e, a);
    case Dispatch => DispatchStep(e);
    case Enqueue => DecideStep(e, a);
    case AppReceive =>
      TakeStep(e);
    case _ => Quiet(e, Apply(e, a));
  }

  lemma TakeStep(e: Endpoint)
    requires InboundInv(e) && Enabled(e, AppReceive)
    ensures InboundInv(Apply(e, AppReceive))
  {
  }

  /**
   * Over every run: the queue holds at most 256 messages; what the application
   * has received and what waits in the queue are the accepted arrivals, each
   * once and in order; every arrival has the one fate prescribed for it.
   */
  lemma {:induction false} InboundRuns(e: Endpoint, run: seq<Action>)
    requires InboundInv(e) && IsRun(e, run)
    ensures InboundInv(After(e, run))
    decreases run
  {
    hide InboundInv, Apply, Enabled;
    if run != [] {
      InboundStep(e, run[0]);
      InboundRuns(Apply(e, run[0]), run[1..]);
    }
  }

  lemma StartIsEmpty()
    ensures InboundInv(START)
  {
  }

  /** ms can be obtained from the arrivals by leaving some out. */
  ghost predicate Subsequence(ms: seq<Message>, arrivals: seq<Arrival>) {
    ms == [] || (arrivals != [] &&
      var last := arrivals[|arrivals| - 1];
      var before := arrivals[..|arrivals| - 1];
      Subsequence(ms, before) || (ms[|ms| - 1] == last.message && Subsequence(ms[..|ms| - 1], before)))
  }

  lemma {:induction false} AcceptedIsSubsequence(arrivals: seq<Arrival>)
    ensures Subsequence(Accepted(arrivals), arrivals)
  {
    if arrivals != [] {
      var n := |arrivals| - 1;
      AcceptedIsSubsequence(arrivals[..n]);
      var ms := Accepted(arrivals);
      if arrivals[n].fate == Some(Queued) {
        assert ms[..|ms| - 1] == Accepted(arrivals[..n]);
      } else {
        assert ms == Accepted(arrivals[..n]);
      }
    }
  }

  lemma {:induction false} PrefixIsSubsequence(ms: seq<Message>, more: seq<Message>, arrivals: seq<Arrival>)
    requires Subsequence(ms + more, arrivals)
    ensures Subsequence(ms, arrivals)
  {
    if ms != [] && more != [] {
      var n := |arrivals| - 1;
      var all := ms + more;
      if Subsequence(all, arrivals[..n]) {
        PrefixIsSubsequence(ms, more, arrivals[..n]);
      } else {
        assert all[..|all| - 1] == ms + more[..|more| - 1];
        PrefixIsSubsequence(ms, more[..|more| - 1], arrivals[..n]);
      }
    } else {
      assert more == [] ==> ms + more == ms;
    }
  }

  /** What the application has received is an in-order selection of what arrived. */
  lemma ReceivedInOrder(run: seq<Action>)
    requires IsRun(START, run)
    ensures var e := After(START, run);
            Subsequence(e.received, e.arrivals) && |e.inbound| <= 256
  {
    StartIsEmpty();
    InboundRuns(START, run);
    var e := After(START, run);
    AcceptedIsSubsequence(e.arrivals);
    PrefixIsSubsequence(e.received, e.inbound, e.arrivals);
  }

  // ----- Replies of the read loop -----

  /** A reply written by the read loop answers the arrival that caused it, with that arrival's system ID. */
  predicate ReplyOk(s: Sent, arrivals: seq<Arrival>) {
    s.cause.Some? ==>
      s.cause.value < |arrivals| &&
      var a := arrivals[s.cause.value];
      var m := a.message;
      || (a.fate == Some(Refused) && s.message == RejectReq(m.header.sessionId, m.SystemId(), DATA_MESSAGE, REASON_NOT_SELECTED))
      || (a.fate == Some(Handled) && IsControlReply(s.message, m))
  }

  /** The response SEMI E37 has for a control request, under the request's system ID. */
  predicate IsControlReply(r: Message, m: Message) {
    var session, id := m.header.sessionId, m.SystemId();
    || (m.SType() == SELECT_REQ && (r == SelectRsp(session, id, 0) || r == SelectRsp(session, id, 1)))
    || (m.SType() == DESELECT_REQ && r == DeselectRsp(session, id, 0))
    || (m.SType() == LINKTEST_REQ && r == LinktestRsp(id))
  }

  /** Every reply is right, no arrival is answered twice, and nothing is answered before it is decided. */
  ghost predicate RepliesOk(e: Endpoint) {
    && (forall i | 0 <= i < |e.sent| :: ReplyOk(e.sent[i], e.arrivals))
    && (forall i, j | 0 <= i < j < |e.sent| :: e.sent[i].cause.Some? ==> e.sent[i].cause != e.sent[j].cause)
    && (e.reader.Deciding() || e.reader.Replying() ==>
          forall i | 0 <= i < |e.sent| :: e.sent[i].cause != Some(|e.arrivals| - 1))
  }

  lemma WriteReplyStep(e: Endpoint, ok: bool)
    requires InboundInv(e) && RepliesOk(e) && Enabled(e, WriteReply(ok))
    ensures RepliesOk(Apply(e, WriteReply(ok)))
  {
  }

  /** A step that answers nothing and leaves decided arrivals as they are. */
  lemma NoReply(e: Endpoint, e': Endpoint)
    requires RepliesOk(e)
    requires |e.arrivals| <= |e'.arrivals| && |e.sent| <= |e'.sent| && e'.sent[..|e.sent|] == e.sent
    requires forall i | |e.sent| <= i < |e'.sent| :: e'.sent[i].cause.None?
    requires forall i | 0 <= i < |e.arrivals| && e.arrivals[i].fate.Some? :: e'.arrivals[i] == e.arrivals[i]
    requires e'.reader.Deciding() || e'.reader.Replying() ==>
               |e'.arrivals| > |e.arrivals| || e.reader.Deciding() || e.reader.Replying()
    ensures RepliesOk(e')
  {
  }

  lemma ReplyStep(e: Endpoint, a: Action)
    requires InboundInv(e) && RepliesOk(e) && Enabled(e, a)
    ensures RepliesOk(Apply(e, a))
  {
    if a.WriteReply? {
      WriteReplyStep(e, a.ok);
    } else {
      hide RepliesOk, FatesOk, Reply;
      NoReply(e, Apply(e, a));
    }
  }

  /** Over every run: each Reject.req answers one refused data message with its own number and reason 4. */
  lemma {:induction false} ReplyRuns(e: Endpoint, run: seq<Action>)
    requires InboundInv(e) && RepliesOk(e) && IsRun(e, run)
    ensures RepliesOk(After(e, run))
    decreases run
  {
    hide InboundInv, RepliesOk, Apply, Enabled;
    if run != [] {
      InboundStep(e, run[0]);
      ReplyStep(e, run[0]);
      ReplyRuns(Apply(e, run[0]), run[1..]);
    }
  }

  // ----- Every refused message is answered -----

  /** A Reject.req was written for the i-th message read. */
  ghost predicate Rejected(e: Endpoint, i: nat) {
    exists j | 0 <= j < |e.sent| :: e.sent[j].cause == Some(i) && e.sent[j].message.SType() == REJECT_REQ
  }

  /** The Reject.req of the i-th message is the read loop's next write. */
  predicate AboutToReject(e: Endpoint, i: nat) {
    e.reader.Rejecting? && i == |e.arrivals| - 1
  }

  ghost predicate RefusedAnswered(e: Endpoint) {
    forall i | 0 <= i < |e.arrivals| && e.arrivals[i].fate == Some(Refused) :: Rejected(e, i) || AboutToReject(e, i)
  }

  /** The step loses a Reject.req to a failed write. */
  predicate LosesReject(e: Endpoint, a: Action) {
    e.reader.Rejecting? && a == WriteReply(false)
  }

  ghost predicate LosesNoReject(e: Endpoint, run: seq<Action>)
    requires IsRun(e, run)
    decreases run
  {
    run == [] || (!LosesReject(e, run[0]) && LosesNoReject(Apply(e, run[0]), run[1..]))
  }

  ghost predicate Extends(e: Endpoint, e': Endpoint) {
    && |e.arrivals| <= |e'.arrivals|
    && (forall i | 0 <= i < |e.arrivals| && e.arrivals[i].fate.Some? :: e'.arrivals[i] == e.arrivals[i])
    && (forall i | 0 <= i < |e'.arrivals| && e'.arrivals[i].fate == Some(Refused) ::
          (i < |e.arrivals| && e.arrivals[i].fate == Some(Refused)) || AboutToReject(e', i))
  }

  lemma DispatchExtends(e: Endpoint)
    requires Enabled(e, Dispatch) && CurrentOk(e)
    ensures Extends(e, Dispatched(e))
  {
  }

  lemma ReaderExtends(e: Endpoint, a: Action)
    requires Enabled(e, a) && CurrentOk(e) && (a.Receive? || a.Lookup? || a.Deliver? || a.Enqueue? || a.WriteReply?)
    ensures Extends(e, Apply(e, a))
  {
    hide Reply;
  }

  /** A decided message stays decided, and a newly refused one is about to be answered. */
  lemma StepExtends(e: Endpoint, a: Action)
    requires Enabled(e, a) && CurrentOk(e)
    ensures Extends(e, Apply(e, a))
  {
    if a.Dispatch? {
      DispatchExtends(e);
    } else if a.Receive? || a.Lookup? || a.Deliver? || a.Enqueue? || a.WriteReply? {
      ReaderExtends(e, a);
    } else {
      var e' := Apply(e, a);
      assert e'.arrivals == e.arrivals;
    }
  }

  lemma RejectedStays(e: Endpoint, e': Endpoint, i: nat)
    requires Rejected(e, i) && |e.sent| <= |e'.sent| && e'.sent[..|e.sent|] == e.sent
    ensures Rejected(e', i)
  {
    var j :| 0 <= j < |e.sent| && e.sent[j].cause == Some(i) && e.sent[j].message.SType() == REJECT_REQ;
    assert e'.sent[j] == e.sent[j];
  }

  lemma AboutToRejectDoes(e: Endpoint, a: Action, i: nat)
    requires Enabled(e, a) && AboutToReject(e, i) && !LosesReject(e, a)
    ensures Rejected(Apply(e, a), i) || AboutToReject(Apply(e, a), i)
  {
    if a.WriteReply? {
      assert Apply(e, a).sent[|e.sent|].cause == Some(i);
    }
  }

  lemma AnsweredStep(e: Endpoint, a: Action)
    requires InboundInv(e) && RefusedAnswered(e) && Enabled(e, a) && !LosesReject(e, a)
    ensures RefusedAnswered(Apply(e, a))
  {
    var e' := Apply(e, a);
    StepExtends(e, a);
    SentGrows(e, a);
    hide Apply, Rejected, FatesOk, FateOk, Accepted;
    forall i | 0 <= i < |e'.arrivals| && e'.arrivals[i].fate == Some(Refused)
      ensures Rejected(e', i) || AboutToReject(e', i)
    {
      if !AboutToReject(e', i) {
        if Rejected(e, i) {
          RejectedStays(e, e', i);
        } else {
          AboutToRejectDoes(e, a, i);
        }
      }
    }
  }

  lemma {:induction false} AnsweredRuns(e: Endpoint, run: seq<Action>)
    requires InboundInv(e) && RepliesOk(e) && RefusedAnswered(e) && IsRun(e, run) && LosesNoReject(e, run)
    ensures RepliesOk(After(e, run)) && RefusedAnswered(After(e, run))
    decreases run
  {
    hide InboundInv, RepliesOk, RefusedAnswered, Apply, Enabled;
    if run != [] {
      InboundStep(e, run[0]);
      ReplyStep(e, run[0]);
      AnsweredStep(e, run[0]);
      AnsweredRuns(Apply(e, run[0]), run[1..]);
    }
  }

  lemma RejectWasRefused(e: Endpoint, j: nat, i: nat)
    requires RepliesOk(e) && j < |e.sent| && e.sent[j].cause == Some(i)
    ensures i < |e.arrivals|
    ensures e.sent[j].message.SType() == REJECT_REQ ==> e.arrivals[i].fate == Some(Refused)
  {
    assert ReplyOk(e.sent[j], e.arrivals);
  }

  lemma RejectedWasRefused(e: Endpoint, i: nat)
    requires RepliesOk(e) && Rejected(e, i)
    ensures i < |e.arrivals| && e.arrivals[i].fate == Some(Refused)
  {
    hide RepliesOk;
    var j :| 0 <= j < |e.sent| && e.sent[j].cause == Some(i) && e.sent[j].message.SType() == REJECT_REQ;
    RejectWasRefused(e, j, i);
  }

  /**
   * Over every run in which no Reject.req is lost to a failed write: a message
   * is answered with Reject.req if and only if it was refused, except that the
   * last one's may still be the read loop's next write.
   */
  lemma RejectedIffRefused(run: seq<Action>, i: nat)
    requires IsRun(START, run) && LosesNoReject(START, run)
    ensures
      var e := After(START, run);
      i < |e.arrivals| && !AboutToReject(e, i) ==> (Rejected(e, i) <==> e.arrivals[i].fate == Some(Refused))
  {
    StartIsEmpty();
    AnsweredRuns(START, run);
    var e := After(START, run);
    hide RepliesOk, Rejected;
    if Rejected(e, i) {
      RejectedWasRefused(e, i);
    }
  }
}
