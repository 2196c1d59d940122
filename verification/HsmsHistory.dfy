/** What a session's own replies oblige it to: after accepting a Select it takes data, after a Deselect it refuses data. */
module HsmsHistory {
  import opened Outcomes
  import opened HsmsMessage
  import opened HsmsSession
  import opened HsmsInbound

  /** A reply of the given session type that the read loop wrote at place i of what was sent. */
  predicate RepliedAt(e: Endpoint, i: nat, stype: int) {
    i < |e.sent| && e.sent[i].cause.Some? && e.sent[i].message.SType() == stype
  }

  predicate AcceptedSelectAt(e: Endpoint, i: nat) {
    RepliedAt(e, i, SELECT_RSP) && e.sent[i].message.header.stream == SELECT_SUCCESS
  }

  /** A data message that the read loop has dealt with itself: not throttled, and no transaction waited for it. */
  predicate DealtWith(a: Arrival) {
    a.message.SType() == DATA_MESSAGE && !a.matched && a.fate.Some? && a.fate != Some(Throttled)
  }

  lemma {:induction false} RunExtendsSent(e: Endpoint, run: seq<Action>)
    requires IsRun(e, run)
    ensures |e.sent| <= |After(e, run).sent| && After(e, run).sent[..|e.sent|] == e.sent
    decreases run
  {
    if run != [] {
      SentGrows(e, run[0]);
      hide Apply, Enabled;
      var next, last := Apply(e, run[0]), After(e, run);
      RunExtendsSent(next, run[1..]);
      assert last.sent[..|e.sent|] == last.sent[..|next.sent|][..|e.sent|];
    }
  }

  // ----- After a Deselect -----

  /** No Select.rsp 0 was written by the read loop from place n on. */
  ghost predicate NoSelectSince(e: Endpoint, n: nat) {
    forall i | n <= i < |e.sent| :: !AcceptedSelectAt(e, i)
  }

  /** The session is not selected, or its read loop is just about to make it so. */
  predicate Deselected(e: Endpoint) {
    && !e.reader.NotStarted? && !e.reader.SelectStoring? && !e.reader.Accepting?
    && (e.state != Selected || e.reader.DeselectStoring?)
  }

  ghost predicate RefusesFrom(e: Endpoint, from: nat) {
    forall j | from <= j < |e.arrivals| :: DealtWith(e.arrivals[j]) ==> e.arrivals[j].fate == Some(Refused)
  }

  lemma DeselectedStep(e: Endpoint, a: Action, n: nat)
    requires Deselected(e) && CurrentOk(e) && Enabled(e, a) && !a.FinishSelect? && n <= |e.sent|
    requires NoSelectSince(Apply(e, a), n)
    ensures Deselected(Apply(e, a))
  {
    if a.WriteReply? && a.ok {
      assert !AcceptedSelectAt(Apply(e, a), |e.sent|);
    }
  }

  lemma RefusesStep(e: Endpoint, a: Action, from: nat)
    requires Deselected(e) && InboundInv(e) && Enabled(e, a) && RefusesFrom(e, from)
    ensures RefusesFrom(Apply(e, a), from)
  {
    hide Accepted, Reply;
    StepExtends(e, a);
    InboundStep(e, a);
    var e' := Apply(e, a);
    forall j | from <= j < |e'.arrivals|
      ensures DealtWith(e'.arrivals[j]) ==> e'.arrivals[j].fate == Some(Refused)
    {
      assert FateOk(e'.arrivals[j]);
      if j < |e.arrivals| && e.arrivals[j].fate.Some? {
        assert e'.arrivals[j] == e.arrivals[j];
      }
    }
  }

  lemma {:induction false} DeselectedRuns(e: Endpoint, run: seq<Action>, n: nat, from: nat)
    requires Deselected(e) && InboundInv(e) && RefusesFrom(e, from) && n <= |e.sent|
    requires IsRun(e, run) && (forall a | a in run :: !a.FinishSelect?) && NoSelectSince(After(e, run), n)
    ensures RefusesFrom(After(e, run), from)
    decreases run
  {
    if run != [] {
      var next, last := Apply(e, run[0]), After(e, run);
      RunExtendsSent(next, run[1..]);
      SentGrows(e, run[0]);
      InboundStep(e, run[0]);
      RefusesStep(e, run[0], from);
      hide Apply, Enabled, Deselected, InboundInv, RefusesFrom;
      assert NoSelectSince(next, n) by {
        forall i | n <= i < |next.sent| ensures !AcceptedSelectAt(next, i) {
          assert last.sent[..|next.sent|][i] == last.sent[i] && !AcceptedSelectAt(last, i);
        }
      }
      CurrentIsOk(e);
      DeselectedStep(e, run[0], n);
      DeselectedRuns(next, run[1..], n, from);
    }
  }

  lemma CurrentIsOk(e: Endpoint)
    requires InboundInv(e)
    ensures CurrentOk(e)
  {
  }

  /**
   * Once the read loop has written a Deselect.rsp, and until it accepts
   * another Select or the session's own Select returns, every data message it
   * deals with is refused.
   */
  lemma DeselectedRefuses(e: Endpoint, run: seq<Action>, j: nat)
    requires InboundInv(e) && Enabled(e, WriteReply(true)) && RepliedAt(Apply(e, WriteReply(true)), |e.sent|, DESELECT_RSP)
    requires IsRun(Apply(e, WriteReply(true)), run) && forall a | a in run :: !a.FinishSelect?
    requires NoSelectSince(After(Apply(e, WriteReply(true)), run), |e.sent|)
    ensures
      var last := After(Apply(e, WriteReply(true)), run);
      |e.arrivals| <= j < |last.arrivals| && DealtWith(last.arrivals[j]) ==> last.arrivals[j].fate == Some(Refused)
  {
    var e1 := Apply(e, WriteReply(true));
    InboundStep(e, WriteReply(true));
    assert Deselected(e1) && RefusesFrom(e1, |e.arrivals|) && |e.sent| <= |e1.sent|;
    hide InboundInv, Deselected, NoSelectSince, IsRun, After, Apply;
    DeselectedRuns(e1, run, |e.sent|, |e.arrivals|);
  }

  /** And it is answered with Reject.req, if no Reject.req is lost to a failed write. */
  lemma DeselectedRejects(e: Endpoint, run: seq<Action>, j: nat)
    requires InboundInv(e) && RepliesOk(e) && RefusedAnswered(e)
    requires Enabled(e, WriteReply(true)) && RepliedAt(Apply(e, WriteReply(true)), |e.sent|, DESELECT_RSP)
    requires IsRun(Apply(e, WriteReply(true)), run) && forall a | a in run :: !a.FinishSelect?
    requires LosesNoReject(Apply(e, WriteReply(true)), run)
    requires NoSelectSince(After(Apply(e, WriteReply(true)), run), |e.sent|)
    ensures
      var last := After(Apply(e, WriteReply(true)), run);
      |e.arrivals| <= j < |last.arrivals| && DealtWith(last.arrivals[j]) ==> Rejected(last, j) || AboutToReject(last, j)
  {
    DeselectedRefuses(e, run, j);
    InboundStep(e, WriteReply(true));
    ReplyStep(e, WriteReply(true));
    AnsweredStep(e, WriteReply(true));
    hide InboundInv, RepliesOk, Apply, Enabled, IsRun, After, LosesNoReject, Rejected, AboutToReject;
    AnsweredRuns(Apply(e, WriteReply(true)), run);
  }

  // ----- After a Select -----

  ghost predicate NoDeselectSince(e: Endpoint, n: nat) {
    forall i | n <= i < |e.sent| :: !RepliedAt(e, i, DESELECT_RSP)
  }

  /** The session is selected, or its read loop is just about to make it so. */
  predicate SelectedNow(e: Endpoint) {
    && !e.reader.NotStarted? && !e.reader.DeselectStoring? && !e.reader.Rejecting?
    && e.reader != SelectReplying(SELECT_SUCCESS)
    && (e.state == Selected || e.reader.SelectStoring?)
  }

  ghost predicate TakesFrom(e: Endpoint, from: nat) {
    forall j | from <= j < |e.arrivals| :: e.arrivals[j].fate != Some(Refused)
  }

  /** From place n on, a further Select.req is told that the session is selected already. */
  ghost predicate AlreadyFrom(e: Endpoint, n: nat) {
    forall i | n <= i < |e.sent| :: RepliedAt(e, i, SELECT_RSP) ==> e.sent[i].message.header.stream == SELECT_ALREADY_ACTIVE
  }

  lemma SelectedStep(e: Endpoint, a: Action, n: nat, from: nat)
    requires SelectedNow(e) && CurrentOk(e) && Enabled(e, a) && !a.StoreDisconnected? && n <= |e.sent|
    requires TakesFrom(e, from) && AlreadyFrom(e, n) && NoDeselectSince(Apply(e, a), n)
    ensures SelectedNow(Apply(e, a)) && TakesFrom(Apply(e, a), from) && AlreadyFrom(Apply(e, a), n)
  {
    SentGrows(e, a);
    var e' := Apply(e, a);
    if a.WriteReply? && a.ok {
      assert !RepliedAt(e', |e.sent|, DESELECT_RSP);
    }
    forall i | n <= i < |e'.sent|
      ensures RepliedAt(e', i, SELECT_RSP) ==> e'.sent[i].message.header.stream == SELECT_ALREADY_ACTIVE
    {
      assert i < |e.sent| ==> e'.sent[..|e.sent|][i] == e.sent[i] && (RepliedAt(e, i, SELECT_RSP) <==> RepliedAt(e', i, SELECT_RSP));
    }
  }

  lemma {:induction false} SelectedRuns(e: Endpoint, run: seq<Action>, n: nat, from: nat)
    requires SelectedNow(e) && InboundInv(e) && TakesFrom(e, from) && AlreadyFrom(e, n) && n <= |e.sent|
    requires IsRun(e, run) && (forall a | a in run :: !a.StoreDisconnected?) && NoDeselectSince(After(e, run), n)
    ensures TakesFrom(After(e, run), from) && AlreadyFrom(After(e, run), n)
    decreases run
  {
    if run != [] {
      var next, last := Apply(e, run[0]), After(e, run);
      RunExtendsSent(next, run[1..]);
      SentGrows(e, run[0]);
      InboundStep(e, run[0]);
      hide Apply, Enabled, SelectedNow, InboundInv, TakesFrom, AlreadyFrom;
      assert NoDeselectSince(next, n) by {
        forall i | n <= i < |next.sent| ensures !RepliedAt(next, i, DESELECT_RSP) {
          assert last.sent[..|next.sent|][i] == last.sent[i] && !RepliedAt(last, i, DESELECT_RSP);
        }
      }
      CurrentIsOk(e);
      SelectedStep(e, run[0], n, from);
      SelectedRuns(next, run[1..], n, from);
    }
  }

  /**
   * Once the read loop has written a Select.rsp 0, and until it answers a
   * Deselect.req or the session is closed, no data message is refused, and any
   * further Select.req is answered with status 1.
   */
  lemma SelectedTakesData(e: Endpoint, run: seq<Action>)
    requires InboundInv(e) && Enabled(e, WriteReply(true)) && AcceptedSelectAt(Apply(e, WriteReply(true)), |e.sent|)
    requires IsRun(Apply(e, WriteReply(true)), run) && forall a | a in run :: !a.StoreDisconnected?
    requires NoDeselectSince(After(Apply(e, WriteReply(true)), run), |e.sent| + 1)
    ensures
      var last := After(Apply(e, WriteReply(true)), run);
      && (forall j | |e.arrivals| <= j < |last.arrivals| :: last.arrivals[j].fate != Some(Refused))
      && (forall i | |e.sent| < i < |last.sent| ::
            RepliedAt(last, i, SELECT_RSP) ==> last.sent[i].message.header.stream == SELECT_ALREADY_ACTIVE)
  {
    var e1 := Apply(e, WriteReply(true));
    InboundStep(e, WriteReply(true));
    assert SelectedNow(e1) && |e1.sent| == |e.sent| + 1 && |e1.arrivals| == |e.arrivals|;
    hide InboundInv, SelectedNow, NoDeselectSince, IsRun, After, Apply;
    SelectedRuns(e1, run, |e.sent| + 1, |e.arrivals|);
  }

  // ----- Room in the queue -----

  ghost predicate StaysBelow(e: Endpoint, run: seq<Action>)
    requires IsRun(e, run)
    decreases run
  {
    |e.inbound| < 256 && (run == [] || StaysBelow(Apply(e, run[0]), run[1..]))
  }

  ghost predicate NothingDropped(e: Endpoint) {
    forall j | 0 <= j < |e.arrivals| :: e.arrivals[j].fate != Some(QueueFull)
  }

  lemma RoomStep(e: Endpoint, a: Action)
    requires Enabled(e, a) && NothingDropped(e) && |e.inbound| < 256
    ensures NothingDropped(Apply(e, a))
  {
  }

  /** While fewer than 256 messages wait, none is dropped. */
  lemma {:induction false} NoDropBelowCapacity(e: Endpoint, run: seq<Action>)
    requires NothingDropped(e) && IsRun(e, run) && StaysBelow(e, run)
    ensures NothingDropped(After(e, run))
    decreases run
  {
    hide NothingDropped, Apply, Enabled;
    if run != [] {
      RoomStep(e, run[0]);
      NoDropBelowCapacity(Apply(e, run[0]), run[1..]);
    }
  }

  // ----- After a Separate.req -----

  lemma {:induction false} StoppedReadsNothing(e: Endpoint, run: seq<Action>)
    requires e.reader.Stopped? && IsRun(e, run)
    ensures After(e, run).reader.Stopped? && After(e, run).arrivals == e.arrivals
    decreases run
  {
    if run != [] {
      StoppedReadsNothing(Apply(e, run[0]), run[1..]);
    }
  }

  /** A Separate.req that no transaction waits for ends the reading: nothing that comes after it is taken in. */
  lemma SeparateEndsReading(e: Endpoint, run: seq<Action>)
    requires Enabled(e, Dispatch) && e.Current().message.SType() == SEPARATE_REQ && IsRun(Apply(e, Dispatch), run)
    ensures |After(Apply(e, Dispatch), run).arrivals| == |e.arrivals| && After(Apply(e, Dispatch), run).reader.Stopped?
  {
    StoppedReadsNothing(Apply(e, Dispatch), run);
  }
}
