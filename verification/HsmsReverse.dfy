/** What the passive end may count on: when the messages it sends are refused by the active end, and when not. */
module HsmsReverse {
  import opened Outcomes
  import opened HsmsMessage
  import opened HsmsSession
  import opened HsmsInbound
  import opened HsmsSelect

  // ----- Once the active end is selected -----

  /** The active end is selected from here to the end of the run. */
  ghost predicate KeepsSelected(s: System, run: seq<Move>)
    requires IsSystemRun(s, run)
    decreases run
  {
    s.active.state == Selected && (run == [] || KeepsSelected(Next(s, run[0]), run[1..]))
  }

  /** A selected active end refuses nothing it had not refused already. */
  lemma {:induction false} NoNewRefusals(s: System, run: seq<Move>, i: nat)
    requires IsSystemRun(s, run) && KeepsSelected(s, run)
    requires i < |s.active.arrivals| ==> s.active.arrivals[i].fate != Some(Refused)
    ensures
      var e := SystemAfter(s, run).active;
      i < |e.arrivals| ==> e.arrivals[i].fate != Some(Refused)
    decreases run
  {
    if run != [] {
      var mv := run[0];
      if mv.ActiveDoes? && i < |Apply(s.active, mv.action).arrivals| {
        SelectedRefusesNothing(s.active, mv.action, i);
      }
      hide Apply, Enabled;
      NoNewRefusals(Next(s, mv), run[1..], i);
    }
  }

  /** The active end's own replies, over every run. */
  lemma {:induction false} ActiveRuns(s: System, run: seq<Move>)
    requires InboundInv(s.active) && RepliesOk(s.active) && IsSystemRun(s, run)
    ensures InboundInv(SystemAfter(s, run).active) && RepliesOk(SystemAfter(s, run).active)
    decreases run
  {
    hide InboundInv, RepliesOk, Apply, Enabled;
    if run != [] {
      if run[0].ActiveDoes? {
        InboundStep(s.active, run[0].action);
        ReplyStep(s.active, run[0].action);
      }
      ActiveRuns(Next(s, run[0]), run[1..]);
    }
  }

  /**
   * In every interleaving: while the active end stays selected, nothing the
   * passive end writes from then on is refused, and so nothing is answered
   * with Reject.req.
   */
  lemma SelectedAcceptsWhatIsWritten(before: seq<Move>, after: seq<Move>, i: nat)
    requires IsSystemRun(BOTH_NEW, before)
    requires
      var mid := SystemAfter(BOTH_NEW, before);
      IsSystemRun(mid, after) && KeepsSelected(mid, after) && |mid.passive.sent| <= i
    ensures
      var e := SystemAfter(SystemAfter(BOTH_NEW, before), after).active;
      !Rejected(e, i) && (i < |e.arrivals| ==> e.arrivals[i].fate != Some(Refused))
  {
    hide BaseInv, InboundInv, RepliesOk, IsSystemRun, SystemAfter, KeepsSelected, Rejected;
    StartIsBase();
    BaseRuns(BOTH_NEW, before);
    ActiveRuns(BOTH_NEW, before);
    var mid := SystemAfter(BOTH_NEW, before);
    ReadWasSent(mid);
    NoNewRefusals(mid, after, i);
    ActiveRuns(mid, after);
    var e := SystemAfter(mid, after).active;
    if Rejected(e, i) {
      RejectedWasRefused(e, i);
    }
  }

  // ----- What the passive end can see of it -----

  /** The active end leaves Selected by this move. */
  predicate Leaves(s: System, mv: Move)
    requires Possible(s, mv)
  {
    s.active.state == Selected && Next(s, mv).active.state != Selected
  }

  ghost predicate NeverLeaves(s: System, run: seq<Move>)
    requires IsSystemRun(s, run)
    decreases run
  {
    run == [] || (!Leaves(s, run[0]) && NeverLeaves(Next(s, run[0]), run[1..]))
  }

  lemma {:induction false} NeverLeavesKeeps(s: System, run: seq<Move>)
    requires IsSystemRun(s, run) && NeverLeaves(s, run) && s.active.state == Selected
    ensures KeepsSelected(s, run)
    decreases run
  {
    if run != [] {
      NeverLeavesKeeps(Next(s, run[0]), run[1..]);
    }
  }

  predicate ReturnedSelected(e: Endpoint) {
    e.selectReturn.Some? ==> e.state == Selected
  }

  lemma {:induction false} ReturnedStaysSelected(s: System, run: seq<Move>)
    requires IsSystemRun(s, run) && NeverLeaves(s, run) && ReturnedSelected(s.active)
    ensures ReturnedSelected(SystemAfter(s, run).active)
    decreases run
  {
    if run != [] {
      ReturnedStaysSelected(Next(s, run[0]), run[1..]);
    }
  }

  /** Select's return is recorded once, as the number of messages written until then. */
  lemma {:induction false} ReturnIsRecordedOnce(s: System, run: seq<Move>)
    requires IsSystemRun(s, run)
    ensures
      var r, r' := s.active.selectReturn, SystemAfter(s, run).active.selectReturn;
      (r.Some? ==> r' == r) && (r.None? && r'.Some? ==> |s.active.sent| <= r'.value)
    decreases run
  {
    if run != [] {
      if run[0].ActiveDoes? {
        HistoryGrows(s.active, run[0].action);
        ReturnStep(s.active, run[0].action);
      }
      hide Apply, Enabled;
      ReturnIsRecordedOnce(Next(s, run[0]), run[1..]);
    }
  }

  lemma ReturnStep(e: Endpoint, a: Action)
    requires Enabled(e, a)
    ensures
      var r, r' := e.selectReturn, Apply(e, a).selectReturn;
      (r.Some? ==> r' == r) && (r.None? && r'.Some? ==> |e.sent| <= r'.value)
  {
  }

  /**
   * Having read any message the active end wrote after its Select returned,
   * the passive end may send: as long as the active end does not leave
   * Selected, nothing it writes from then on is answered with Reject.req.
   */
  lemma AnswerShowsSelected(before: seq<Move>, after: seq<Move>, i: nat)
    requires IsSystemRun(BOTH_NEW, before) && NeverLeaves(BOTH_NEW, before)
    requires
      var mid := SystemAfter(BOTH_NEW, before);
      IsSystemRun(mid, after) && NeverLeaves(mid, after) && |mid.passive.sent| <= i
    requires
      var mid := SystemAfter(BOTH_NEW, before);
      var r := SystemAfter(mid, after).active.selectReturn;
      r.Some? && r.value < |mid.passive.arrivals|
    ensures !Rejected(SystemAfter(SystemAfter(BOTH_NEW, before), after).active, i)
  {
    hide BaseInv, IsSystemRun, SystemAfter, KeepsSelected, NeverLeaves, Rejected;
    StartIsBase();
    var mid := SystemAfter(BOTH_NEW, before);
    BaseRuns(BOTH_NEW, before);
    ReadWasSent(mid);
    ReturnedStaysSelected(BOTH_NEW, before);
    ReturnIsRecordedOnce(mid, after);
    NeverLeavesKeeps(mid, after);
    SelectedAcceptsWhatIsWritten(before, after, i);
  }

  predicate IsData(m: Message) {
    m.SType() == DATA_MESSAGE
  }

  /** The check of `SendMessage` and `Send`: the active end sends data only while it is selected. */
  predicate SendsDataSelected(s: System, mv: Move) {
    mv.ActiveDoes? && s.active.state != Selected ==>
      match mv.action
      case Register(m) => !IsData(m)
      case Post(m) => !IsData(m)
      case SendRaw(m) => !IsData(m)
      case _ => true
  }

  ghost predicate AlwaysChecks(s: System, run: seq<Move>)
    requires IsSystemRun(s, run)
    decreases run
  {
    run == [] || (SendsDataSelected(s, run[0]) && AlwaysChecks(Next(s, run[0]), run[1..]))
  }

  /** As long as the session is not selected, no data was sent or is about to be. */
  ghost predicate NoDataBefore(e: Endpoint) {
    e.state != Selected ==>
      && (forall i | 0 <= i < |e.sent| :: !IsData(e.sent[i].message))
      && (forall w | 0 <= w < |e.waiters| :: !IsData(e.waiters[w].request))
  }

  lemma NoDataStep(s: System, a: Action)
    requires Possible(s, ActiveDoes(a)) && NoDataBefore(s.active)
    requires !Leaves(s, ActiveDoes(a)) && SendsDataSelected(s, ActiveDoes(a))
    ensures NoDataBefore(Apply(s.active, a))
  {
    var e, e' := s.active, Apply(s.active, a);
    if e'.state != Selected {
      HistoryGrows(e, a);
      forall i | 0 <= i < |e'.sent| ensures !IsData(e'.sent[i].message) {
        assert i < |e.sent| ==> e'.sent[..|e.sent|][i] == e.sent[i];
      }
      forall w | 0 <= w < |e'.waiters| ensures !IsData(e'.waiters[w].request) {
        assert w < |e.waiters| ==> e'.waiters[w].request == e.waiters[w].request;
      }
    }
  }

  lemma {:induction false} NoDataRuns(s: System, run: seq<Move>)
    requires IsSystemRun(s, run) && NeverLeaves(s, run) && AlwaysChecks(s, run) && NoDataBefore(s.active)
    ensures NoDataBefore(SystemAfter(s, run).active)
    decreases run
  {
    if run != [] {
      if run[0].ActiveDoes? {
        NoDataStep(s, run[0].action);
      }
      hide Apply, Enabled, NoDataBefore;
      NoDataRuns(Next(s, run[0]), run[1..]);
    }
  }

  /**
   * What the passive end can check: once it has read any data message, it may
   * send. As long as the active end does not leave Selected, nothing the
   * passive end writes from then on is answered with Reject.req.
   */
  lemma DataShowsSelected(before: seq<Move>, after: seq<Move>, k: nat, i: nat)
    requires IsSystemRun(BOTH_NEW, before) && NeverLeaves(BOTH_NEW, before) && AlwaysChecks(BOTH_NEW, before)
    requires
      var mid := SystemAfter(BOTH_NEW, before);
      && IsSystemRun(mid, after) && NeverLeaves(mid, after)
      && k < |mid.passive.arrivals| && IsData(mid.passive.arrivals[k].message) && |mid.passive.sent| <= i
    ensures !Rejected(SystemAfter(SystemAfter(BOTH_NEW, before), after).active, i)
  {
    hide BaseInv, IsSystemRun, SystemAfter, KeepsSelected, NeverLeaves, AlwaysChecks, Rejected;
    StartIsBase();
    var mid := SystemAfter(BOTH_NEW, before);
    BaseRuns(BOTH_NEW, before);
    ReadWasSent(mid);
    NoDataRuns(BOTH_NEW, before);
    assert IsData(mid.active.sent[k].message);
    NeverLeavesKeeps(mid, after);
    SelectedAcceptsWhatIsWritten(before, after, i);
  }

  // ----- Exactly when a message is refused -----

  /** The active end accepts a Select of its peer, and so is selected without its own. */
  predicate PeerSelects(s: System, mv: Move) {
    mv == ActiveDoes(StoreState) && s.active.reader.SelectStoring?
  }

  ghost predicate SelectsOnly(s: System, run: seq<Move>)
    requires IsSystemRun(s, run)
    decreases run
  {
    run == [] || (!Leaves(s, run[0]) && !PeerSelects(s, run[0]) && SelectsOnly(Next(s, run[0]), run[1..]))
  }

  predicate SelectedIffReturned(e: Endpoint) {
    e.state == Selected <==> e.selectReturn.Some?
  }

  lemma {:induction false} SelectedByReturnOnly(s: System, run: seq<Move>)
    requires IsSystemRun(s, run) && SelectsOnly(s, run) && SelectedIffReturned(s.active)
    ensures SelectedIffReturned(SystemAfter(s, run).active)
    decreases run
  {
    if run != [] {
      SelectedByReturnOnly(Next(s, run[0]), run[1..]);
    }
  }

  lemma {:induction false} FateIsFinal(s: System, run: seq<Move>, i: nat)
    requires InboundInv(s.active) && IsSystemRun(s, run) && i < |s.active.arrivals| && s.active.arrivals[i].fate.Some?
    ensures i < |SystemAfter(s, run).active.arrivals| && SystemAfter(s, run).active.arrivals[i] == s.active.arrivals[i]
    decreases run
  {
    if run != [] {
      if run[0].ActiveDoes? {
        InboundStep(s.active, run[0].action);
        StepExtends(s.active, run[0].action);
      }
      hide Apply, Enabled, FatesOk, Accepted;
      FateIsFinal(Next(s, run[0]), run[1..], i);
    }
  }

  /** The i-th message was decided otherwise, or passed the state check and waits for the queue. */
  predicate PassedCheck(e: Endpoint, i: nat) {
    && i < |e.arrivals| && e.arrivals[i].fate != Some(Refused)
    && (e.arrivals[i].fate.None? ==> e.reader.Accepting? && i == |e.arrivals| - 1)
  }

  lemma PassedIs(e: Endpoint, i: nat)
    requires PassedCheck(e, i)
    ensures i < |e.arrivals| && e.arrivals[i].fate != Some(Refused)
  {
  }

  lemma PassedStep(e: Endpoint, a: Action, i: nat)
    requires PassedCheck(e, i) && CurrentOk(e) && Enabled(e, a)
    ensures PassedCheck(Apply(e, a), i)
  {
    StepExtends(e, a);
  }

  lemma {:induction false} PassedStays(s: System, run: seq<Move>, i: nat)
    requires InboundInv(s.active) && IsSystemRun(s, run) && PassedCheck(s.active, i)
    ensures PassedCheck(SystemAfter(s, run).active, i)
    decreases run
  {
    if run != [] {
      if run[0].ActiveDoes? {
        InboundStep(s.active, run[0].action);
        PassedStep(s.active, run[0].action, i);
      }
      hide Apply, Enabled, FatesOk, Accepted, PassedCheck;
      PassedStays(Next(s, run[0]), run[1..], i);
    }
  }

  lemma DispatchDecides(e: Endpoint)
    requires InboundInv(e) && Enabled(e, Dispatch) && e.Current().message.SType() == DATA_MESSAGE
    ensures
      var c := Apply(e, Dispatch).Current();
      && |Apply(e, Dispatch).arrivals| == |e.arrivals|
      && (e.state != Selected ==> c.fate == Some(Refused))
      && (e.state == Selected ==> PassedCheck(Apply(e, Dispatch), |e.arrivals| - 1))
  {
  }

  /**
   * A data message that no transaction waits for is refused if and only if the
   * active end is not selected when its read loop dispatches it. If the active
   * end is selected by its own Select only, that is: if and only if the store
   * at the end of Select has not happened yet.
   */
  lemma RefusedIffBeforeStore(before: seq<Move>, after: seq<Move>)
    requires IsSystemRun(BOTH_NEW, before)
    requires
      var e := SystemAfter(BOTH_NEW, before).active;
      Enabled(e, Dispatch) && e.Current().message.SType() == DATA_MESSAGE
    requires IsSystemRun(Next(SystemAfter(BOTH_NEW, before), ActiveDoes(Dispatch)), after)
    ensures
      var mid := SystemAfter(BOTH_NEW, before);
      var s := SystemAfter(Next(mid, ActiveDoes(Dispatch)), after);
      var i := |mid.active.arrivals| - 1;
      && i < |s.active.arrivals|
      && (s.active.arrivals[i].fate == Some(Refused) <==> mid.active.state != Selected)
      && (SelectsOnly(BOTH_NEW, before) ==>
            (s.active.arrivals[i].fate == Some(Refused) <==> mid.active.selectReturn.None?))
  {
    hide BaseInv, InboundInv, RepliesOk, IsSystemRun, SystemAfter, SelectsOnly, Apply, PassedCheck;
    StartIsBase();
    var mid := SystemAfter(BOTH_NEW, before);
    var next := Next(mid, ActiveDoes(Dispatch));
    var i := |mid.active.arrivals| - 1;
    if SelectsOnly(BOTH_NEW, before) {
      SelectedByReturnOnly(BOTH_NEW, before);
    }
    ActiveRuns(BOTH_NEW, before);
    DispatchDecides(mid.active);
    InboundStep(mid.active, Dispatch);
    if mid.active.state == Selected {
      PassedStays(next, after, i);
      PassedIs(SystemAfter(next, after).active, i);
    } else {
      FateIsFinal(next, after, i);
    }
  }
}
