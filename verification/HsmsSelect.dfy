/**
 * An active and a passive session joined by two FIFO links.
 *
 * What a session has read is a prefix of what its peer has written; the rest is
 * in flight. A link that breaks simply delivers nothing more.
 */
module HsmsSelect {
  import opened Outcomes
  import opened HsmsMessage
  import opened HsmsSession
  import opened HsmsInbound

  datatype System = System(active: Endpoint, passive: Endpoint)

  datatype Move = ActiveDoes(action: Action) | PassiveDoes(action: Action)

  const BOTH_NEW: System := System(START, START)

  /** What is read next is what the peer wrote next. */
  predicate Linked(me: Endpoint, peer: Endpoint, a: Action) {
    a.Receive? ==> |me.arrivals| < |peer.sent| && a.message == peer.sent[|me.arrivals|].message
  }

  /** An application does not make up answers to Select.req. */
  predicate Honest(a: Action) {
    (a.Register? ==> a.request.SType() != SELECT_RSP) && (a.Post? ==> a.message.SType() != SELECT_RSP)
  }

  predicate Possible(s: System, mv: Move) {
    match mv
    case ActiveDoes(a) => Enabled(s.active, a) && Linked(s.active, s.passive, a)
    case PassiveDoes(a) => Enabled(s.passive, a) && Linked(s.passive, s.active, a) && Honest(a)
  }

  function Next(s: System, mv: Move): System
    requires Possible(s, mv)
  {
    match mv
    case ActiveDoes(a) => s.(active := Apply(s.active, a))
    case PassiveDoes(a) => s.(passive := Apply(s.passive, a))
  }

  /** The passive end leaves Selected: the store after Deselect.req, or the last store of Close. */
  predicate Deselects(s: System, mv: Move) {
    mv.PassiveDoes? &&
    (mv.action.StoreDisconnected? || (mv.action.StoreState? && s.passive.reader.DeselectStoring?))
  }

  ghost predicate IsSystemRun(s: System, run: seq<Move>)
    decreases run
  {
    run == [] || (Possible(s, run[0]) && IsSystemRun(Next(s, run[0]), run[1..]))
  }

  ghost function SystemAfter(s: System, run: seq<Move>): System
    requires IsSystemRun(s, run)
    decreases run
  {
    if run == [] then s else SystemAfter(Next(s, run[0]), run[1..])
  }

  ghost predicate NeverDeselects(s: System, run: seq<Move>)
    requires IsSystemRun(s, run)
    decreases run
  {
    run == [] || (!Deselects(s, run[0]) && NeverDeselects(Next(s, run[0]), run[1..]))
  }

  // ----- What holds from the start -----

  ghost predicate SawSuccess(e: Endpoint) {
    exists i | 0 <= i < |e.arrivals| :: IsSelectSuccess(e.arrivals[i].message)
  }

  ghost predicate WroteSuccess(e: Endpoint) {
    exists i | 0 <= i < |e.sent| :: IsSelectSuccess(e.sent[i].message)
  }

  predicate HoldsSuccess(x: Waiter) {
    || (x.slot.Some? && IsSelectSuccess(x.slot.value))
    || (x.Result().Some? && x.Result().value.Answered? && IsSelectSuccess(x.Result().value.message))
  }

  /** A Select.rsp with status 0 that a caller holds, or that let Select return nil, was read from the link. */
  ghost predicate SuccessWasRead(e: Endpoint) {
    && (forall w | 0 <= w < |e.waiters| :: HoldsSuccess(e.waiters[w]) ==> SawSuccess(e))
    && (e.selectReturn.Some? ==> SawSuccess(e) && e.selectReturn.value <= |e.sent|)
  }

  lemma SuccessReadStep(e: Endpoint, a: Action)
    requires SuccessWasRead(e) && Enabled(e, a)
    ensures SuccessWasRead(Apply(e, a))
  {
    var e' := Apply(e, a);
    HistoryGrows(e, a);
    if SawSuccess(e) {
      var i :| 0 <= i < |e.arrivals| && IsSelectSuccess(e.arrivals[i].message);
      assert IsSelectSuccess(e'.arrivals[i].message);
    } else {
      assert a.Deliver? ==> !IsSelectSuccess(e.arrivals[|e.arrivals| - 1].message);
      forall w | 0 <= w < |e'.waiters| ensures !HoldsSuccess(e'.waiters[w]) {
        assert w < |e.waiters| ==> !HoldsSuccess(e.waiters[w]);
      }
    }
  }

  /** No request of the passive application is a Select.rsp. */
  ghost predicate HonestRequests(e: Endpoint) {
    forall w | 0 <= w < |e.waiters| :: e.waiters[w].request.SType() != SELECT_RSP
  }

  lemma HonestStep(e: Endpoint, a: Action)
    requires HonestRequests(e) && Enabled(e, a) && Honest(a)
    ensures HonestRequests(Apply(e, a))
  {
  }

  ghost predicate InFlight(me: Endpoint, peer: Endpoint) {
    |me.arrivals| <= |peer.sent| && forall i | 0 <= i < |me.arrivals| :: me.arrivals[i].message == peer.sent[i].message
  }

  ghost predicate BaseInv(s: System) {
    && InFlight(s.active, s.passive) && InFlight(s.passive, s.active)
    && SuccessWasRead(s.active) && HonestRequests(s.passive)
    && InboundInv(s.passive) && RepliesOk(s.passive)
  }

  lemma BaseStep(s: System, mv: Move)
    requires BaseInv(s) && Possible(s, mv)
    ensures BaseInv(Next(s, mv))
  {
    hide SuccessWasRead, HonestRequests, InboundInv, RepliesOk, Apply;
    match mv
    case ActiveDoes(a) =>
      HistoryGrows(s.active, a);
      SuccessReadStep(s.active, a);
    case PassiveDoes(a) =>
      HistoryGrows(s.passive, a);
      HonestStep(s.passive, a);
      InboundStep(s.passive, a);
      ReplyStep(s.passive, a);
  }

  lemma {:induction false} BaseRuns(s: System, run: seq<Move>)
    requires BaseInv(s) && IsSystemRun(s, run)
    ensures BaseInv(SystemAfter(s, run))
    decreases run
  {
    hide BaseInv, Possible, Next;
    if run != [] {
      BaseStep(s, run[0]);
      BaseRuns(Next(s, run[0]), run[1..]);
    }
  }

  lemma StartIsBase()
    ensures BaseInv(BOTH_NEW) && InboundInv(BOTH_NEW.active) && RepliesOk(BOTH_NEW.active)
  {
  }

  /** What either end has read, the other has written. */
  lemma ReadWasSent(s: System)
    requires BaseInv(s)
    ensures |s.active.arrivals| <= |s.passive.sent| && |s.passive.arrivals| <= |s.active.sent|
    ensures forall k | 0 <= k < |s.passive.arrivals| :: s.passive.arrivals[k].message == s.active.sent[k].message
  {
  }

  // ----- What a written Select.rsp guarantees -----

  /** Once a Select.rsp with status 0 is written, the state is Selected or the read loop is just about to store it. */
  ghost predicate SelectKept(e: Endpoint) {
    WroteSuccess(e) ==> !e.reader.NotStarted? && (e.state == Selected || e.reader.SelectStoring?)
  }

  /** A Select.rsp with status 0 comes from the read loop's answer and from nowhere else. */
  lemma OthersWriteNoSuccess(e: Endpoint, a: Action)
    requires HonestRequests(e) && Enabled(e, a) && Honest(a)
    requires e.reader != SelectReplying(SELECT_SUCCESS) || a != WriteReply(true)
    ensures WroteSuccess(Apply(e, a)) <==> WroteSuccess(e)
  {
    var e' := Apply(e, a);
    HistoryGrows(e, a);
    forall i | 0 <= i < |e.sent| ensures e'.sent[i] == e.sent[i] {
      assert e'.sent[..|e.sent|][i] == e.sent[i];
    }
    forall i | |e.sent| <= i < |e'.sent| ensures !IsSelectSuccess(e'.sent[i].message) {
      assert a.Post? ==> Numbered(e, a.message).SType() == a.message.SType();
    }
    if WroteSuccess(e) {
      var i :| 0 <= i < |e.sent| && IsSelectSuccess(e.sent[i].message);
      assert IsSelectSuccess(e'.sent[i].message);
    }
  }

  /** A selected end whose read loop runs stays selected until it is deselected or closed. */
  lemma StaysSelected(s: System, a: Action)
    requires Enabled(s.passive, a) && !Deselects(s, PassiveDoes(a)) && !s.passive.reader.NotStarted?
    ensures !Apply(s.passive, a).reader.NotStarted?
    ensures s.passive.state == Selected ==> Apply(s.passive, a).state == Selected
    ensures s.passive.reader.SelectStoring? ==>
              var e' := Apply(s.passive, a);
              |e'.arrivals| == |s.passive.arrivals| && (e'.state == Selected || e'.reader.SelectStoring?)
  {
  }

  lemma SelectKeptStep(s: System, a: Action)
    requires HonestRequests(s.passive) && SelectKept(s.passive) && Enabled(s.passive, a) && Honest(a)
    requires !Deselects(s, PassiveDoes(a))
    ensures SelectKept(Apply(s.passive, a))
  {
    var e := s.passive;
    if e.reader != SelectReplying(SELECT_SUCCESS) || a != WriteReply(true) {
      OthersWriteNoSuccess(e, a);
      if WroteSuccess(e) {
        StaysSelected(s, a);
      }
    }
  }

  /** A selected end refuses nothing. */
  lemma SelectedRefusesNothing(e: Endpoint, a: Action, i: nat)
    requires Enabled(e, a) && e.state == Selected && i < |Apply(e, a).arrivals|
    requires i < |e.arrivals| ==> e.arrivals[i].fate != Some(Refused)
    ensures Apply(e, a).arrivals[i].fate != Some(Refused)
  {
  }

  /** From its k-th message on, nothing the active end writes finds the passive end not selected. */
  ghost predicate Guaranteed(s: System) {
    s.active.selectReturn.Some? ==>
      var k := s.active.selectReturn.value;
      && (s.passive.state == Selected || |s.passive.arrivals| <= k)
      && (forall i | k <= i < |s.passive.arrivals| :: s.passive.arrivals[i].fate != Some(Refused))
  }

  lemma SuccessReachedActive(s: System)
    requires BaseInv(s) && s.active.selectReturn.Some?
    ensures WroteSuccess(s.passive)
  {
  }

  lemma GuaranteeActiveStep(s: System, a: Action)
    requires BaseInv(s) && Guaranteed(s) && Possible(s, ActiveDoes(a))
    ensures Guaranteed(Next(s, ActiveDoes(a)))
  {
  }

  lemma GuaranteePassiveStep(s: System, a: Action)
    requires BaseInv(s) && SelectKept(s.passive) && Guaranteed(s) && Possible(s, PassiveDoes(a))
    requires !Deselects(s, PassiveDoes(a))
    ensures Guaranteed(Next(s, PassiveDoes(a)))
  {
    hide InboundInv, RepliesOk, SuccessWasRead, HonestRequests, WroteSuccess, Apply;
    if s.active.selectReturn.Some? {
      SuccessReachedActive(s);
      StaysSelected(s, a);
      var k, e' := s.active.selectReturn.value, Apply(s.passive, a);
      forall i | k <= i < |e'.arrivals| ensures e'.arrivals[i].fate != Some(Refused) {
        SelectedRefusesNothing(s.passive, a, i);
      }
    }
  }

  lemma {:induction false} GuaranteeRuns(s: System, run: seq<Move>)
    requires BaseInv(s) && SelectKept(s.passive) && Guaranteed(s) && IsSystemRun(s, run) && NeverDeselects(s, run)
    ensures BaseInv(SystemAfter(s, run)) && Guaranteed(SystemAfter(s, run))
    decreases run
  {
    if run != [] {
      var mv := run[0];
      assert HonestRequests(s.passive);
      hide BaseInv, Guaranteed, SelectKept, HonestRequests, Deselects, Apply, Enabled;
      BaseStep(s, mv);
      match mv {
        case ActiveDoes(a) => GuaranteeActiveStep(s, a);
        case PassiveDoes(a) =>
          GuaranteePassiveStep(s, a);
          SelectKeptStep(s, a);
      }
      GuaranteeRuns(Next(s, mv), run[1..]);
    }
  }

  /**
   * In every interleaving in which the passive end does not leave Selected
   * once it has accepted a Select, no message the active end writes after its
   * Select returned nil is answered with Reject.req.
   */
  lemma SelectGuarantee(before: seq<Move>, after: seq<Move>, i: nat)
    requires IsSystemRun(BOTH_NEW, before)
    requires var mid := SystemAfter(BOTH_NEW, before);
             !WroteSuccess(mid.passive) && IsSystemRun(mid, after) && NeverDeselects(mid, after)
    ensures var s := SystemAfter(SystemAfter(BOTH_NEW, before), after);
            s.active.selectReturn.Some? && s.active.selectReturn.value <= i ==> !Rejected(s.passive, i)
  {
    StartIsBase();
    hide SuccessWasRead, HonestRequests, InboundInv, RepliesOk, InFlight, IsSystemRun, SystemAfter, NeverDeselects;
    BaseRuns(BOTH_NEW, before);
    var mid := SystemAfter(BOTH_NEW, before);
    if mid.active.selectReturn.Some? {
      SuccessReachedActive(mid);
    }
    GuaranteeRuns(mid, after);
    var s := SystemAfter(mid, after);
    if Rejected(s.passive, i) {
      RejectedWasRefused(s.passive, i);
    }
  }
}
