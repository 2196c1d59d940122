/** Runs of the two-session system that show what the Select guarantee does not promise. */
module HsmsScenarios {
  import opened Outcomes
  import opened HsmsMessage
  import opened HsmsSession
  import opened HsmsInbound
  import opened HsmsSelect

  lemma {:induction false} Extend(s: System, run: seq<Move>, mv: Move)
    requires IsSystemRun(s, run) && Possible(SystemAfter(s, run), mv)
    requires NeverDeselects(s, run) && !Deselects(SystemAfter(s, run), mv)
    ensures IsSystemRun(s, run + [mv]) && SystemAfter(s, run + [mv]) == Next(SystemAfter(s, run), mv)
    ensures NeverDeselects(s, run + [mv])
    decreases run
  {
    if run == [] {
      assert [] + [mv] == [mv] && [mv][1..] == [];
      assert SystemAfter(Next(s, mv), []) == Next(s, mv) && NeverDeselects(Next(s, mv), []);
    } else {
      hide Possible, Next, Deselects;
      assert (run + [mv])[1..] == run[1..] + [mv];
      Extend(Next(s, run[0]), run[1..], mv);
    }
  }

  /** s can be reached from the start without the passive end leaving Selected. */
  ghost predicate Reachable(s: System) {
    exists run ::
      IsSystemRun(BOTH_NEW, run) && NeverDeselects(BOTH_NEW, run) && SystemAfter(BOTH_NEW, run) == s
  }

  lemma Reach(s: System, mv: Move)
    requires Reachable(s) && Possible(s, mv) && !Deselects(s, mv)
    ensures Reachable(Next(s, mv))
  {
    hide Possible, Next, Deselects;
    var run :|
      IsSystemRun(BOTH_NEW, run) && NeverDeselects(BOTH_NEW, run) && SystemAfter(BOTH_NEW, run) == s;
    Extend(BOTH_NEW, run, mv);
  }

  const REQ: Message := SelectReq(0, 1)
  const RSP: Message := SelectRsp(0, 1, SELECT_SUCCESS)
  const EVENT: Message := DataMessage(0, 6, 11, false, 7, [])

  const CONNECTED: Endpoint := START.(state := Connected, reader := Idle)

  const ASKED: Endpoint := CONNECTED.(
    nextId := 1, pending := map[1 := 0], waiters := [Waiter(REQ, Waiting, None)], sent := [Sent(REQ, None)])

  const ANSWERED: Endpoint := CONNECTED.(
    state := Selected, arrivals := [Arrival(REQ, false, Disconnected, Some(Handled))],
    sent := [Sent(RSP, Some(0)), Sent(EVENT, None)])

  lemma BothConnect()
    ensures Reachable(System(CONNECTED, CONNECTED))
  {
    var s := BOTH_NEW;
    assert Reachable(s) by {
      assert IsSystemRun(s, []) && NeverDeselects(s, []) && SystemAfter(s, []) == s;
    }
    Reach(s, ActiveDoes(Establish));
    Reach(System(CONNECTED, START), PassiveDoes(Establish));
  }

  lemma ActiveAsks()
    ensures Reachable(System(ASKED, CONNECTED))
  {
    BothConnect();
    var s := System(CONNECTED, CONNECTED);
    var ask := ActiveDoes(Register(SelectReq(0, 0)));
    Reach(s, ask);
    var registered := ASKED.(waiters := [Waiter(REQ, Registered, None)], sent := []);
    assert Next(s, ask).active == registered;
    Reach(System(registered, CONNECTED), ActiveDoes(WriteRequest(0, true)));
    assert Next(System(registered, CONNECTED), ActiveDoes(WriteRequest(0, true))).active == ASKED;
  }

  const ACCEPTING: Endpoint := CONNECTED.(
    arrivals := ANSWERED.arrivals, reader := SelectReplying(SELECT_SUCCESS))

  lemma PassiveAccepts()
    ensures Reachable(System(ASKED, ACCEPTING))
  {
    ActiveAsks();
    var p0 := CONNECTED;
    var p1 := p0.(arrivals := [Arrival(REQ, false, Disconnected, None)], reader := Took);
    assert Apply(p0, Receive(REQ, false)) == p1;
    Reach(System(ASKED, p0), PassiveDoes(Receive(REQ, false)));
    var p2 := p1.(reader := Unmatched);
    assert Apply(p1, Lookup) == p2;
    Reach(System(ASKED, p1), PassiveDoes(Lookup));
    assert Apply(p2, Dispatch) == ACCEPTING;
    Reach(System(ASKED, p2), PassiveDoes(Dispatch));
  }

  const STORING: Endpoint := ACCEPTING.(sent := [Sent(RSP, Some(0))], reader := SelectStoring)

  lemma PassiveWrites()
    ensures Reachable(System(ASKED, STORING))
  {
    PassiveAccepts();
    assert Apply(ACCEPTING, WriteReply(true)) == STORING;
    Reach(System(ASKED, ACCEPTING), PassiveDoes(WriteReply(true)));
  }

  /** The passive end accepts the Select, stores Selected and then sends an event report. */
  lemma PassiveAnswers()
    ensures Reachable(System(ASKED, ANSWERED))
  {
    PassiveWrites();
    var selected := STORING.(state := Selected, reader := Idle);
    assert Apply(STORING, StoreState) == selected;
    Reach(System(ASKED, STORING), PassiveDoes(StoreState));
    assert Apply(selected, Post(EVENT)) == ANSWERED;
    Reach(System(ASKED, selected), PassiveDoes(Post(EVENT)));
  }

  const HOLDING: Endpoint := ASKED.(
    waiters := [Waiter(REQ, Waiting, Some(RSP))], arrivals := [Arrival(RSP, true, Disconnected, Some(ToWaiter(0)))])

  lemma AnswerIsDelivered()
    ensures Reachable(System(HOLDING, ANSWERED))
  {
    PassiveAnswers();
    var a1 := ASKED.(arrivals := [Arrival(RSP, false, Disconnected, None)], reader := Took);
    Reach(System(ASKED, ANSWERED), ActiveDoes(Receive(RSP, false)));
    assert Apply(ASKED, Receive(RSP, false)) == a1;
    var a2 := a1.(arrivals := [Arrival(RSP, true, Disconnected, None)], reader := Matched(0));
    Reach(System(a1, ANSWERED), ActiveDoes(Lookup));
    assert Apply(a1, Lookup) == a2;
    Reach(System(a2, ANSWERED), ActiveDoes(Deliver));
    assert Apply(a2, Deliver) == HOLDING;
  }

  /** The guarantee is not empty: in a calm run Select does return nil, having written one message. */
  lemma SelectCanReturn()
    ensures exists a: Endpoint :: Reachable(System(a, ANSWERED)) && a.state == Selected && a.selectReturn == Some(1)
  {
    AnswerIsDelivered();
    var a1 := HOLDING.(waiters := [Waiter(REQ, Leaving(Answered(RSP)), None)]);
    assert Apply(HOLDING, TakeAnswer(0)) == a1;
    Reach(System(HOLDING, ANSWERED), ActiveDoes(TakeAnswer(0)));
    var a2 := a1.(waiters := [Waiter(REQ, Returned(Answered(RSP)), None)], pending := map[]);
    assert Apply(a1, Unregister(0)) == a2;
    Reach(System(a1, ANSWERED), ActiveDoes(Unregister(0)));
    var a3 := a2.(state := Selected, selectReturn := Some(1));
    assert Apply(a2, FinishSelect(0)) == a3;
    Reach(System(a2, ANSWERED), ActiveDoes(FinishSelect(0)));
  }

  const DISPATCHING: Endpoint := HOLDING.(
    arrivals := HOLDING.arrivals + [Arrival(EVENT, false, Disconnected, None)], reader := Unmatched)

  lemma EventIsRead()
    ensures Reachable(System(DISPATCHING, ANSWERED))
  {
    AnswerIsDelivered();
    var a1 := DISPATCHING.(reader := Took);
    assert Apply(HOLDING, Receive(EVENT, false)) == a1;
    Reach(System(HOLDING, ANSWERED), ActiveDoes(Receive(EVENT, false)));
    assert Apply(a1, Lookup) == DISPATCHING;
    Reach(System(a1, ANSWERED), ActiveDoes(Lookup));
  }

  const REJECTING: Endpoint := HOLDING.(
    arrivals := HOLDING.arrivals + [Arrival(EVENT, false, Connected, Some(Refused))], reader := Rejecting)

  const REJECTED: Endpoint := REJECTING.(
    sent := [Sent(REQ, None), Sent(RejectReq(0, 7, DATA_MESSAGE, REASON_NOT_SELECTED), Some(1))], reader := Idle)

  /**
   * The guarantee is one-sided: the active end stores Selected on the caller's
   * goroutine, so its read loop can refuse a message that the passive end sent
   * after accepting the Select, in a run that nothing disturbs.
   */
  lemma PassiveCanBeRejected()
    ensures Reachable(System(REJECTED, ANSWERED)) && Rejected(REJECTED, 1) && ANSWERED.state == Selected
    ensures REJECTED.arrivals[1].message == ANSWERED.sent[1].message
  {
    EventIsRead();
    assert Apply(DISPATCHING, Dispatch) == REJECTING;
    Reach(System(DISPATCHING, ANSWERED), ActiveDoes(Dispatch));
    assert Apply(REJECTING, WriteReply(true)) == REJECTED;
    Reach(System(REJECTING, ANSWERED), ActiveDoes(WriteReply(true)));
    assert REJECTED.sent[1].cause == Some(1);
  }
}
