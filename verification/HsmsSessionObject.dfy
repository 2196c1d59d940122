/** The session as the object the source declares: fields, and the message handlers that change them. */
module HsmsSessionObject {
  import opened Outcomes
  import opened Bytes
  import opened HsmsMessage
  import opened HsmsSession

  /** The steps after Dispatch, by where Dispatch left the read loop; `ok` says whether the write succeeds. */
  function Rest(r: Reader, ok: bool): seq<Action> {
    if r.Accepting? then [Enqueue]
    else if r.Replying() then
      [WriteReply(ok)] + if AfterReply(r, ok).Idle? then [] else [StoreState]
    else []
  }

  /** The steps of one uninterrupted handleMessage call. */
  function Handling(e: Endpoint, m: Message, ok: bool): seq<Action>
    requires e.reader.Idle?
  {
    var taken := Apply(e, Receive(m, false));
    [Receive(m, false), Lookup] +
    if m.SystemId() in e.pending then [Deliver]
    else [Dispatch] + Rest(Dispatched(taken.(reader := Unmatched)).reader, ok)
  }

  lemma OneStep(e: Endpoint, a: Action, run: seq<Action>)
    requires Enabled(e, a) && IsRun(Apply(e, a), run)
    ensures IsRun(e, [a] + run) && After(e, [a] + run) == After(Apply(e, a), run)
  {
  }

  class Session {
    var state: ConnState
    var nextSystemId: nat
    var pending: map<uint32, nat>
    var channels: seq<Waiter>
    var inbound: seq<Message>
    ghost var reader: Reader
    ghost var received: seq<Message>
    ghost var arrivals: seq<Arrival>
    ghost var sent: seq<Sent>
    ghost var selectReturn: Option<nat>

    ghost function View(): Endpoint
      reads this
    {
      Endpoint(state, nextSystemId, pending, channels, reader, inbound, received, arrivals, sent, selectReturn)
    }

    /** Every pending entry is a reply channel of this session. */
    ghost predicate Valid()
      reads this
    {
      forall id | id in pending :: pending[id] < |channels|
    }

    constructor ()
      ensures Valid() && View() == START
    {
      state, nextSystemId, pending, channels, inbound := Disconnected, 0, map[], [], [];
      reader, received, arrivals, sent, selectReturn := NotStarted, [], [], [], None;
    }

    // ----- The pieces of SendMessage, sendAndWait, Select and ReceiveMessage between which others may run -----

    /** Numbers the request if need be and enters its reply channel into the pending map. */
    method Register(m: Message) returns (w: nat)
      requires Valid()
      modifies this`nextSystemId, this`pending, this`channels
      ensures Valid() && w == |old(channels)| && View() == Apply(old(View()), HsmsSession.Register(m))
    {
      var q := m;
      if m.SystemId() == 0 {
        nextSystemId := nextSystemId + 1;
        q := m.(header := m.header.(systemId := nextSystemId % 0x1_0000_0000));
      }
      w := |channels|;
      channels := channels + [Waiter(q, Registered, None)];
      pending := pending[q.SystemId() := w];
    }

    method WriteRequest(w: nat, ok: bool)
      requires Valid() && Enabled(View(), HsmsSession.WriteRequest(w, ok))
      modifies this`channels, this`sent
      ensures Valid() && View() == Apply(old(View()), HsmsSession.WriteRequest(w, ok))
    {
      var x := channels[w];
      if !ok {
        channels := channels[w := x.(phase := Leaving(WriteFailed))];
        return;
      }
      channels := channels[w := x.(phase := Waiting)];
      sent := sent + [Sent(x.request, None)];
    }

    /** The select statement: a buffered reply, or the timer or the context, whichever `expired` lets win. */
    method Await(w: nat, expired: bool) returns (reply: Option<Message>)
      requires Valid() && w < |channels| && channels[w].phase.Waiting? && (expired || channels[w].slot.Some?)
      modifies this`channels
      ensures Valid() && reply == (if expired then None else old(channels)[w].slot)
      ensures View() == Apply(old(View()), if expired then GiveUp(w) else TakeAnswer(w))
    {
      var x := channels[w];
      if expired {
        channels := channels[w := x.(phase := Leaving(GaveUp))];
        return None;
      }
      reply := x.slot;
      channels := channels[w := x.(phase := Leaving(Answered(x.slot.value)), slot := None)];
    }

    /** The deferred delete. */
    method Unregister(w: nat)
      requires Valid() && Enabled(View(), HsmsSession.Unregister(w))
      modifies this`channels, this`pending
      ensures Valid() && View() == Apply(old(View()), HsmsSession.Unregister(w))
    {
      var x := channels[w];
      channels := channels[w := x.(phase := Returned(x.phase.outcome))];
      pending := pending - {x.Id()};
    }

    /** The end of `Select`: the checks on the reply, then the store. */
    method FinishSelect(w: nat) returns (ok: bool)
      requires w < |channels| && channels[w].request.SType() == SELECT_REQ
      requires channels[w].phase.Returned? && channels[w].phase.outcome.Answered?
      modifies this`state, this`selectReturn
      ensures ok == SelectSucceeded(channels[w])
      ensures View() == if ok then Apply(old(View()), HsmsSession.FinishSelect(w)) else old(View())
    {
      var rsp := channels[w].phase.outcome.message;
      if rsp.SType() != SELECT_RSP || rsp.header.stream != SELECT_SUCCESS {
        return false;
      }
      state := Selected;
      selectReturn := if selectReturn.None? then Some(|sent|) else selectReturn;
      ok := true;
    }

    /** Without a queued message the call waits until the context is done; with both ready, either may win. */
    method ReceiveMessage(cancelled: bool) returns (m: Option<Message>)
      requires cancelled || inbound != []
      modifies this`inbound, this`received
      ensures cancelled ==> m.None? && View() == old(View())
      ensures !cancelled ==> m == Some(old(inbound)[0]) && View() == Apply(old(View()), AppReceive)
    {
      if cancelled {
        return None;
      }
      m := Some(inbound[0]);
      received := received + [inbound[0]];
      inbound := inbound[1..];
    }

    /** `writeMessage` from the read loop; the network decides whether it succeeds. */
    method WriteMessage(m: Message, ok: bool)
      requires reader.Replying() && arrivals != [] && m == Reply(reader, View().Current().message)
      modifies this`sent, this`reader
      ensures View() == Apply(old(View()), WriteReply(ok))
    {
      if ok {
        sent := sent + [Sent(m, Some(|arrivals| - 1))];
      }
      reader := AfterReply(reader, ok);
    }

    /** The lock section at the top of `handleMessage`. */
    method FindPending(m: Message) returns (ch: Option<nat>)
      requires reader.Took? && arrivals != [] && View().Current().message == m
      modifies this`arrivals, this`reader
      ensures View() == Apply(old(View()), Lookup)
      ensures |arrivals| == |old(arrivals)| && View().Current().message == m
      ensures reader == if ch.Some? then Matched(ch.value) else Unmatched
      ensures ch == if m.SystemId() in pending then Some(pending[m.SystemId()]) else None
    {
      if m.SystemId() in pending {
        ch := Some(pending[m.SystemId()]);
        arrivals := View().WithCurrent(View().Current().(matched := true)).arrivals;
        reader := Matched(ch.value);
      } else {
        ch := None;
        reader := Unmatched;
      }
    }

    /** The non-blocking send to the reply channel. */
    method DeliverTo(w: nat, m: Message)
      requires reader == Matched(w) && w < |channels| && arrivals != [] && View().Current().message == m
      modifies this`arrivals, this`reader, this`channels
      ensures |channels| == |old(channels)| && View() == Apply(old(View()), Deliver)
    {
      if channels[w].slot.None? {
        channels := channels[w := channels[w].(slot := Some(m))];
        arrivals := View().WithFate(ToWaiter(w)).arrivals;
      } else {
        arrivals := View().WithFate(WaiterFull(w)).arrivals;
      }
      reader := Idle;
    }

    /** The data branch: Selected or Reject.req, then room in the queue or a drop. */
    method HandleData(m: Message, ok: bool)
      requires reader.Unmatched? && arrivals != [] && View().Current().message == m && m.SType() == DATA_MESSAGE
      modifies this`arrivals, this`reader, this`inbound, this`sent
      ensures var d := Dispatched(old(View()));
              View() == Apply(d, if d.reader.Accepting? then Enqueue else WriteReply(ok))
    {
      ghost var d := Dispatched(View());
      arrivals, reader := d.arrivals, d.reader;
      if state != Selected {
        WriteMessage(RejectReq(m.header.sessionId, m.SystemId(), DATA_MESSAGE, REASON_NOT_SELECTED), ok);
      } else {
        if |inbound| < INBOUND_CAPACITY {
          arrivals := View().WithFate(Queued).arrivals;
          inbound := inbound + [m];
        } else {
          arrivals := View().WithFate(QueueFull).arrivals;
        }
        reader := Idle;
      }
    }

    method HandleSelectReq(m: Message, ok: bool)
      requires reader.Unmatched? && arrivals != [] && View().Current().message == m && m.SType() == SELECT_REQ
      modifies this`arrivals, this`reader, this`sent, this`state
      ensures var w := Apply(Dispatched(old(View())), WriteReply(ok));
              View() == if w.reader.SelectStoring? then Apply(w, StoreState) else w
    {
      ghost var d := Dispatched(View());
      arrivals, reader := d.arrivals, d.reader;
      var status := SELECT_SUCCESS;
      if state == Selected {
        status := SELECT_ALREADY_ACTIVE;
      }
      WriteMessage(SelectRsp(m.header.sessionId, m.SystemId(), status), ok);
      if !ok {
        return;
      }
      if status == SELECT_SUCCESS {
        state := Selected;
        reader := Idle;
      }
    }

    method HandleDeselectReq(m: Message, ok: bool)
      requires reader.Unmatched? && arrivals != [] && View().Current().message == m && m.SType() == DESELECT_REQ
      modifies this`arrivals, this`reader, this`sent, this`state
      ensures var w := Apply(Dispatched(old(View())), WriteReply(ok));
              View() == if w.reader.DeselectStoring? then Apply(w, StoreState) else w
    {
      ghost var d := Dispatched(View());
      arrivals, reader := d.arrivals, d.reader;
      WriteMessage(DeselectRsp(m.header.sessionId, m.SystemId(), 0), ok);
      if !ok {
        return;
      }
      state := Connected;
      reader := Idle;
    }

    /** The switch of `handleMessage` for a message that no transaction waits for. */
    method HandleUnmatched(m: Message, ok: bool)
      requires reader.Unmatched? && arrivals != [] && View().Current().message == m
      modifies this`arrivals, this`reader, this`inbound, this`sent, this`state
      ensures Finished(Dispatched(old(View())), View(), ok)
    {
      ghost var d := Dispatched(View());
      DispatchReader(View());
      hide Apply, Dispatched, Reply;
      if m.SType() == DATA_MESSAGE {
        HandleData(m, ok);
      } else if m.SType() == SELECT_REQ {
        HandleSelectReq(m, ok);
        StoresOwn(d, ok);
      } else if m.SType() == DESELECT_REQ {
        HandleDeselectReq(m, ok);
        StoresOwn(d, ok);
      } else {
        arrivals, reader := d.arrivals, d.reader;
        if m.SType() == LINKTEST_REQ {
          assert Reply(d.reader, d.Current().message) == LinktestRsp(m.SystemId()) by { LinktestReply(m); }
          WriteMessage(LinktestRsp(m.SystemId()), ok);
          StoresOwn(d, ok);
        }
      }
    }

    /** `handleMessage`: run without interruption, it performs exactly its steps of the machine. */
    method HandleMessage(m: Message, ok: bool)
      requires Valid() && reader.Idle?
      modifies this
      ensures Valid()
      ensures IsRun(old(View()), Handling(old(View()), m, ok))
      ensures View() == After(old(View()), Handling(old(View()), m, ok))
    {
      ghost var e0 := View();
      arrivals := arrivals + [Arrival(m, false, Disconnected, None)];
      reader := Took;
      assert View() == Apply(e0, Receive(m, false));
      var ch := FindPending(m);
      ghost var e2 := View();
      hide Apply, Rest, IsRun, After, Dispatched, Finished;
      if ch.Some? {
        DeliverTo(ch.value, m);
        DeliverRuns(e2);
        Traced(e0, m, ok, e2, View(), [Deliver]);
      } else {
        HandleUnmatched(m, ok);
        ghost var d := Dispatched(e2);
        assert e2 == Apply(e0, Receive(m, false)).(reader := Unmatched);
        DispatchReader(e2);
        RestRuns(d, View(), ok);
        OneStep(e2, Dispatch, Rest(d.reader, ok));
        Traced(e0, m, ok, e2, View(), [Dispatch] + Rest(d.reader, ok));
      }
    }
  }

  lemma LinktestReply(m: Message)
    ensures Reply(LinktestReplying, m) == LinktestRsp(m.SystemId())
  {
  }

  /** e is d after its remaining steps. */
  predicate Finished(d: Endpoint, e: Endpoint, ok: bool) {
    && (d.reader.Accepting? ==> Enabled(d, Enqueue) && e == Apply(d, Enqueue))
    && (d.reader.Replying() ==>
          Enabled(d, WriteReply(ok)) &&
          var w := Apply(d, WriteReply(ok));
          e == if w.reader.SelectStoring? || w.reader.DeselectStoring? then Apply(w, StoreState) else w)
    && (!d.reader.Accepting? && !d.reader.Replying() ==> e == d)
  }

  lemma DeliverRuns(e: Endpoint)
    requires Enabled(e, Deliver)
    ensures IsRun(e, [Deliver]) && After(e, [Deliver]) == Apply(e, Deliver)
  {
  }

  /** Dispatch changes arrivals and the program counter only, and where it goes depends on the session type. */
  lemma DispatchReader(e: Endpoint)
    requires e.reader.Unmatched? && e.arrivals != []
    ensures Enabled(e, Dispatch) && Apply(e, Dispatch) == Dispatched(e)
    ensures var d := Dispatched(e);
            var t := e.Current().message.SType();
            && d == e.(arrivals := d.arrivals, reader := d.reader)
            && |d.arrivals| == |e.arrivals| && d.Current().message == e.Current().message
            && (d.reader.Accepting? || d.reader.Rejecting? <==> t == DATA_MESSAGE)
            && (d.reader.SelectReplying? <==> t == SELECT_REQ)
            && (d.reader.DeselectReplying? <==> t == DESELECT_REQ)
            && (d.reader.LinktestReplying? <==> t == LINKTEST_REQ)
  {
  }

  /** A write is followed by the store of the request it answers, or by none. */
  lemma StoresOwn(d: Endpoint, ok: bool)
    requires d.reader.Replying() && d.arrivals != []
    ensures Apply(d, WriteReply(ok)).reader == AfterReply(d.reader, ok)
  {
  }

  /** The final state after Dispatch is what its remaining steps lead to. */
  lemma RestRuns(d: Endpoint, e: Endpoint, ok: bool)
    requires Finished(d, e, ok)
    ensures IsRun(d, Rest(d.reader, ok)) && After(d, Rest(d.reader, ok)) == e
  {
    hide Apply, IsRun, After, Reply;
    NoSteps(e);
    if d.reader.Accepting? {
      OneStep(d, Enqueue, []);
      assert Rest(d.reader, ok) == [Enqueue] + [];
    } else if d.reader.Replying() {
      StoresOwn(d, ok);
      var w := Apply(d, WriteReply(ok));
      if w.reader.Idle? {
        OneStep(d, WriteReply(ok), []);
        assert Rest(d.reader, ok) == [WriteReply(ok)] + [];
      } else {
        OneStep(w, StoreState, []);
        OneStep(d, WriteReply(ok), [StoreState] + []);
        assert Rest(d.reader, ok) == [WriteReply(ok)] + ([StoreState] + []);
      }
    }
  }

  lemma NoSteps(e: Endpoint)
    ensures IsRun(e, []) && After(e, []) == e
  {
  }

  /** Reading and looking up come first. */
  lemma Traced(e0: Endpoint, m: Message, ok: bool, e2: Endpoint, e: Endpoint, run: seq<Action>)
    requires e0.reader.Idle?
    requires Enabled(Apply(e0, Receive(m, false)), Lookup) && e2 == Apply(Apply(e0, Receive(m, false)), Lookup)
    requires IsRun(e2, run) && After(e2, run) == e
    requires Handling(e0, m, ok) == [Receive(m, false), Lookup] + run
    ensures IsRun(e0, Handling(e0, m, ok)) && After(e0, Handling(e0, m, ok)) == e
  {
  }
}
