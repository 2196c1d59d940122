/**
 * The two sessions over byte links: a write appends a frame, the read loop
 * takes the oldest frame. Every run over bytes is a run of the two-session
 * system over messages, so what holds of those runs holds of these.
 */
module HsmsLink {
  import opened Bytes
  import opened HsmsMessage
  import opened HsmsSession
  import opened HsmsInbound
  import opened HsmsSelect

  /** `toActive` and `toPassive` are the bytes written and not read yet. */
  datatype Wired = Wired(system: System, toActive: seq<byte>, toPassive: seq<byte>)

  const NOTHING_SENT: Wired := Wired(BOTH_NEW, [], [])

  function Messages(sent: seq<Sent>): (ms: seq<Message>)
    ensures |ms| == |sent| && forall i | 0 <= i < |sent| :: ms[i] == sent[i].message
  {
    seq(|sent|, i requires 0 <= i < |sent| => sent[i].message)
  }

  /** What a session has written and its peer has not read. */
  function Unread(peer: Endpoint, me: Endpoint): seq<Message>
    requires |me.arrivals| <= |peer.sent|
  {
    Messages(peer.sent[|me.arrivals|..])
  }

  /** The messages a step writes: one or none. */
  function Writes(e: Endpoint, a: Action): seq<Message>
    requires Enabled(e, a)
  {
    if |Apply(e, a).sent| > |e.sent| then Messages(Apply(e, a).sent[|e.sent|..]) else []
  }

  /** Every message fits its frame, the receiver's size limit and the seven stream bits. */
  ghost predicate Carried(ms: seq<Message>, max: nat) {
    forall m | m in ms :: Sendable(m) && Deliverable(m, max)
  }

  /** The read loop gets the message its next frame holds. */
  predicate Reads(bytes: seq<byte>, a: Action, max: nat) {
    a.Receive? ==> ReadFrame(bytes, max).Got? && ReadFrame(bytes, max).message == a.message
  }

  function Left(bytes: seq<byte>, a: Action, max: nat): seq<byte>
    requires Reads(bytes, a, max)
  {
    if a.Receive? then ReadFrame(bytes, max).rest else bytes
  }

  ghost predicate WiredPossible(w: Wired, mv: Move, max: nat) {
    match mv
    case ActiveDoes(a) =>
      Enabled(w.system.active, a) && Reads(w.toActive, a, max) && Carried(Writes(w.system.active, a), max)
    case PassiveDoes(a) =>
      Enabled(w.system.passive, a) && Honest(a) && Reads(w.toPassive, a, max) && Carried(Writes(w.system.passive, a), max)
  }

  ghost function WiredNext(w: Wired, mv: Move, max: nat): Wired
    requires WiredPossible(w, mv, max)
  {
    match mv
    case ActiveDoes(a) =>
      Wired(w.system.(active := Apply(w.system.active, a)), Left(w.toActive, a, max),
            w.toPassive + FrameAll(Writes(w.system.active, a)))
    case PassiveDoes(a) =>
      Wired(w.system.(passive := Apply(w.system.passive, a)), w.toActive + FrameAll(Writes(w.system.passive, a)),
            Left(w.toPassive, a, max))
  }

  ghost predicate IsWiredRun(w: Wired, run: seq<Move>, max: nat)
    decreases run
  {
    run == [] || (WiredPossible(w, run[0], max) && IsWiredRun(WiredNext(w, run[0], max), run[1..], max))
  }

  ghost function WiredAfter(w: Wired, run: seq<Move>, max: nat): Wired
    requires IsWiredRun(w, run, max)
    decreases run
  {
    if run == [] then w else WiredAfter(WiredNext(w, run[0], max), run[1..], max)
  }

  /** One direction: the bytes in flight are the frames of the unread messages. */
  ghost predicate Framed(peer: Endpoint, me: Endpoint, bytes: seq<byte>, max: nat) {
    && |me.arrivals| <= |peer.sent|
    && Carried(Unread(peer, me), max)
    && bytes == FrameAll(Unread(peer, me))
  }

  ghost predicate Joined(w: Wired, max: nat) {
    Framed(w.system.passive, w.system.active, w.toActive, max) && Framed(w.system.active, w.system.passive, w.toPassive, max)
  }

  lemma {:induction false} FrameAllJoins(xs: seq<Message>, ys: seq<Message>)
    requires forall m | m in xs :: Sendable(m)
    requires forall m | m in ys :: Sendable(m)
    ensures FrameAll(xs + ys) == FrameAll(xs) + FrameAll(ys)
  {
    hide Frame, Sendable;
    if xs == [] {
      assert [] + ys == ys;
    } else {
      FrameAllJoins(xs[1..], ys);
      assert (xs + ys)[1..] == xs[1..] + ys;
    }
  }

  /** A step of the sender appends the frames of what it writes. */
  lemma SenderKeepsFramed(peer: Endpoint, me: Endpoint, bytes: seq<byte>, max: nat, a: Action)
    requires Framed(peer, me, bytes, max) && Enabled(peer, a) && Carried(Writes(peer, a), max)
    ensures Framed(Apply(peer, a), me, bytes + FrameAll(Writes(peer, a)), max)
  {
    HistoryGrows(peer, a);
    hide Apply, Enabled, FrameAll;
    var peer' := Apply(peer, a);
    var n := |me.arrivals|;
    assert peer'.sent == peer.sent + peer'.sent[|peer.sent|..];
    assert Unread(peer', me) == Unread(peer, me) + Writes(peer, a);
    FrameAllJoins(Unread(peer, me), Writes(peer, a));
  }

  /** The next frame of a link holds the oldest unread message, and there is one exactly when a message is unread. */
  lemma NextFrame(peer: Endpoint, me: Endpoint, bytes: seq<byte>, max: nat)
    requires Framed(peer, me, bytes, max)
    ensures ReadFrame(bytes, max).Got? <==> |me.arrivals| < |peer.sent|
    ensures |me.arrivals| < |peer.sent| ==>
              var u := Unread(peer, me);
              ReadFrame(bytes, max) == Got(peer.sent[|me.arrivals|].message, FrameAll(u[1..]))
  {
    var u := Unread(peer, me);
    if u == [] {
      assert ReadFrame([], max).ReadFailed?;
    } else {
      hide Frame, ReadFrame;
      assert u == [u[0]] + u[1..];
      ByteQueueIsMessageQueue(u[1..], u[0], max);
    }
  }

  /** A step of the receiver takes what it reads off the link, and reads what its peer wrote next. */
  lemma ReceiverKeepsFramed(peer: Endpoint, me: Endpoint, bytes: seq<byte>, max: nat, a: Action)
    requires Framed(peer, me, bytes, max) && Enabled(me, a) && Reads(bytes, a, max)
    ensures Linked(me, peer, a) && Framed(peer, Apply(me, a), Left(bytes, a, max), max)
  {
    NextFrame(peer, me, bytes, max);
    HistoryGrows(me, a);
    hide Apply, Enabled, FrameAll, ReadFrame;
    if a.Receive? {
      assert Unread(peer, Apply(me, a)) == Unread(peer, me)[1..];
    }
  }

  lemma JoinedStep(w: Wired, mv: Move, max: nat)
    requires Joined(w, max) && WiredPossible(w, mv, max)
    ensures Possible(w.system, mv) && WiredNext(w, mv, max).system == Next(w.system, mv) && Joined(WiredNext(w, mv, max), max)
  {
    hide Framed, Apply, Enabled, Linked, Carried, Reads, Left, Writes, FrameAll, Honest;
    match mv
    case ActiveDoes(a) =>
      SenderKeepsFramed(w.system.active, w.system.passive, w.toPassive, max, a);
      ReceiverKeepsFramed(w.system.passive, w.system.active, w.toActive, max, a);
    case PassiveDoes(a) =>
      SenderKeepsFramed(w.system.passive, w.system.active, w.toActive, max, a);
      ReceiverKeepsFramed(w.system.active, w.system.passive, w.toPassive, max, a);
  }

  /** Every run over bytes is, move by move, a run over messages, and the links hold the frames of what is unread. */
  lemma {:induction false} WiredRunsAreSystemRuns(w: Wired, run: seq<Move>, max: nat)
    requires Joined(w, max) && IsWiredRun(w, run, max)
    ensures IsSystemRun(w.system, run) && WiredAfter(w, run, max).system == SystemAfter(w.system, run)
    ensures Joined(WiredAfter(w, run, max), max)
    decreases run
  {
    hide Joined, Possible, Next, WiredPossible, WiredNext;
    if run != [] {
      JoinedStep(w, run[0], max);
      WiredRunsAreSystemRuns(WiredNext(w, run[0], max), run[1..], max);
    }
  }

  /** The Select guarantee over byte links. */
  lemma SelectGuaranteeOverBytes(before: seq<Move>, after: seq<Move>, max: nat, i: nat)
    requires IsWiredRun(NOTHING_SENT, before, max) && IsWiredRun(WiredAfter(NOTHING_SENT, before, max), after, max)
    requires
      var mid := WiredAfter(NOTHING_SENT, before, max).system;
      !WroteSuccess(mid.passive) && IsSystemRun(mid, after) && NeverDeselects(mid, after)
    ensures
      var s := WiredAfter(WiredAfter(NOTHING_SENT, before, max), after, max).system;
      s.active.selectReturn.Some? && s.active.selectReturn.value <= i ==> !Rejected(s.passive, i)
  {
    assert Joined(NOTHING_SENT, max);
    hide Joined, IsWiredRun, WiredAfter, IsSystemRun, SystemAfter, NeverDeselects, WroteSuccess, Rejected;
    WiredRunsAreSystemRuns(NOTHING_SENT, before, max);
    WiredRunsAreSystemRuns(WiredAfter(NOTHING_SENT, before, max), after, max);
    SelectGuarantee(before, after, i);
  }
}
