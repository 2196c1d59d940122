/** HSMS messages and their framing on a byte stream (pkg/transport/hsms/message.go and readMessage in session.go). */
module HsmsMessage {
  import opened Outcomes
  import opened Bytes

  const HEADER_LEN: nat := 10
  const MIN_MESSAGE_LEN: nat := 14
  const DEFAULT_MAX_MESSAGE_SIZE: nat := 16 * 1024 * 1024

  // Session types (byte 9 of the frame).
  const DATA_MESSAGE: byte := 0
  const SELECT_REQ: byte := 1
  const SELECT_RSP: byte := 2
  const DESELECT_REQ: byte := 3
  const DESELECT_RSP: byte := 4
  const LINKTEST_REQ: byte := 5
  const LINKTEST_RSP: byte := 6
  const REJECT_REQ: byte := 7
  const SEPARATE_REQ: byte := 9

  const SELECT_SUCCESS: byte := 0
  const SELECT_ALREADY_ACTIVE: byte := 1
  const REASON_NOT_SELECTED: byte := 4

  datatype Header = Header(
    sessionId: uint16, wbit: bool, stream: byte, function_: byte, ptype: byte, stype: byte, systemId: uint32)

  datatype Message = Message(header: Header, data: seq<byte>) {
    function SystemId(): uint32 {
      header.systemId
    }

    function SType(): byte {
      header.stype
    }
  }

  function Control(sessionId: uint16, stream: byte, function_: byte, stype: byte, systemId: uint32): Message {
    Message(Header(sessionId, false, stream, function_, 0, stype, systemId), [])
  }

  function SelectReq(sessionId: uint16, systemId: uint32): Message {
    Control(sessionId, 0, 0, SELECT_REQ, systemId)
  }

  function SelectRsp(sessionId: uint16, systemId: uint32, status: byte): Message {
    Control(sessionId, status, 0, SELECT_RSP, systemId)
  }

  function DeselectRsp(sessionId: uint16, systemId: uint32, status: byte): Message {
    Control(sessionId, status, 0, DESELECT_RSP, systemId)
  }

  function LinktestRsp(systemId: uint32): Message {
    Control(0xFFFF, 0, 0, LINKTEST_RSP, systemId)
  }

  function RejectReq(sessionId: uint16, systemId: uint32, offending: byte, reason: byte): Message {
    Control(sessionId, offending, reason, REJECT_REQ, systemId)
  }

  function DataMessage(sessionId: uint16, stream: byte, function_: byte, wbit: bool, systemId: uint32, data: seq<byte>)
    : Message
  {
    Message(Header(sessionId, wbit, stream, function_, 0, DATA_MESSAGE, systemId), data)
  }

  // ----- Frames -----

  /** Byte 6: wait bit in bit 7, stream in the lower seven. */
  function StreamByte(h: Header): byte {
    h.stream % 128 + if h.wbit then 128 else 0
  }

  function HeaderBytes(h: Header): (s: seq<byte>)
    ensures |s| == HEADER_LEN
  {
    BigEndian(2, h.sessionId) + [StreamByte(h), h.function_, h.ptype, h.stype] + BigEndian(4, h.systemId)
  }

  function ReadHeader(s: seq<byte>): Header
    requires |s| == HEADER_LEN
  {
    PowersOf256();
    Header(FromBigEndian(s[..2]), s[2] >= 128, s[2] % 128, s[3], s[4], s[5], FromBigEndian(s[6..]))
  }

  /** The four-byte length of a frame counts header and data but not itself. */
  predicate Sendable(m: Message) {
    4 + HEADER_LEN + |m.data| < 0x1_0000_0000
  }

  function Frame(m: Message): (s: seq<byte>)
    requires Sendable(m)
    ensures |s| == 4 + HEADER_LEN + |m.data|
  {
    BigEndian(4, HEADER_LEN + |m.data|) + HeaderBytes(m.header) + m.data
  }

  /** The message as the seven stream bits on the wire carry it. */
  function Masked(m: Message): Message {
    m.(header := m.header.(stream := m.header.stream % 128))
  }

  // The length field and the buffer size are 32-bit sums, which wrap around.

  function LengthField(m: Message): nat {
    (HEADER_LEN + |m.data|) % 0x1_0000_0000
  }

  function BufferSize(m: Message): nat {
    (4 + LengthField(m)) % 0x1_0000_0000
  }

  /** The buffer holds the header, so that no fixed position is out of range. */
  predicate Marshallable(m: Message) {
    BufferSize(m) >= MIN_MESSAGE_LEN
  }

  /** What `MarshalBinary` returns: a frame, its data cut to the buffer. */
  function Marshalled(m: Message): (s: seq<byte>)
    requires Marshallable(m)
  {
    BigEndian(4, LengthField(m)) + HeaderBytes(m.header) + m.data[..BufferSize(m) - MIN_MESSAGE_LEN]
  }

  /** `MarshalBinary`: fills the buffer position by position. */
  method MarshalBinary(m: Message) returns (buf: array<byte>)
    requires Marshallable(m)
    ensures buf[..] == Marshalled(m)
  {
    hide BigEndian, HeaderBytes;
    buf := new byte[BufferSize(m)](_ => 0);
    PutBigEndian(buf, 0, 4, LengthField(m));
    ghost var length := buf[..4];
    PutHeader(buf, m.header);
    assert buf[..4] == length;
    ghost var front := buf[..14];
    assert front == length + HeaderBytes(m.header);
    forall i | 14 <= i < buf.Length {
      buf[i] := m.data[i - 14];
    }
    assert buf[..14] == front && buf[14..] == m.data[..buf.Length - 14];
    assert buf[..] == buf[..14] + buf[14..];
  }

  method PutHeader(buf: array<byte>, h: Header)
    requires buf.Length >= MIN_MESSAGE_LEN
    modifies buf
    ensures buf[4..14] == HeaderBytes(h)
    ensures forall i | 0 <= i < buf.Length && !(4 <= i < 14) :: buf[i] == old(buf[i])
  {
    hide BigEndian;
    PutBigEndian(buf, 4, 2, h.sessionId);
    ghost var session := buf[4..6];
    var b6: byte := h.stream % 128;
    if h.wbit {
      b6 := b6 + 128;
    }
    buf[6] := b6;
    buf[7] := h.function_;
    buf[8] := h.ptype;
    buf[9] := h.stype;
    PutBigEndian(buf, 10, 4, h.systemId);
    assert buf[4..6] == session;
    assert buf[4..14] == buf[4..6] + [buf[6], buf[7], buf[8], buf[9]] + buf[10..14];
  }

  method PutBigEndian(buf: array<byte>, at: nat, width: nat, n: nat)
    requires at + width <= buf.Length
    modifies buf
    ensures buf[at..at + width] == BigEndian(width, n)
    ensures forall i | 0 <= i < buf.Length && !(at <= i < at + width) :: buf[i] == old(buf[i])
  {
    var s := BigEndian(width, n);
    forall i | 0 <= i < width {
      buf[at + i] := s[i];
    }
  }

  datatype FrameError = TooShort | LengthExceedsData | LengthTooSmall

  /** What `UnmarshalBinary` makes of the receiver `prev`: an empty body leaves the receiver's Data alone. */
  function Unframe(prev: Message, s: seq<byte>): (r: Result<Message, FrameError>) {
    if |s| < MIN_MESSAGE_LEN then Err(TooShort)
    else
      var n := FromBigEndian(s[..4]);
      if n + 4 > |s| then Err(LengthExceedsData)
      else if n < HEADER_LEN then Err(LengthTooSmall)
      else Ok(Message(ReadHeader(s[4..14]), if n > HEADER_LEN then s[14..4 + n] else prev.data))
  }

  const EMPTY_MESSAGE: Message := Message(Header(0, false, 0, 0, 0, 0, 0), [])

  // ----- Reading a stream -----

  datatype ReadError = Eof | UnexpectedEof | MessageTooSmall | MessageTooLarge | BadFrame(frame: FrameError)

  datatype ReadResult = Got(message: Message, rest: seq<byte>) | ReadFailed(error: ReadError)

  /** `maxMessageSize`: the configured limit, or 16 MiB. */
  function MaxMessageSize(configured: int): (n: nat)
    ensures n >= 1 && (configured > 0 ==> n == configured) && (configured <= 0 ==> n == DEFAULT_MAX_MESSAGE_SIZE)
  {
    if configured > 0 then configured else DEFAULT_MAX_MESSAGE_SIZE
  }

  /** What `readMessage` takes from the front of the bytes that have arrived. */
  function ReadFrame(s: seq<byte>, max: nat): (r: ReadResult)
    ensures r.Got? ==> |r.rest| + MIN_MESSAGE_LEN <= |s| && r.rest == s[|s| - |r.rest|..]
  {
    if |s| < 4 then ReadFailed(if s == [] then Eof else UnexpectedEof)
    else
      var n := FromBigEndian(s[..4]);
      if n < HEADER_LEN then ReadFailed(MessageTooSmall)
      else if n > max then ReadFailed(MessageTooLarge)
      else if 4 + n > |s| then ReadFailed(if |s| == 4 then Eof else UnexpectedEof)
      else
        match Unframe(EMPTY_MESSAGE, s[..4 + n])
        case Err(e) => ReadFailed(BadFrame(e))
        case Ok(m) => Got(m, s[4 + n..])
  }

  /** The receiving end of a connection: bytes that have arrived and were not read yet, then end of file. */
  class Connection {
    var incoming: seq<byte>

    constructor (arrived: seq<byte>)
      ensures incoming == arrived
    {
      incoming := arrived;
    }

    /** `io.ReadFull` of n bytes. */
    method ReadFull(n: nat) returns (r: Result<seq<byte>, ReadError>)
      modifies this
      ensures n <= |old(incoming)| ==> r == Ok(old(incoming)[..n]) && incoming == old(incoming)[n..]
      ensures n > |old(incoming)| ==> r == Err(if old(incoming) == [] then Eof else UnexpectedEof)
    {
      if n > |incoming| {
        r := Err(if incoming == [] then Eof else UnexpectedEof);
        incoming := [];
        return;
      }
      r := Ok(incoming[..n]);
      incoming := incoming[n..];
    }

    method ReadMessage(max: nat) returns (r: Result<Message, ReadError>)
      modifies this
      ensures match ReadFrame(old(incoming), max)
        case Got(m, rest) => r == Ok(m) && incoming == rest
        case ReadFailed(e) => r == Err(e)
    {
      var lenBuf := ReadFull(4);
      if lenBuf.Err? {
        return Err(lenBuf.error);
      }
      var msgLen := FromBigEndian(lenBuf.value);
      if msgLen < HEADER_LEN {
        return Err(MessageTooSmall);
      }
      if msgLen > max {
        return Err(MessageTooLarge);
      }
      var body := ReadFull(msgLen);
      if body.Err? {
        return Err(body.error);
      }
      assert lenBuf.value + body.value == old(incoming)[..4 + msgLen];
      var m := Unframe(EMPTY_MESSAGE, lenBuf.value + body.value);
      r := match m case Ok(x) => Ok(x) case Err(e) => Err(BadFrame(e));
    }
  }

  // ----- Round trip -----

  /** The ten header bytes are read back up to the seven stream bits; exactly then the header survives. */
  lemma HeaderReadBack(h: Header)
    ensures ReadHeader(HeaderBytes(h)) == h.(stream := h.stream % 128)
    ensures ReadHeader(HeaderBytes(h)) == h <==> h.stream < 128
  {
    hide BigEndian, FromBigEndian, Pow256;
    PowersOf256();
    var s := HeaderBytes(h);
    assert s[..2] == BigEndian(2, h.sessionId) && s[6..] == BigEndian(4, h.systemId);
    ReadBack(2, h.sessionId);
    ReadBack(4, h.systemId);
  }

  /** `UnmarshalBinary` into an empty message inverts `MarshalBinary`, whatever follows the frame. */
  lemma UnframeFrame(m: Message, rest: seq<byte>)
    requires Sendable(m)
    ensures Unframe(EMPTY_MESSAGE, Frame(m) + rest) == Ok(Masked(m))
  {
    PowersOf256();
    var s, n := Frame(m) + rest, HEADER_LEN + |m.data|;
    assert s[..4] == BigEndian(4, n) && s[4..14] == HeaderBytes(m.header) && s[14..4 + n] == m.data;
    ReadBack(4, n);
    HeaderReadBack(m.header);
  }

  lemma MarshalledIsFrame(m: Message)
    requires Marshallable(m)
    ensures Sendable(m) ==> Marshalled(m) == Frame(m)
    ensures !Sendable(m) ==> BufferSize(m) - MIN_MESSAGE_LEN < |m.data|
  {
    if Sendable(m) {
      assert m.data[..|m.data|] == m.data;
    }
  }

  /** A marshalled message is recovered, up to the seven stream bits, if and only if its length does not wrap around. */
  lemma MarshalReadBack(m: Message)
    requires Marshallable(m)
    ensures Unframe(EMPTY_MESSAGE, Marshalled(m)) == Ok(Masked(m)) <==> Sendable(m)
  {
    hide HeaderBytes, ReadHeader, Frame;
    MarshalledIsFrame(m);
    if Sendable(m) {
      UnframeFrame(m, []);
      assert Frame(m) + [] == Frame(m);
    } else {
      var s := Marshalled(m);
      assert |s| == BufferSize(m) < MIN_MESSAGE_LEN + |m.data|;
    }
  }

  /** A frame at the front of the stream is taken whole, exactly when it is within the size limit. */
  lemma ReadFrameBack(m: Message, rest: seq<byte>, max: nat)
    requires Sendable(m)
    ensures ReadFrame(Frame(m) + rest, max) ==
            if HEADER_LEN + |m.data| <= max then Got(Masked(m), rest) else ReadFailed(MessageTooLarge)
  {
    PowersOf256();
    var s, n := Frame(m) + rest, HEADER_LEN + |m.data|;
    assert s[..4] == BigEndian(4, n);
    ReadBack(4, n);
    assert s[..4 + n] == Frame(m) + [] && s[4 + n..] == rest;
    UnframeFrame(m, []);
  }

  function FrameAll(ms: seq<Message>): seq<byte>
    requires forall m | m in ms :: Sendable(m)
  {
    if ms == [] then [] else Frame(ms[0]) + FrameAll(ms[1..])
  }

  /** Everything the read loop takes from a stream, and the error that ends it. */
  function ReadAll(s: seq<byte>, max: nat): (seq<Message>, ReadError)
    decreases |s|
  {
    match ReadFrame(s, max)
    case ReadFailed(e) => ([], e)
    case Got(m, rest) => var (ms, e) := ReadAll(rest, max); ([m] + ms, e)
  }

  /** Seven stream bits are enough and the receiver's size limit is kept. */
  predicate Deliverable(m: Message, max: nat) {
    m.header.stream < 128 && HEADER_LEN + |m.data| <= max
  }

  /** Any list of messages within the limit is recovered from the concatenated frames, with no byte left over. */
  lemma {:induction false} StreamReadBack(ms: seq<Message>, max: nat)
    requires forall m | m in ms :: Sendable(m) && Deliverable(m, max)
    ensures ReadAll(FrameAll(ms), max) == (ms, Eof)
  {
    if ms == [] {
      assert ReadFrame([], max) == ReadFailed(Eof);
    } else {
      hide Frame, ReadFrame;
      ReadFrameBack(ms[0], FrameAll(ms[1..]), max);
      StreamReadBack(ms[1..], max);
      assert Masked(ms[0]) == ms[0] && ms == [ms[0]] + ms[1..];
    }
  }

  lemma {:induction false} FrameAllAppends(ms: seq<Message>, m: Message)
    requires Sendable(m) && forall x | x in ms :: Sendable(x)
    ensures FrameAll(ms + [m]) == FrameAll(ms) + Frame(m)
  {
    hide Frame;
    if ms == [] {
      assert [] + [m] == [m] && [m][1..] == [];
    } else {
      FrameAllAppends(ms[1..], m);
      assert (ms + [m])[1..] == ms[1..] + [m];
    }
  }

  /** A FIFO of bytes implements a FIFO of messages: a write appends one frame, a read takes the oldest message. */
  lemma ByteQueueIsMessageQueue(ms: seq<Message>, m: Message, max: nat)
    requires Sendable(m) && Deliverable(m, max) && forall x | x in ms :: Sendable(x) && Deliverable(x, max)
    ensures FrameAll(ms + [m]) == FrameAll(ms) + Frame(m)
    ensures ReadFrame(FrameAll([m] + ms), max) == Got(m, FrameAll(ms))
  {
    hide Frame, ReadFrame;
    FrameAllAppends(ms, m);
    assert ([m] + ms)[1..] == ms;
    ReadFrameBack(m, FrameAll(ms), max);
    assert Masked(m) == m;
  }
}
