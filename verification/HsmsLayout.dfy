/** The frame and the control messages against SEMI E37's own terms: which byte holds what. */
module HsmsLayout {
  import opened Bytes
  import opened HsmsMessage

  lemma {:induction false} LastBytes(n: nat)
    ensures BigEndian(1, n) == [n % 0x100]
    ensures BigEndian(2, n) == [n / 0x100 % 0x100, n % 0x100]
    ensures BigEndian(4, n) == [n / 0x100_0000 % 0x100, n / 0x1_0000 % 0x100, n / 0x100 % 0x100, n % 0x100]
  {
    assert BigEndian(1, n) == BigEndian(0, n / 0x100) + [n % 0x100];
    assert BigEndian(1, n / 0x100) == BigEndian(0, n / 0x100 / 0x100) + [n / 0x100 % 0x100];
    assert BigEndian(2, n) == BigEndian(1, n / 0x100) + [n % 0x100];
    var m := n / 0x1_0000;
    assert n / 0x100 / 0x100 == m && m / 0x100 == n / 0x100_0000;
    assert BigEndian(1, m / 0x100) == BigEndian(0, m / 0x100 / 0x100) + [m / 0x100 % 0x100];
    assert BigEndian(2, m) == BigEndian(1, m / 0x100) + [m % 0x100];
    assert BigEndian(3, n / 0x100) == BigEndian(2, m) + [n / 0x100 % 0x100];
    assert BigEndian(4, n) == BigEndian(3, n / 0x100) + [n % 0x100];
  }

  /** Session ID, wait bit and stream, function, PType, SType, system bytes. */
  lemma HeaderLayout(h: Header)
    ensures
      var s := HeaderBytes(h);
      && s[0] == h.sessionId / 0x100 && s[1] == h.sessionId % 0x100
      && (s[2] >= 0x80 <==> h.wbit) && s[2] % 0x80 == h.stream % 0x80
      && s[3] == h.function_ && s[4] == h.ptype && s[5] == h.stype
      && s[6] == h.systemId / 0x100_0000 && s[7] == h.systemId / 0x1_0000 % 0x100
      && s[8] == h.systemId / 0x100 % 0x100 && s[9] == h.systemId % 0x100
  {
    LastBytes(h.sessionId);
    LastBytes(h.systemId);
    hide BigEndian;
  }

  /** Length of header and data, header, data. */
  lemma FrameLayout(m: Message)
    requires Sendable(m)
    ensures
      var s, n := Frame(m), 10 + |m.data|;
      && s[0] == n / 0x100_0000 && s[1] == n / 0x1_0000 % 0x100 && s[2] == n / 0x100 % 0x100 && s[3] == n % 0x100
      && s[4..14] == HeaderBytes(m.header) && s[14..] == m.data
  {
    LastBytes(10 + |m.data|);
    hide BigEndian, HeaderBytes;
  }

  /** The message has these header fields and no data. */
  predicate Is(m: Message, session: int, byte2: int, byte3: int, stype: int, system: int) {
    && m.header.sessionId == session && m.header.stream == byte2 && m.header.function_ == byte3 && !m.header.wbit
    && m.header.ptype == 0 && m.header.stype == stype && m.header.systemId == system && m.data == []
  }

  /** Header bytes 2 and 3, the session type and the system bytes of every control message that is sent. */
  lemma ControlMessages(session: uint16, id: uint32, status: byte, offending: byte, reason: byte)
    ensures Is(SelectReq(session, id), session, 0, 0, 1, id)
    ensures Is(SelectRsp(session, id, status), session, status, 0, 2, id)
    ensures Is(DeselectRsp(session, id, status), session, status, 0, 4, id)
    ensures Is(LinktestRsp(id), 0xFFFF, 0, 0, 6, id)
    ensures Is(RejectReq(session, id, offending, reason), session, offending, reason, 7, id)
    ensures DATA_MESSAGE == 0 && SELECT_REQ == 1 && DESELECT_REQ == 3 && LINKTEST_REQ == 5 && SEPARATE_REQ == 9
    ensures SELECT_SUCCESS == 0 && SELECT_ALREADY_ACTIVE == 1 && REASON_NOT_SELECTED == 4
  {
  }
}
