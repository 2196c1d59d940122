/** The SECS-II decoder (pkg/message/secs2/decode.go): a parser of byte strings and the methods that walk them by offset. */
module Secs2Decode {
  import opened Outcomes
  import opened Bytes
  import opened Secs2Item

  datatype DecodeError =
    | EndOfData
    | NoLengthBytes
    | ShortLength
    | ShortPayload
    | UnevenPayload
    | UnsupportedFormat
    | TrailingData

  /** A value and the number of bytes it took, or the error that stopped the parse. */
  datatype Parsed<+T> = Parsed(value: T, used: nat) | Failed(error: DecodeError)

  /** The value of a bit pattern: Go's conversion from the unsigned type of the same width. */
  function Value(k: NumKind, u: nat): (v: int)
    requires u < Pow256(Width(k))
    ensures InRange(k, v)
  {
    PowersOf256();
    if Signed(k) && u >= Pow256(Width(k)) / 2 then u - Pow256(Width(k)) else u
  }

  function ReadElement(k: NumKind, s: seq<byte>): (v: int)
    requires |s| == Width(k)
    ensures InRange(k, v)
  {
    Value(k, FromBigEndian(s))
  }

  function ReadFlags(s: seq<byte>): (flags: seq<bool>)
    ensures |flags| == |s|
  {
    if s == [] then [] else [s[0] != 0] + ReadFlags(s[1..])
  }

  lemma WholeElements(n: nat, w: nat)
    requires w in {1, 2, 4, 8} && 0 < n && n % w == 0
    ensures w <= n && (n - w) % w == 0
  {
  }

  function ReadNumbers(k: NumKind, s: seq<byte>): (values: seq<int>)
    requires |s| % Width(k) == 0
    ensures Width(k) * |values| == |s|
    ensures forall v | v in values :: InRange(k, v)
  {
    if s == [] then []
    else
      WholeElements(|s|, Width(k));
      [ReadElement(k, s[..Width(k)])] + ReadNumbers(k, s[Width(k)..])
  }

  /** The format and the length announced at the front of s. */
  function ParseHeader(s: seq<byte>): (r: Parsed<(Format, nat)>)
    ensures r.Parsed? ==> 2 <= r.used <= |s| && r.value.1 <= MAX_LENGTH && !r.value.0.Jis8Format?
  {
    if s == [] then Failed(EndOfData)
    else
      var k := s[0] % 4;
      if k == 0 then Failed(NoLengthBytes)
      else if 1 + k > |s| then Failed(ShortLength)
      else
        PowersOf256();
        var f := FormatOf(s[0] - k);
        if f.None? || f.value.Jis8Format? then Failed(UnsupportedFormat)
        else Parsed((f.value, FromBigEndian(s[1..1 + k])), 1 + k)
  }

  /** The leaf item of format f at the front of s, given its payload length. */
  function ParseLeaf(f: Format, s: seq<byte>, n: nat): (r: Parsed<Item>)
    requires !f.ListFormat? && !f.Jis8Format?
    ensures r.Parsed? ==> r.used == n <= |s| && r.value.ItemFormat() == f
  {
    if f.NumFormat? && n % Width(f.num) != 0 then Failed(UnevenPayload)
    else if n > |s| then Failed(ShortPayload)
    else
      match f
      case TextFormat(k) => Parsed(TextItem(k, if n > 0 then Some(s[..n]) else None), n)
      case BooleanFormat => Parsed(BoolItem(ReadFlags(s[..n])), n)
      case NumFormat(k) => Parsed(NumItem(k, ReadNumbers(k, s[..n])), n)
  }

  /** The item at the front of s. */
  function Parse(s: seq<byte>): (r: Parsed<Item>)
    ensures r.Parsed? ==> 2 <= r.used <= |s|
    decreases |s|, 0
  {
    match ParseHeader(s)
    case Failed(e) => Failed(e)
    case Parsed((f, n), h) =>
      if f.ListFormat? then
        match ParseList(s[h..], n)
        case Failed(e) => Failed(e)
        case Parsed(items, used) => Parsed(ListItem(items), h + used)
      else
        match ParseLeaf(f, s[h..], n)
        case Failed(e) => Failed(e)
        case Parsed(item, used) => Parsed(item, h + used)
  }

  /** `count` items at the front of s. */
  function ParseList(s: seq<byte>, count: nat): (r: Parsed<seq<Item>>)
    ensures r.Parsed? ==> r.used <= |s| && |r.value| == count
    decreases |s|, 1, count
  {
    if count == 0 then Parsed([], 0)
    else
      match Parse(s)
      case Failed(e) => Failed(e)
      case Parsed(item, used) =>
        match ParseList(s[used..], count - 1)
        case Failed(e) => Failed(e)
        case Parsed(items, more) => Parsed([item] + items, used + more)
  }

  /** What `Decode` answers for a whole message body. */
  function Decoded(data: seq<byte>): (r: Result<Item, DecodeError>) {
    match Parse(data)
    case Failed(e) => Err(e)
    case Parsed(item, used) => if used == |data| then Ok(item) else Err(TrailingData)
  }

  /** What is left of data at an offset; nothing when the offset is past the end. */
  function From(data: seq<byte>, offset: nat): seq<byte> {
    if offset <= |data| then data[offset..] else []
  }

  /** The relation between an offset walk and the parse of the remaining bytes. */
  ghost predicate Walks<T(!new)>(p: Parsed<T>, r: Result<T, DecodeError>, offset: nat, next: nat) {
    match p
    case Failed(e) => r == Err(e)
    case Parsed(v, used) => r == Ok(v) && next == offset + used
  }

  method Decode(data: seq<byte>) returns (r: Result<Item, DecodeError>)
    ensures r == Decoded(data)
  {
    assert From(data, 0) == data;
    var item, n := DecodeItem(data, 0);
    if item.Err? {
      return item;
    }
    if n != |data| {
      return Err(TrailingData);
    }
    r := item;
  }

  /** The items that fill data from front to back. */
  function ParseMulti(data: seq<byte>): (r: Result<seq<Item>, DecodeError>)
    decreases |data|
  {
    if data == [] then Ok([])
    else
      match Parse(data)
      case Failed(e) => Err(e)
      case Parsed(item, used) =>
        match ParseMulti(data[used..])
        case Err(e) => Err(e)
        case Ok(items) => Ok([item] + items)
  }

  /** `whole` is `items` in front of what the rest parses to. */
  ghost predicate MultiContinues(whole: Result<seq<Item>, DecodeError>, items: seq<Item>, rest: seq<byte>) {
    whole == match ParseMulti(rest) case Err(e) => Err(e) case Ok(more) => Ok(items + more)
  }

  lemma MultiShift(whole: Result<seq<Item>, DecodeError>, items: seq<Item>, rest: seq<byte>)
    requires MultiContinues(whole, items, rest)
    ensures rest == [] ==> whole == Ok(items)
    ensures rest != [] && Parse(rest).Failed? ==> whole == Err(Parse(rest).error)
    ensures rest != [] && Parse(rest).Parsed? ==>
              MultiContinues(whole, items + [Parse(rest).value], rest[Parse(rest).used..])
  {
    assert items + [] == items;
    if rest != [] && Parse(rest).Parsed? {
      var item, more := Parse(rest).value, ParseMulti(rest[Parse(rest).used..]);
      assert more.Ok? ==> items + ([item] + more.value) == items + [item] + more.value;
    }
  }

  method DecodeMulti(data: seq<byte>) returns (r: Result<seq<Item>, DecodeError>)
    ensures r == ParseMulti(data)
  {
    hide Parse, ParseMulti;
    var items: seq<Item> := [];
    var offset := 0;
    ghost var whole := ParseMulti(data);
    assert whole.Ok? ==> [] + whole.value == whole.value;
    while offset < |data|
      invariant offset <= |data|
      invariant MultiContinues(whole, items, data[offset..])
    {
      MultiShift(whole, items, data[offset..]);
      var item, n := DecodeItem(data, offset);
      if item.Err? {
        return Err(item.error);
      }
      assert data[offset..][n - offset..] == data[n..];
      items := items + [item.value];
      offset := n;
    }
    MultiShift(whole, items, data[offset..]);
    r := Ok(items);
  }

  /** `decodeItem`: never reads outside data, and a success moves the offset by at least two bytes. */
  method DecodeItem(data: seq<byte>, offset: nat) returns (r: Result<Item, DecodeError>, next: nat)
    ensures Walks(Parse(From(data, offset)), r, offset, next)
    ensures r.Ok? ==> offset + 2 <= next <= |data|
    decreases |From(data, offset)|, 0
  {
    hide ParseHeader, ParseList, ParseLeaf;
    var head;
    head, next := DecodeHeader(data, offset);
    if head.Err? {
      return Err(head.error), next;
    }
    var (f, dataLen) := head.value;
    assert data[next..] == From(data, offset)[next - offset..];
    if f.ListFormat? {
      var items;
      items, next := DecodeList(data, next, dataLen);
      r := match items case Err(e) => Err(e) case Ok(xs) => Ok(ListItem(xs));
    } else {
      r, next := DecodeLeaf(f, data, next, dataLen);
    }
  }

  /** The format byte and the length bytes of `decodeItem`. */
  method DecodeHeader(data: seq<byte>, offset: nat) returns (r: Result<(Format, nat), DecodeError>, next: nat)
    ensures Walks(ParseHeader(From(data, offset)), r, offset, next)
    ensures r.Ok? ==> offset + 2 <= next <= |data|
  {
    next := offset;
    if offset >= |data| {
      return Err(EndOfData), next;
    }
    var numLenBytes := data[offset] % 4;
    var code := data[offset] - numLenBytes;
    next := offset + 1;
    if numLenBytes == 0 {
      return Err(NoLengthBytes), next;
    }
    if next + numLenBytes > |data| {
      return Err(ShortLength), next;
    }
    assert data[next..next + numLenBytes] == From(data, offset)[1..1 + numLenBytes];
    var dataLen := FromBigEndian(data[next..next + numLenBytes]);
    next := next + numLenBytes;
    var f := FormatOf(code);
    if f.None? || f.value.Jis8Format? {
      return Err(UnsupportedFormat), next;
    }
    r := Ok((f.value, dataLen));
  }

  /** `whole` is `items` in front of what the rest parses to. */
  ghost predicate Continues(whole: Parsed<seq<Item>>, items: seq<Item>, done: nat, rest: Parsed<seq<Item>>) {
    whole == match rest case Failed(e) => Failed(e) case Parsed(more, used) => Parsed(items + more, done + used)
  }

  lemma Shift(s: seq<byte>, total: nat, rest: seq<byte>, count: nat, items: seq<Item>, done: nat, item: Item, used: nat)
    requires Continues(ParseList(s, total), items, done, ParseList(rest, count))
    requires count > 0 && Parse(rest) == Parsed(item, used)
    ensures Continues(ParseList(s, total), items + [item], done + used, ParseList(rest[used..], count - 1))
  {
    var p := ParseList(rest[used..], count - 1);
    if p.Parsed? {
      assert items + ([item] + p.value) == items + [item] + p.value;
    }
  }

  lemma Ends(s: seq<byte>, count: nat)
    ensures count == 0 ==> ParseList(s, count) == Parsed([], 0)
    ensures count > 0 && Parse(s).Failed? ==> ParseList(s, count) == Failed(Parse(s).error)
  {
  }

  method DecodeList(data: seq<byte>, offset: nat, count: nat) returns (r: Result<seq<Item>, DecodeError>, next: nat)
    requires offset <= |data|
    ensures Walks(ParseList(data[offset..], count), r, offset, next)
    ensures r.Ok? ==> offset <= next <= |data|
    decreases |data| - offset, 1
  {
    hide Parse, ParseList;
    var items: seq<Item> := [];
    next := offset;
    ghost var whole := ParseList(data[offset..], count);
    assert whole.Parsed? ==> items + whole.value == whole.value;
    for i := 0 to count
      invariant offset <= next <= |data|
      invariant Continues(whole, items, next - offset, ParseList(data[next..], count - i))
    {
      var child, n := DecodeItem(data, next);
      if child.Err? {
        Ends(data[next..], count - i);
        return Err(child.error), n;
      }
      Shift(data[offset..], count, data[next..], count - i, items, next - offset, child.value, n - next);
      assert data[next..][n - next..] == data[n..];
      items := items + [child.value];
      next := n;
    }
    Ends(data[next..], 0);
    assert items + [] == items;
    r := Ok(items);
  }

  /** The leaf decoders: one method for the thirteen, which differ in width, sign and payload type. */
  method DecodeLeaf(f: Format, data: seq<byte>, offset: nat, dataLen: nat)
    returns (r: Result<Item, DecodeError>, next: nat)
    requires !f.ListFormat? && !f.Jis8Format? && offset <= |data|
    ensures Walks(ParseLeaf(f, data[offset..], dataLen), r, offset, next)
    ensures r.Ok? ==> next == offset + dataLen <= |data|
  {
    next := offset;
    if f.NumFormat? && dataLen % Width(f.num) != 0 {
      return Err(UnevenPayload), next;
    }
    if offset + dataLen > |data| {
      return Err(ShortPayload), next;
    }
    var payload := data[offset..offset + dataLen];
    assert payload == data[offset..][..dataLen];
    next := offset + dataLen;
    match f
    case TextFormat(k) =>
      r := Ok(TextItem(k, if dataLen > 0 then Some(payload) else None));
    case BooleanFormat =>
      var flags: seq<bool> := [];
      for i := 0 to dataLen
        invariant flags + ReadFlags(payload[i..]) == ReadFlags(payload)
      {
        assert payload[i..][1..] == payload[i + 1..];
        flags := flags + [payload[i] != 0];
      }
      assert flags + [] == flags;
      r := Ok(BoolItem(flags));
    case NumFormat(k) =>
      var values := DecodeNumbers(k, payload);
      r := Ok(NumItem(k, values));
  }

  /** The first element and the others. */
  lemma ReadFirstNumber(k: NumKind, e: seq<byte>, rest: seq<byte>)
    requires |e| == Width(k) && |rest| % Width(k) == 0
    ensures |e + rest| % Width(k) == 0
    ensures ReadNumbers(k, e + rest) == [ReadElement(k, e)] + ReadNumbers(k, rest)
  {
    hide ReadElement, InRange;
    OneElementMore(|rest|, Width(k));
    assert (e + rest)[..Width(k)] == e && (e + rest)[Width(k)..] == rest;
  }

  lemma OneElementMore(n: nat, w: nat)
    requires w in {1, 2, 4, 8} && n % w == 0
    ensures (w + n) % w == 0
  {
  }

  lemma ReadNumbersStep(k: NumKind, payload: seq<byte>, at: nat, values: seq<int>)
    requires at < |payload| && |payload[at..]| % Width(k) == 0
    ensures at + Width(k) <= |payload| && |payload[at + Width(k)..]| % Width(k) == 0
    ensures values + ReadNumbers(k, payload[at..]) ==
            values + [ReadElement(k, payload[at..at + Width(k)])] + ReadNumbers(k, payload[at + Width(k)..])
  {
    hide ReadNumbers, ReadElement, InRange, Width;
    WholeElements(|payload| - at, Width(k));
    var e, rest := payload[at..at + Width(k)], payload[at + Width(k)..];
    assert payload[at..] == e + rest;
    ReadFirstNumber(k, e, rest);
  }

  lemma NoNumbers(k: NumKind, s: seq<byte>)
    requires s == []
    ensures ReadNumbers(k, s) == []
  {
  }

  method DecodeNumbers(k: NumKind, payload: seq<byte>) returns (values: seq<int>)
    requires |payload| % Width(k) == 0
    ensures values == ReadNumbers(k, payload)
  {
    hide ReadNumbers, ReadElement, InRange, Width;
    values := [];
    var at := 0;
    assert payload[0..] == payload;
    while at < |payload|
      invariant at <= |payload| && |payload[at..]| % Width(k) == 0
      invariant values + ReadNumbers(k, payload[at..]) == ReadNumbers(k, payload)
    {
      ReadNumbersStep(k, payload, at, values);
      values := values + [ReadElement(k, payload[at..at + Width(k)])];
      at := at + Width(k);
    }
    NoNumbers(k, payload[at..]);
    assert values + [] == values;
  }
}
