/** SECS-II items: format codes, the item tree and its accessors (pkg/message/secs2/format.go, item.go). */
module Secs2Item {
  import opened Outcomes
  import opened Bytes

  const MAX_LENGTH: nat := 0xFF_FFFF

  /** The two formats whose payload is one raw byte string. */
  datatype TextKind = Ascii | Binary

  /** The numeric formats. Floats are carried as their IEEE 754 bit patterns. */
  datatype NumKind = I1 | I2 | I4 | I8 | U1 | U2 | U4 | U8 | F4 | F8

  datatype Format = ListFormat | BooleanFormat | Jis8Format | TextFormat(text: TextKind) | NumFormat(num: NumKind)

  /** The format code as it stands in the upper six bits of the format byte. */
  function Code(f: Format): (c: byte)
    ensures c % 4 == 0
  {
    match f
    case ListFormat => 0x00
    case TextFormat(Binary) => 0x20
    case BooleanFormat => 0x24
    case TextFormat(Ascii) => 0x40
    case Jis8Format => 0x44
    case NumFormat(I8) => 0x60
    case NumFormat(I1) => 0x64
    case NumFormat(I2) => 0x68
    case NumFormat(I4) => 0x70
    case NumFormat(F8) => 0x80
    case NumFormat(F4) => 0x90
    case NumFormat(U8) => 0xA0
    case NumFormat(U1) => 0xA4
    case NumFormat(U2) => 0xA8
    case NumFormat(U4) => 0xB0
  }

  /** The format a code stands for, if it stands for one. */
  function FormatOf(code: byte): (f: Option<Format>)
    ensures f.Some? ==> Code(f.value) == code
  {
    if code == 0x00 then Some(ListFormat)
    else if code == 0x20 then Some(TextFormat(Binary))
    else if code == 0x24 then Some(BooleanFormat)
    else if code == 0x40 then Some(TextFormat(Ascii))
    else if code == 0x44 then Some(Jis8Format)
    else if code == 0x60 then Some(NumFormat(I8))
    else if code == 0x64 then Some(NumFormat(I1))
    else if code == 0x68 then Some(NumFormat(I2))
    else if code == 0x70 then Some(NumFormat(I4))
    else if code == 0x80 then Some(NumFormat(F8))
    else if code == 0x90 then Some(NumFormat(F4))
    else if code == 0xA0 then Some(NumFormat(U8))
    else if code == 0xA4 then Some(NumFormat(U1))
    else if code == 0xA8 then Some(NumFormat(U2))
    else if code == 0xB0 then Some(NumFormat(U4))
    else None
  }

  function Width(k: NumKind): (w: nat)
    ensures w in {1, 2, 4, 8}
  {
    match k
    case I1 | U1 => 1
    case I2 | U2 => 2
    case I4 | U4 | F4 => 4
    case I8 | U8 | F8 => 8
  }

  predicate Signed(k: NumKind) {
    k in {I1, I2, I4, I8}
  }

  /** The values the Go element type of the format can hold. */
  predicate InRange(k: NumKind, v: int) {
    if Signed(k) then -(Pow256(Width(k)) / 2) <= v < Pow256(Width(k)) / 2 else 0 <= v < Pow256(Width(k))
  }

  /**
   * An item and its `values` slots. An ASCII or Binary item has one slot holding
   * the whole string, or none: the constructors fill it even with an empty
   * string, the decoder leaves it out for an empty payload.
   */
  datatype Item =
    | ListItem(items: seq<Item>)
    | TextItem(text: TextKind, slot: Option<seq<byte>>)
    | BoolItem(flags: seq<bool>)
    | NumItem(num: NumKind, values: seq<int>)
  {
    function ItemFormat(): Format {
      match this
      case ListItem(_) => ListFormat
      case TextItem(k, _) => TextFormat(k)
      case BoolItem(_) => BooleanFormat
      case NumItem(k, _) => NumFormat(k)
    }

    /** The raw payload of a text item; empty without a slot. */
    function Content(): seq<byte>
      requires TextItem?
    {
      if slot.None? then [] else slot.value
    }

    function Len(): nat {
      match this
      case ListItem(items) => |items|
      case TextItem(_, _) => |Content()|
      case BoolItem(flags) => |flags|
      case NumItem(_, values) => |values|
    }

    function Items(): seq<Item> {
      if ListItem? then items else []
    }

    /**
     * `ToUint64s`: the type switch looks at the slots only, so every item
     * without slots converts to the empty slice whatever its format.
     */
    function ToUint64s(): Option<seq<int>> {
      match this
      case NumItem(k, values) => if values == [] || k in {U1, U2, U4, U8} then Some(values) else None
      case ListItem(items) => if items == [] then Some([]) else None
      case TextItem(_, slot) => if slot.None? then Some([]) else None
      case BoolItem(flags) => if flags == [] then Some([]) else None
    }

    function ToBooleans(): Option<seq<bool>> {
      if BoolItem? then Some(flags) else None
    }

    function ToText(k: TextKind): Option<seq<byte>> {
      if TextItem? && text == k then Some(Content()) else None
    }
  }

  /** What Go's static types guarantee of every item built by the constructors. */
  predicate Typed(item: Item) {
    match item
    case ListItem(items) => forall x | x in items :: Typed(x)
    case NumItem(k, values) => forall v | v in values :: InRange(k, v)
    case _ => true
  }

  /** Every list count and payload length in the tree fits the three length bytes. */
  predicate Fits(item: Item) {
    match item
    case ListItem(items) => |items| <= MAX_LENGTH && forall x | x in items :: Fits(x)
    case TextItem(_, _) => |item.Content()| <= MAX_LENGTH
    case BoolItem(flags) => |flags| <= MAX_LENGTH
    case NumItem(k, values) => Width(k) * |values| <= MAX_LENGTH
  }

  /** The item without empty text slots: what decoding its encoding gives back. */
  function Norm(item: Item): (n: Item)
    ensures n.ItemFormat() == item.ItemFormat() && n.Len() == item.Len()
    decreases item, 1
  {
    match item
    case ListItem(items) => ListItem(NormAll(items))
    case TextItem(k, slot) => if item.Content() == [] then TextItem(k, None) else item
    case _ => item
  }

  function NormAll(items: seq<Item>): (ns: seq<Item>)
    ensures |ns| == |items| && forall i | 0 <= i < |items| :: ns[i] == Norm(items[i])
    decreases items, 0
  {
    if items == [] then [] else [Norm(items[0])] + NormAll(items[1..])
  }

  /** Number of items in the tree. */
  function Nodes(item: Item): (n: nat)
    ensures n >= 1
    decreases item, 1
  {
    match item
    case ListItem(items) => 1 + NodesAll(items)
    case _ => 1
  }

  function NodesAll(items: seq<Item>): nat
    decreases items, 0
  {
    if items == [] then 0 else Nodes(items[0]) + NodesAll(items[1..])
  }
}
