/** What is not sent (nanopb: pb_encode), and what numbers a field can hold. */
module PbPresence {
  import opened Keys
  import opened Coding
  import opened PbWire
  import opened PbFields
  import opened PbEncode

  // ----- numbers -----

  lemma {:induction false} WidthMeans(w: nat)
    requires WidthOk(w)
    ensures w in {8, 16, 32, 64} && Half(w) == TwoTo(w - 1) && 2 * Half(w) == TwoTo(w)
  {
    Powers();
  }

  /** A number of w bits, with or without a sign. */
  lemma {:induction false} RangeMeans(t: Scalar, n: int)
    requires ScalarOk(t)
    ensures match t
            case VARINT(w) => w > 0 && (InRange(t, n) <==> 0 <= n + TwoTo(w - 1) < TwoTo(w))
            case SVARINT(w) => w > 0 && (InRange(t, n) <==> 0 <= n + TwoTo(w - 1) < TwoTo(w))
            case UVARINT(w) => InRange(t, n) <==> 0 <= n < TwoTo(w)
            case BOOL => InRange(t, n) <==> n == 0 || n == 1
            case FIXED32 => InRange(t, n) <==> 0 <= n < TwoTo(32)
            case FIXED64 => InRange(t, n) <==> 0 <= n < TwoTo(64)
  {
    match t
    case VARINT(w) => WidthMeans(w);
    case SVARINT(w) => WidthMeans(w);
    case UVARINT(w) => WidthMeans(w);
    case BOOL =>
    case FIXED32 => Powers();
    case FIXED64 => Powers();
  }

  lemma {:induction false} Powers()
    ensures TwoTo(7) == 0x80 && TwoTo(8) == 0x100 && TwoTo(15) == 0x8000 && TwoTo(16) == 0x1_0000
    ensures TwoTo(31) == 0x8000_0000 && TwoTo(32) == MOD32
    ensures TwoTo(63) == 0x8000_0000_0000_0000 && TwoTo(64) == MOD64
  {
    SevenUp(0);
    SevenUp(8);
    assert TwoTo(8) == 2 * TwoTo(7) && TwoTo(16) == 2 * TwoTo(15);
    EightUp(16);
    EightUp(24);
    EightUp(32);
    EightUp(40);
    EightUp(48);
    EightUp(56);
    assert TwoTo(32) == 2 * TwoTo(31) && TwoTo(64) == 2 * TwoTo(63);
  }

  lemma {:induction false} EightUp(k: nat)
    ensures TwoTo(k + 8) == 0x100 * TwoTo(k)
  {
    SevenUp(k);
    assert TwoTo(k + 8) == 2 * TwoTo(k + 7);
  }

  // ----- presence -----

  lemma {:induction false} TagIsSent(tag: nat, wireType: nat)
    ensures TagWire(tag, wireType) != []
  {
  }

  lemma {:induction false} ItemsAreSent(f: Field, items: seq<Value>)
    requires ValuesOk(f.kind, items)
    ensures Unpacked(f, items) == [] <==> items == []
  {
    if items != [] {
      TagIsSent(f.tag, WireType(f.kind));
    }
  }

  /** An optional field is sent when its flag is set, an array when it has items, the arm of a union when it is on, a
      required field always, and a field without a flag unless it is zero. */
  lemma {:induction false} SentWhen(f: Field, c: Cell)
    requires CellOk(f, c)
    ensures FieldWire(f, c) != [] <==>
            match f.rule
            case Required => true
            case Singular => !IsZero(f.kind, c.value)
            case Optional => c.has
            case Repeated(_) => c.items != []
            case OneOf(_) => c.on
  {
    TagIsSent(f.tag, WireType(f.kind));
    TagIsSent(f.tag, LENGTH_DELIMITED);
    if f.rule.Repeated? {
      ItemsAreSent(f, c.items);
    }
  }

  lemma {:induction false} NothingIsSent(fields: seq<Field>, cells: seq<Cell>)
    requires CellsOk(fields, cells)
    ensures Wire(fields, cells) == [] <==> AllZero(fields, cells)
    decreases |fields|
  {
    if fields != [] {
      SentWhen(fields[0], cells[0]);
      NothingIsSent(fields[1..], cells[1..]);
    }
  }

  /** Zero is the number, the empty text or bytes, or a message that comes to nothing on the wire. */
  lemma {:induction false} ZeroMeans(kind: LType, v: Value)
    requires ValueOk(kind, v)
    ensures IsZero(kind, v) <==>
            match kind
            case Number(_) => v.n == 0
            case BytesUpTo(_) => v.data == []
            case Text(_) => v.data == []
            case FixedBytes(n) => v.data == []
            case Submessage(fields) => Wire(fields, v.cells) == []
  {
    if kind.Submessage? {
      NothingIsSent(kind.fields, v.cells);
    }
  }
}
