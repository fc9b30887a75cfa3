/** The encoder (nanopb: pb_encode): what a message looks like on the wire, and the two passes that write it. */
module PbEncode {
  import opened Keys
  import opened Coding
  import opened PbWire
  import opened PbFields

  const LENGTH_DELIMITED := 2

  function WireType(kind: LType): nat {
    match kind
    case Number(FIXED32) => 5
    case Number(FIXED64) => 1
    case Number(_) => 0
    case _ => LENGTH_DELIMITED
  }

  function TagWire(tag: nat, wireType: nat): Bytes {
    Varint(tag * 8 + wireType)
  }

  function NumberWire(t: Scalar, n: int): (b: Bytes)
    requires InRange(t, n)
  {
    match t
    case BOOL => Varint(n)
    case VARINT(_) => Varint(Unsigned(n))
    case UVARINT(_) => Varint(n)
    case SVARINT(_) => Varint(Zigzag(n))
    case FIXED32 => Fixed32(n)
    case FIXED64 => Fixed64(n)
  }

  function ValueWire(kind: LType, v: Value): Bytes
    requires ValueOk(kind, v)
    decreases TypeWeight(kind), 0
  {
    match kind
    case Number(t) => NumberWire(t, v.n)
    case Submessage(fields) => Prefixed(Wire(fields, v.cells))
    case _ => Prefixed(v.data)
  }

  /** A field with its tag. */
  function TaggedWire(f: Field, v: Value): Bytes
    requires ValueOk(f.kind, v)
    decreases TypeWeight(f.kind), 1
  {
    TagWire(f.tag, WireType(f.kind)) + ValueWire(f.kind, v)
  }

  /** The items of an array end to end. */
  function Packed(kind: LType, items: seq<Value>): Bytes
    requires ValuesOk(kind, items)
    decreases TypeWeight(kind), 1, |items|
  {
    if items == [] then [] else ValueWire(kind, items[0]) + Packed(kind, items[1..])
  }

  /** Each item with its own tag. */
  function Unpacked(f: Field, items: seq<Value>): Bytes
    requires ValuesOk(f.kind, items)
    decreases TypeWeight(f.kind), 2, |items|
  {
    if items == [] then [] else TaggedWire(f, items[0]) + Unpacked(f, items[1..])
  }

  function ArrayWire(f: Field, items: seq<Value>): Bytes
    requires ValuesOk(f.kind, items)
    decreases TypeWeight(f.kind), 3
  {
    if items == [] then []
    else if f.kind.Number? then TagWire(f.tag, LENGTH_DELIMITED) + Prefixed(Packed(f.kind, items))
    else Unpacked(f, items)
  }

  /** Whether a field that is no array is written at all. */
  predicate Present(f: Field, c: Cell)
    requires CellOk(f, c) && !f.rule.Repeated?
  {
    match f.rule
    case Required => true
    case Singular => !IsZero(f.kind, c.value)
    case Optional => c.has
    case OneOf(_) => c.on
  }

  function FieldWire(f: Field, c: Cell): Bytes
    requires CellOk(f, c)
    decreases TypeWeight(f.kind), 4
  {
    if f.rule.Repeated? then ArrayWire(f, c.items) else if Present(f, c) then TaggedWire(f, c.value) else []
  }

  function Wire(fields: seq<Field>, cells: seq<Cell>): Bytes
    requires CellsOk(fields, cells)
    decreases FieldsWeight(fields), 0
  {
    if fields == [] then [] else FieldWire(fields[0], cells[0]) + Wire(fields[1..], cells[1..])
  }

  // ----- the encoder's own checks -----

  /** Arrays and byte strings claim no more than their room. */
  predicate ValueSound(kind: LType, v: Value)
    requires ValueOk(kind, v)
    decreases TypeWeight(kind), 0
  {
    match kind
    case BytesUpTo(max) => |v.data| <= max
    case Submessage(fields) => Sound(fields, v.cells)
    case _ => true
  }

  predicate ItemsSound(kind: LType, items: seq<Value>)
    requires ValuesOk(kind, items)
    decreases TypeWeight(kind), 1, |items|
  {
    items == [] || (ValueSound(kind, items[0]) && ItemsSound(kind, items[1..]))
  }

  predicate FieldSound(f: Field, c: Cell)
    requires CellOk(f, c)
    decreases TypeWeight(f.kind), 4
  {
    if f.rule.Repeated? then |c.items| <= f.rule.max && ItemsSound(f.kind, c.items)
    else Present(f, c) ==> ValueSound(f.kind, c.value)
  }

  predicate Sound(fields: seq<Field>, cells: seq<Cell>)
    requires CellsOk(fields, cells)
    decreases FieldsWeight(fields), 0
  {
    fields == [] || (FieldSound(fields[0], cells[0]) && Sound(fields[1..], cells[1..]))
  }

  // ----- output streams -----

  lemma {:induction false} Rejoin(x: Bytes, all: Bytes, items: seq<Value>)
    requires x == []
    ensures x + all == all && items[0..] == items
  {
  }

  lemma {:induction false} PackedNext(kind: LType, items: seq<Value>, i: nat)
    requires i < |items| && ValuesOk(kind, items[i..])
    ensures ValueOk(kind, items[i]) && ValuesOk(kind, items[i + 1..])
    ensures Packed(kind, items[i..]) == ValueWire(kind, items[i]) + Packed(kind, items[i + 1..])
  {
    assert items[i..][1..] == items[i + 1..] && items[i..][0] == items[i];
  }

  lemma {:induction false} UnpackedNext(f: Field, items: seq<Value>, i: nat)
    requires i < |items| && ValuesOk(f.kind, items[i..])
    ensures ValueOk(f.kind, items[i]) && ValuesOk(f.kind, items[i + 1..])
    ensures Unpacked(f, items[i..]) == TaggedWire(f, items[i]) + Unpacked(f, items[i + 1..])
    ensures ItemsSound(f.kind, items[i..]) == (ValueSound(f.kind, items[i]) && ItemsSound(f.kind, items[i + 1..]))
  {
    assert items[i..][1..] == items[i + 1..] && items[i..][0] == items[i];
  }

  lemma {:induction false} FixedSize(kind: LType, items: seq<Value>, size: nat)
    requires ValuesOk(kind, items)
    requires (kind == Number(FIXED32) && size == 4) || (kind == Number(FIXED64) && size == 8)
    ensures |Packed(kind, items)| == size * |items|
  {
    if items != [] {
      FixedSize(kind, items[1..], size);
    }
  }

  lemma {:induction false} NumbersAreSound(kind: LType, items: seq<Value>)
    requires kind.Number? && ValuesOk(kind, items)
    ensures ItemsSound(kind, items)
  {
    if items != [] {
      NumbersAreSound(kind, items[1..]);
    }
  }

  lemma {:induction false} Begins(fields: seq<Field>, cells: seq<Cell>)
    requires CellsOk(fields, cells)
    ensures fields[0..] == fields && cells[0..] == cells && [] + Wire(fields, cells) == Wire(fields, cells)
  {
  }

  lemma {:induction false} WireNext(fields: seq<Field>, cells: seq<Cell>, i: nat)
    requires i < |fields| == |cells| && CellsOk(fields[i..], cells[i..])
    ensures CellOk(fields[i], cells[i]) && CellsOk(fields[i + 1..], cells[i + 1..])
    ensures Wire(fields[i..], cells[i..]) == FieldWire(fields[i], cells[i]) + Wire(fields[i + 1..], cells[i + 1..])
    ensures Sound(fields[i..], cells[i..]) == (FieldSound(fields[i], cells[i]) &&
            Sound(fields[i + 1..], cells[i + 1..]))
  {
    assert fields[i..][1..] == fields[i + 1..] && cells[i..][1..] == cells[i + 1..];
  }

  class OStream {
    /** A stream without a callback only counts. */
    const sizing: bool
    const maxSize: nat
    var written: nat
    var out: Bytes

    ghost predicate Ok()
      reads this
    {
      sizing || written <= maxSize
    }

    ghost predicate Fits(b: Bytes)
      reads this
    {
      sizing || written + |b| <= maxSize
    }

    /** Since the stream stood at `before` with `was` written, exactly b has gone in. */
    ghost predicate Took(before: nat, was: Bytes, b: Bytes)
      reads this
    {
      written == before + |b| && out == was + if sizing then [] else b
    }

    constructor (sizing: bool, maxSize: nat)
      ensures Ok() && this.sizing == sizing && this.maxSize == maxSize && written == 0 && out == []
    {
      this.sizing, this.maxSize, written, out := sizing, maxSize, 0, [];
    }

    method Write(b: Bytes) returns (ok: bool)
      requires Ok()
      modifies this
      ensures Ok() && ok == old(Fits(b))
      ensures ok ==> Took(old(written), old(out), b)
    {
      if |b| > 0 && !sizing {
        if written + |b| > maxSize {
          return false;
        }
        out := out + b;
      }
      written := written + |b|;
      return true;
    }

    method EncodeNumber(v: nat) returns (ok: bool)
      requires Ok()
      modifies this
      ensures Ok() && ok == old(Fits(Varint(v)))
      ensures ok ==> Took(old(written), old(out), Varint(v))
    {
      var buffer := EncodeVarint(v);
      ok := Write(buffer);
    }

    method EncodeTag(tag: nat, wireType: nat) returns (ok: bool)
      requires Ok()
      modifies this
      ensures Ok() && ok == old(Fits(TagWire(tag, wireType)))
      ensures ok ==> Took(old(written), old(out), TagWire(tag, wireType))
    {
      ok := EncodeNumber(tag * 8 + wireType);
    }

    method EncodeString(b: Bytes) returns (ok: bool)
      requires Ok()
      modifies this
      ensures Ok() && ok == old(Fits(Prefixed(b)))
      ensures ok ==> Took(old(written), old(out), Prefixed(b))
    {
      ok := EncodeNumber(|b|);
      if ok {
        ok := Write(b);
        JoinBytes(old(out), Varint(|b|), b);
      }
    }

    method EncodeScalar(t: Scalar, n: int) returns (ok: bool)
      requires Ok() && InRange(t, n)
      modifies this
      ensures Ok() && ok == old(Fits(NumberWire(t, n)))
      ensures ok ==> Took(old(written), old(out), NumberWire(t, n))
    {
      match t
      case BOOL => ok := EncodeNumber(if n != 0 then 1 else 0);
      case VARINT(_) => ok := EncodeNumber(Unsigned(n));
      case UVARINT(_) => ok := EncodeNumber(n);
      case SVARINT(_) => ok := EncodeNumber(Zigzag(n));
      case FIXED32 => ok := Write(Fixed32(n));
      case FIXED64 => ok := Write(Fixed64(n));
    }

    /** The field encoders: a value without its tag. */
    method EncodeValue(kind: LType, v: Value) returns (ok: bool)
      requires Ok() && ValueOk(kind, v)
      modifies this
      ensures Ok() && ok == (ValueSound(kind, v) && old(Fits(ValueWire(kind, v))))
      ensures ok ==> Took(old(written), old(out), ValueWire(kind, v))
      decreases TypeWeight(kind), 0
    {
      match kind
      case Number(t) => ok := EncodeScalar(t, v.n);
      case BytesUpTo(max) =>
        if |v.data| > max {
          return false;
        }
        ok := EncodeString(v.data);
      case Submessage(fields) => ok := EncodeSubmessage(fields, v.cells);
      case _ => ok := EncodeString(v.data);
    }

    /** A message of the size that was counted, in just that room. */
    method EncodeSized(fields: seq<Field>, cells: seq<Cell>, size: nat) returns (ok: bool)
      requires Ok() && !sizing && CellsOk(fields, cells) && Sound(fields, cells) && size == |Wire(fields, cells)|
      modifies this
      ensures Ok() && ok == old(Fits(Wire(fields, cells)))
      ensures ok ==> Took(old(written), old(out), Wire(fields, cells))
      decreases FieldsWeight(fields), 3
    {
      if written + size > maxSize {
        return false;
      }
      var sub := new OStream(false, size);
      ok := sub.Encode(fields, cells);
      written, out := written + sub.written, out + sub.out;
      ok := ok && sub.written == size;
    }

    /** The size first, from a stream that only counts; then the message itself. */
    method EncodeSubmessage(fields: seq<Field>, cells: seq<Cell>) returns (ok: bool)
      requires Ok() && CellsOk(fields, cells)
      modifies this
      ensures Ok() && ok == (Sound(fields, cells) && old(Fits(Prefixed(Wire(fields, cells)))))
      ensures ok ==> Took(old(written), old(out), Prefixed(Wire(fields, cells)))
      decreases FieldsWeight(fields), 4
    {
      var counter := new OStream(true, 0);
      var sized := counter.Encode(fields, cells);
      if !sized {
        return false;
      }
      var size := counter.written;
      JoinBytes(old(out), Varint(size), Wire(fields, cells));
      ok := EncodeNumber(size);
      if ok && sizing {
        written := written + size;
      } else if ok {
        ok := EncodeSized(fields, cells, size);
      }
    }

    /** A value with its tag. */
    method EncodeTagged(f: Field, v: Value) returns (ok: bool)
      requires Ok() && ValueOk(f.kind, v)
      modifies this
      ensures Ok() && ok == (ValueSound(f.kind, v) && old(Fits(TaggedWire(f, v))))
      ensures ok ==> Took(old(written), old(out), TaggedWire(f, v))
      decreases TypeWeight(f.kind), 1
    {
      ok := EncodeTag(f.tag, WireType(f.kind));
      if ok {
        ok := EncodeValue(f.kind, v);
        JoinBytes(old(out), TagWire(f.tag, WireType(f.kind)), ValueWire(f.kind, v));
      }
    }

    /** The items of a packed array, without its tag and length. */
    method EncodeItems(f: Field, items: seq<Value>) returns (ok: bool)
      requires Ok() && f.kind.Number? && ValuesOk(f.kind, items)
      modifies this
      ensures Ok() && ok == old(Fits(Packed(f.kind, items)))
      ensures ok ==> Took(old(written), old(out), Packed(f.kind, items))
      decreases TypeWeight(f.kind), 2, |items|
    {
      ghost var done: Bytes := [];
      Rejoin([], Packed(f.kind, items), items);
      for i := 0 to |items|
        invariant Ok() && ValuesOk(f.kind, items[i..]) && Packed(f.kind, items) == done + Packed(f.kind, items[i..])
        invariant Took(old(written), old(out), done)
      {
        PackedNext(f.kind, items, i);
        JoinBytes(done, ValueWire(f.kind, items[i]), Packed(f.kind, items[i + 1..]));
        JoinBytes(old(out), done, ValueWire(f.kind, items[i]));
        var wrote := EncodeValue(f.kind, items[i]);
        if !wrote {
          return false;
        }
        done := done + ValueWire(f.kind, items[i]);
      }
      ok := true;
    }

    /** The items of an array that is not packed. */
    method EncodeEntries(f: Field, items: seq<Value>) returns (ok: bool)
      requires Ok() && ValuesOk(f.kind, items)
      modifies this
      ensures Ok() && ok == (ItemsSound(f.kind, items) && old(Fits(Unpacked(f, items))))
      ensures ok ==> Took(old(written), old(out), Unpacked(f, items))
      decreases TypeWeight(f.kind), 2, |items|
    {
      ghost var done: Bytes := [];
      Rejoin([], Unpacked(f, items), items);
      for i := 0 to |items|
        invariant Ok() && ValuesOk(f.kind, items[i..]) && Unpacked(f, items) == done + Unpacked(f, items[i..])
        invariant ItemsSound(f.kind, items) == ItemsSound(f.kind, items[i..])
        invariant Took(old(written), old(out), done)
      {
        UnpackedNext(f, items, i);
        JoinBytes(done, TaggedWire(f, items[i]), Unpacked(f, items[i + 1..]));
        JoinBytes(old(out), done, TaggedWire(f, items[i]));
        var wrote := EncodeTagged(f, items[i]);
        if !wrote {
          return false;
        }
        done := done + TaggedWire(f, items[i]);
      }
      ok := true;
    }

    /** The size of a packed array: by multiplication where the items have one size, else by counting. */
    method PackedSize(f: Field, t: Scalar, items: seq<Value>) returns (size: nat)
      requires f.kind == Number(t) && ValuesOk(f.kind, items)
      ensures size == |Packed(f.kind, items)|
      decreases TypeWeight(f.kind), 3, 0
    {
      if t.FIXED32? {
        FixedSize(f.kind, items, 4);
        size := 4 * |items|;
      } else if t.FIXED64? {
        FixedSize(f.kind, items, 8);
        size := 8 * |items|;
      } else {
        var counter := new OStream(true, 0);
        var ok := counter.EncodeItems(f, items);
        size := counter.written;
      }
    }

    method EncodePacked(f: Field, t: Scalar, items: seq<Value>) returns (ok: bool)
      requires Ok() && f.kind == Number(t) && ValuesOk(f.kind, items)
      modifies this
      ensures Ok() && ok == old(Fits(TagWire(f.tag, LENGTH_DELIMITED) + Prefixed(Packed(f.kind, items))))
      ensures ok ==> Took(old(written), old(out), TagWire(f.tag, LENGTH_DELIMITED) + Prefixed(Packed(f.kind, items)))
      decreases TypeWeight(f.kind), 3, 1
    {
      var size := PackedSize(f, t, items);
      ghost var tag, packed := TagWire(f.tag, LENGTH_DELIMITED), Packed(f.kind, items);
      JoinBytes(tag, Varint(size), packed);
      JoinBytes(old(out), tag, Varint(size));
      JoinBytes(old(out), tag + Varint(size), packed);
      ok := EncodeTag(f.tag, LENGTH_DELIMITED);
      if ok {
        ok := EncodeNumber(size);
      }
      if ok && sizing {
        written := written + size;
      } else if ok {
        ok := EncodeItems(f, items);
      }
    }

    method EncodeArray(f: Field, items: seq<Value>, max: nat) returns (ok: bool)
      requires Ok() && ValuesOk(f.kind, items)
      modifies this
      ensures Ok() && ok == (|items| <= max && ItemsSound(f.kind, items) && old(Fits(ArrayWire(f, items))))
      ensures ok ==> Took(old(written), old(out), ArrayWire(f, items))
      decreases TypeWeight(f.kind), 4
    {
      if |items| == 0 {
        return true;
      }
      if |items| > max {
        return false;
      }
      if f.kind.Number? {
        NumbersAreSound(f.kind, items);
        ok := EncodePacked(f, f.kind.scalar, items);
      } else {
        ok := EncodeEntries(f, items);
      }
    }

    method EncodeField(f: Field, c: Cell) returns (ok: bool)
      requires Ok() && CellOk(f, c)
      modifies this
      ensures Ok() && ok == (FieldSound(f, c) && old(Fits(FieldWire(f, c))))
      ensures ok ==> Took(old(written), old(out), FieldWire(f, c))
      decreases TypeWeight(f.kind), 5
    {
      match f.rule
      case Repeated(max) => ok := EncodeArray(f, c.items, max);
      case Required => ok := EncodeTagged(f, c.value);
      case Optional => if c.has { ok := EncodeTagged(f, c.value); } else { ok := true; }
      case Singular => if IsZero(f.kind, c.value) { ok := true; } else { ok := EncodeTagged(f, c.value); }
      case OneOf(_) => if c.on { ok := EncodeTagged(f, c.value); } else { ok := true; }
    }

    /** pb_encode: succeeds just when the struct is sound and its encoding fits, and then writes that. */
    method Encode(fields: seq<Field>, cells: seq<Cell>) returns (ok: bool)
      requires Ok() && CellsOk(fields, cells)
      modifies this
      ensures Ok() && ok == (Sound(fields, cells) && old(Fits(Wire(fields, cells))))
      ensures ok ==> Took(old(written), old(out), Wire(fields, cells))
      decreases FieldsWeight(fields), 2
    {
      if fields == [] {
        return true;
      }
      var iter := new FieldIter(fields);
      var more := true;
      ghost var done: Bytes := [];
      ghost var n := 0;
      Begins(fields, cells);
      while more
        invariant Ok() && iter.Ok() && n <= |fields| && (if more then n == iter.pos else n == |fields|)
        invariant CellsOk(fields[n..], cells[n..]) && Wire(fields, cells) == done + Wire(fields[n..], cells[n..])
        invariant Sound(fields, cells) == Sound(fields[n..], cells[n..])
        invariant Took(old(written), old(out), done)
        decreases |fields| - n
      {
        var f, c := fields[iter.pos], cells[iter.pos];
        WireNext(fields, cells, n);
        WeightOf(fields, n);
        JoinBytes(done, FieldWire(f, c), Wire(fields[n + 1..], cells[n + 1..]));
        JoinBytes(old(out), done, FieldWire(f, c));
        var wrote := EncodeField(f, c);
        if !wrote {
          return false;
        }
        done, n := done + FieldWire(f, c), n + 1;
        more := iter.Next();
      }
      ok := true;
    }
  }

  /** pb_get_encoded_size: the sizing pass counts exactly the bytes that the writing pass emits. */
  method GetEncodedSize(fields: seq<Field>, cells: seq<Cell>) returns (ok: bool, size: nat)
    requires CellsOk(fields, cells)
    ensures ok == Sound(fields, cells) && (ok ==> size == |Wire(fields, cells)|)
  {
    var stream := new OStream(true, 0);
    ok := stream.Encode(fields, cells);
    size := stream.written;
  }

  /** pb_encode into a buffer succeeds just when the size fits, and fills it with the message. */
  method EncodeToBuffer(fields: seq<Field>, cells: seq<Cell>, bufferSize: nat) returns (ok: bool, out: Bytes)
    requires CellsOk(fields, cells)
    ensures ok == (Sound(fields, cells) && |Wire(fields, cells)| <= bufferSize) && (ok ==> out == Wire(fields, cells))
  {
    var stream := new OStream(false, bufferSize);
    ok := stream.Encode(fields, cells);
    out := stream.out;
  }
}
