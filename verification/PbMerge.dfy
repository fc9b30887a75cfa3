/** A field that comes more than once (nanopb: pb_decode), and numbers in other forms. */
module PbMerge {
  import opened Keys
  import opened Coding
  import opened PbWire
  import opened PbFields
  import opened PbEncode
  import opened PbDecode
  import opened PbRoundTrip

  // ----- the last one wins -----

  lemma {:induction false} ValueRead(f: Field, v: Value, before: Value, rest: Bytes)
    requires TypeOk(f.kind) && !f.kind.Submessage? && ValueOk(f.kind, v) && ValueSound(f.kind, v)
    requires ValueEnds(f.kind, v) && |ValueWire(f.kind, v)| < MOD32
    ensures ReadValue(f.kind, before, ValueWire(f.kind, v) + rest) == Got(v, rest)
  {
    if f.kind.Number? {
      NumberBack(f.kind.scalar, v.n, rest);
    } else {
      DataBack(f.kind, v, before, rest);
    }
  }

  /** A number, text or bytes that fits, in a field that is no array: it is what the field has then, whatever it had. */
  lemma {:induction false} ValueIsSet(fields: seq<Field>, cells: seq<Cell>, i: nat, v: Value, rest: Bytes,
                                      seen: set<nat>)
    requires FieldsOk(fields) && i < |fields| == |cells| && !fields[i].rule.Repeated? && !fields[i].kind.Submessage?
    requires ValueOk(fields[i].kind, v) && ValueSound(fields[i].kind, v) && ValueEnds(fields[i].kind, v)
    requires |ValueWire(fields[i].kind, v)| < MOD32
    ensures ReadFields(fields, cells, TaggedWire(fields[i], v) + rest, seen) ==
            ReadFields(fields, Put(fields, cells, i, v), rest, seen + {i})
  {
    var f := fields[i];
    FieldsMeans(fields, i);
    JoinBytes(TagWire(f.tag, WireType(f.kind)), ValueWire(f.kind, v), rest);
    TagBack(fields, cells, i, WireType(f.kind), ValueWire(f.kind, v) + rest, seen);
    ValueRead(f, v, OldValue(cells[i]), rest);
  }

  lemma {:induction false} PutTwice(fields: seq<Field>, cells: seq<Cell>, i: nat, v: Value, w: Value)
    requires i < |fields| == |cells| && !fields[i].rule.Repeated? && !fields[i].rule.OneOf?
    ensures Put(fields, Put(fields, cells, i, v), i, w) == Put(fields, cells, i, w)
  {
  }

  /** So of two values for such a field the last one counts. */
  lemma {:induction false} LastOneWins(fields: seq<Field>, cells: seq<Cell>, i: nat, v: Value, w: Value, rest: Bytes,
                                       seen: set<nat>)
    requires FieldsOk(fields) && i < |fields| == |cells| && !fields[i].rule.Repeated? && !fields[i].rule.OneOf?
    requires !fields[i].kind.Submessage?
    requires ValueOk(fields[i].kind, v) && ValueSound(fields[i].kind, v) && ValueEnds(fields[i].kind, v)
    requires ValueOk(fields[i].kind, w) && ValueSound(fields[i].kind, w) && ValueEnds(fields[i].kind, w)
    requires |ValueWire(fields[i].kind, v)| < MOD32 && |ValueWire(fields[i].kind, w)| < MOD32
    ensures ReadFields(fields, cells, TaggedWire(fields[i], v) + (TaggedWire(fields[i], w) + rest), seen) ==
            ReadFields(fields, cells, TaggedWire(fields[i], w) + rest, seen)
  {
    ValueIsSet(fields, cells, i, v, TaggedWire(fields[i], w) + rest, seen);
    ValueIsSet(fields, Put(fields, cells, i, v), i, w, rest, seen + {i});
    ValueIsSet(fields, cells, i, w, rest, seen);
    PutTwice(fields, cells, i, v, w);
    assert seen + {i} + {i} == seen + {i};
  }

  /** Setting one arm of a union puts the others out, and leaves all other fields alone. */
  lemma {:induction false} ArmIsSwitched(fields: seq<Field>, cells: seq<Cell>, i: nat, v: Value, j: nat)
    requires i < |fields| == |cells| && fields[i].rule.OneOf? && j < |fields|
    ensures var c := Put(fields, cells, i, v)[j];
            if j == i then c == Arm(true, v)
            else if fields[j].rule == fields[i].rule then c.Arm? && !c.on
            else c == cells[j]
  {
  }

  // ----- a message that comes in parts -----

  /** A submessage is decoded on top of what came before, and counts as one message. */
  lemma {:induction false} PartIsOnTop(fields: seq<Field>, cells: seq<Cell>, i: nat, part: Bytes, rest: Bytes,
                                       seen: set<nat>, had: seq<Cell>)
    requires FieldsOk(fields) && i < |fields| == |cells| && fields[i].kind.Submessage? && |part| < MOD32
    requires !fields[i].rule.Repeated? && !fields[i].rule.OneOf? && !cells[i].Many?
    requires cells[i].value == Msg(had) && |had| == |fields[i].kind.fields|
    ensures ReadFields(fields, cells, TagWire(fields[i].tag, LENGTH_DELIMITED) + (Prefixed(part) + rest), seen) ==
            match DecodeOnto(fields[i].kind.fields, had, part)
            case Rejected => Rejected
            case Decoded(now, _) => ReadFields(fields, Put(fields, cells, i, Msg(now)), rest, seen + {i})
  {
    TagBack(fields, cells, i, LENGTH_DELIMITED, Prefixed(part) + rest, seen);
    PrefixedBack(part, rest);
  }

  // ----- numbers in other forms -----

  lemma {:induction false} NumberAppended(fields: seq<Field>, cells: seq<Cell>, i: nat, v: Value, rest: Bytes,
                                          seen: set<nat>)
    requires FieldsOk(fields) && i < |fields| == |cells| && fields[i].rule.Repeated? && fields[i].kind.Number?
    requires cells[i].Many? && ValueOk(fields[i].kind, v) && |cells[i].items| < fields[i].rule.max
    ensures ReadFields(fields, cells, TaggedWire(fields[i], v) + rest, seen) ==
            ReadFields(fields, cells[i := Many(cells[i].items + [v])], rest, seen + {i})
  {
    var f := fields[i];
    FieldsMeans(fields, i);
    JoinBytes(TagWire(f.tag, WireType(f.kind)), ValueWire(f.kind, v), rest);
    TagBack(fields, cells, i, WireType(f.kind), ValueWire(f.kind, v) + rest, seen);
    NumberBack(f.kind.scalar, v.n, rest);
  }

  /** Numbers of an array may also come one by one. */
  lemma {:induction false} OneByOne(fields: seq<Field>, cells: seq<Cell>, i: nat, items: seq<Value>, rest: Bytes,
                                    seen: set<nat>)
    requires FieldsOk(fields) && i < |fields| == |cells| && fields[i].rule.Repeated? && fields[i].kind.Number?
    requires cells[i].Many? && ValuesOk(fields[i].kind, items) && i in seen
    requires |cells[i].items| + |items| <= fields[i].rule.max
    ensures ReadFields(fields, cells, Unpacked(fields[i], items) + rest, seen) ==
            ReadFields(fields, cells[i := Many(cells[i].items + items)], rest, seen)
    decreases |items|
  {
    if items == [] {
      assert [] + rest == rest && cells[i].items + items == cells[i].items && cells[i := cells[i]] == cells;
    } else {
      var f, first, more := fields[i], items[0], items[1..];
      var now := cells[i := Many(cells[i].items + [first])];
      JoinBytes(TaggedWire(f, first), Unpacked(f, more), rest);
      NumberAppended(fields, cells, i, first, Unpacked(f, more) + rest, seen);
      assert seen + {i} == seen;
      OneByOne(fields, now, i, more, rest, seen);
      assert now[i].items + more == cells[i].items + items;
      assert now[i := Many(cells[i].items + items)] == cells[i := Many(cells[i].items + items)];
    }
  }

  /** Packed or one by one, they come to the same, behind what the array has already. */
  lemma {:induction false} PackedAppended(fields: seq<Field>, cells: seq<Cell>, i: nat, items: seq<Value>, rest: Bytes,
                                          seen: set<nat>)
    requires FieldsOk(fields) && i < |fields| == |cells| && fields[i].rule.Repeated? && fields[i].kind.Number?
    requires cells[i].Many? && ValuesOk(fields[i].kind, items) && i in seen && items != []
    requires |cells[i].items| + |items| <= fields[i].rule.max && |Packed(fields[i].kind, items)| < MOD32
    ensures ReadFields(fields, cells, ArrayWire(fields[i], items) + rest, seen) ==
            ReadFields(fields, cells, Unpacked(fields[i], items) + rest, seen)
  {
    var f, packed := fields[i], Packed(fields[i].kind, items);
    FieldsMeans(fields, i);
    OneByOne(fields, cells, i, items, rest, seen);
    JoinBytes(TagWire(f.tag, LENGTH_DELIMITED), Prefixed(packed), rest);
    TagBack(fields, cells, i, LENGTH_DELIMITED, Prefixed(packed) + rest, seen);
    PrefixedBack(packed, rest);
    PackedBack(f.kind.scalar, cells[i].items, items, f.rule.max);
    assert seen + {i} == seen;
  }

  /** A negative number of up to 32 bits may come in five bytes, as 32 bits. */
  lemma {:induction false} ShortNegative(w: nat, n: int, rest: Bytes)
    requires WidthOk(w) && w < 64 && InRange(VARINT(w), n) && n < 0
    ensures ReadNumber(VARINT(w), Varint(MOD32 + n) + rest) == Got(Num(n), rest)
  {
    Varint64RoundTrip(MOD32 + n, rest);
  }

  /** A number out of range is rejected, and not cut to fit. */
  lemma {:induction false} OutOfRange(t: Scalar, u: nat, rest: Bytes)
    requires ScalarOk(t) && u < MOD64 && (t.UVARINT? || t.SVARINT?)
    requires !InRange(t, if t.UVARINT? then u else Unzigzag(u))
    ensures ReadNumber(t, Varint(u) + rest) == Fail
  {
    Varint64RoundTrip(u, rest);
  }
}
