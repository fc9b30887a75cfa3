/** Fields that a message type does not know (nanopb: pb_decode): they are skipped, whatever they hold. */
module PbUnknown {
  import opened Keys
  import opened Coding
  import opened PbWire
  import opened PbFields
  import opened PbEncode
  import opened PbDecode
  import opened PbRoundTrip

  // ----- one value -----

  lemma {:induction false} SkipBack(v: nat, rest: Bytes)
    ensures SkipVarint(Varint(v) + rest) == Got(0, rest)
  {
    if v >= 0x80 {
      SkipBack(v / 0x80, rest);
      assert (Varint(v) + rest)[1..] == Varint(v / 0x80) + rest;
    } else {
      assert (Varint(v) + rest)[1..] == rest;
    }
  }

  lemma {:induction false} SkipTaken(b: Bytes, rest: Bytes)
    ensures SkipBytes(b + rest, |b|) == Got(0, rest)
  {
  }

  /** Whatever a field holds, the wire type that is sent with it says how long it is. */
  lemma {:induction false} SkipsValue(kind: LType, v: Value, rest: Bytes)
    requires ValueOk(kind, v) && |ValueWire(kind, v)| < MOD32
    ensures SkipField(WireType(kind), ValueWire(kind, v) + rest) == Got(0, rest)
  {
    match kind
    case Number(FIXED32) => SkipTaken(Fixed32(v.n), rest);
    case Number(FIXED64) => SkipTaken(Fixed64(v.n), rest);
    case Number(BOOL) => SkipBack(v.n, rest);
    case Number(VARINT(_)) => SkipBack(Unsigned(v.n), rest);
    case Number(UVARINT(_)) => SkipBack(v.n, rest);
    case Number(SVARINT(_)) => SkipBack(Zigzag(v.n), rest);
    case Submessage(fields) => PrefixedBack(Wire(fields, v.cells), rest);
    case _ => PrefixedBack(v.data, rest);
  }

  // ----- one field -----

  predicate Unknown(fields: seq<Field>, f: Field) {
    0 < f.tag && f.tag * 8 + 7 < MOD32 && forall i :: 0 <= i < |fields| ==> fields[i].tag != f.tag
  }

  lemma {:induction false} NotFound(fields: seq<Field>, f: Field)
    requires Unknown(fields, f)
    ensures Index(fields, f.tag) == |fields|
  {
  }

  /** A tag that is not known, and something that can be skipped. */
  lemma {:induction false} SkipsAny(fields: seq<Field>, cells: seq<Cell>, f: Field, wireType: nat, s: Bytes,
                                    rest: Bytes, seen: set<nat>)
    requires |cells| == |fields| && Unknown(fields, f) && wireType < 8 && SkipField(wireType, s) == Got(0, rest)
    ensures ReadFields(fields, cells, TagWire(f.tag, wireType) + s, seen) == ReadFields(fields, cells, rest, seen)
  {
    NotFound(fields, f);
    Varint32RoundTrip(f.tag * 8 + wireType, s);
    KeyParts(f.tag, wireType);
  }

  lemma {:induction false} SkipsTagged(fields: seq<Field>, cells: seq<Cell>, f: Field, wireType: nat, b: Bytes,
                                       rest: Bytes, seen: set<nat>)
    requires |cells| == |fields| && Unknown(fields, f) && wireType < 8
    requires SkipField(wireType, b + rest) == Got(0, rest)
    ensures ReadFields(fields, cells, TagWire(f.tag, wireType) + b + rest, seen)
            == ReadFields(fields, cells, rest, seen)
  {
    SkipsAny(fields, cells, f, wireType, b + rest, rest, seen);
    JoinBytes(TagWire(f.tag, wireType), b, rest);
  }

  lemma {:induction false} SkipsItems(fields: seq<Field>, cells: seq<Cell>, f: Field, items: seq<Value>, rest: Bytes,
                                      seen: set<nat>)
    requires |cells| == |fields| && Unknown(fields, f) && ValuesOk(f.kind, items) && |Unpacked(f, items)| < MOD32
    ensures ReadFields(fields, cells, Unpacked(f, items) + rest, seen) == ReadFields(fields, cells, rest, seen)
    decreases |items|
  {
    if items == [] {
      assert [] + rest == rest;
    } else {
      var more := Unpacked(f, items[1..]) + rest;
      SkipsItems(fields, cells, f, items[1..], rest, seen);
      SkipsValue(f.kind, items[0], more);
      SkipsTagged(fields, cells, f, WireType(f.kind), ValueWire(f.kind, items[0]), more, seen);
      JoinBytes(TaggedWire(f, items[0]), Unpacked(f, items[1..]), rest);
    }
  }

  /** A field of any kind and rule, present or not, as the encoder writes it. */
  lemma {:induction false} SkipsField(fields: seq<Field>, cells: seq<Cell>, f: Field, c: Cell, rest: Bytes,
                                      seen: set<nat>)
    requires |cells| == |fields| && Unknown(fields, f) && CellOk(f, c) && |FieldWire(f, c)| < MOD32
    ensures ReadFields(fields, cells, FieldWire(f, c) + rest, seen) == ReadFields(fields, cells, rest, seen)
  {
    if f.rule.Repeated? && c.items != [] && f.kind.Number? {
      PrefixedBack(Packed(f.kind, c.items), rest);
      SkipsTagged(fields, cells, f, LENGTH_DELIMITED, Prefixed(Packed(f.kind, c.items)), rest, seen);
    } else if f.rule.Repeated? && c.items != [] {
      SkipsItems(fields, cells, f, c.items, rest, seen);
    } else if !f.rule.Repeated? && Present(f, c) {
      SkipsValue(f.kind, c.value, rest);
      SkipsTagged(fields, cells, f, WireType(f.kind), ValueWire(f.kind, c.value), rest, seen);
    } else {
      assert [] + rest == rest;
    }
  }

  // ----- a message with a field that is not known -----

  /** The first m fields on the wire, with anything behind them. */
  lemma {:induction false} FieldsThenMore(fields: seq<Field>, cells: seq<Cell>, i: nat, m: nat, more: Bytes,
                                          seen: set<nat>)
    requires FieldsOk(fields) && CellsOk(fields, cells) && i <= m <= |fields| && CellsOk(fields[i..m], cells[i..m])
    requires Sound(fields[i..m], cells[i..m]) && |Wire(fields[i..m], cells[i..m])| < MOD32
    ensures ReadFields(fields, SoFar(fields, cells, i), Wire(fields[i..m], cells[i..m]) + more, seen) ==
            if Ends(fields[i..m], cells[i..m])
            then ReadFields(fields, SoFar(fields, cells, m), more, SeenAfter(fields, cells, i, m, seen))
            else Rejected
    decreases m - i
  {
    if i < m {
      var rest := Wire(fields[i + 1..m], cells[i + 1..m]);
      RangeNext(fields, cells, i, m);
      JoinBytes(FieldWire(fields[i], cells[i]), rest, more);
      FieldStep(fields, cells, i, rest + more, seen);
      FieldsThenMore(fields, cells, i + 1, m, more, if Written(fields[i], cells[i]) then seen + {i} else seen);
    } else {
      assert [] + more == more;
    }
  }

  /** An unknown field behind any number of known ones, and before any bytes, makes no difference. */
  lemma {:induction false} UnknownIsSkipped(fields: seq<Field>, cells: seq<Cell>, m: nat, f: Field, c: Cell,
                                            rest: Bytes)
    requires FieldsOk(fields) && CellsOk(fields, cells) && m <= |fields| && CellsOk(fields[0..m], cells[0..m])
    requires Sound(fields[0..m], cells[0..m]) && |Wire(fields[0..m], cells[0..m])| < MOD32
    requires Unknown(fields, f) && CellOk(f, c) && |FieldWire(f, c)| < MOD32
    ensures Decode(fields, Wire(fields[0..m], cells[0..m]) + (FieldWire(f, c) + rest)) ==
            Decode(fields, Wire(fields[0..m], cells[0..m]) + rest)
  {
    assert SoFar(fields, cells, 0) == Defaults(fields);
    FieldsThenMore(fields, cells, 0, m, FieldWire(f, c) + rest, {});
    FieldsThenMore(fields, cells, 0, m, rest, {});
    SkipsField(fields, SoFar(fields, cells, m), f, c, rest, SeenAfter(fields, cells, 0, m, {}));
  }
}
