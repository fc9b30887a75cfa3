/** Decoding what was encoded (nanopb). */
module PbRoundTrip {
  import opened Keys
  import opened Coding
  import opened PbWire
  import opened PbFields
  import opened PbEncode
  import opened PbDecode

  // ----- texts with a zero byte behind them -----

  predicate ValueEnds(kind: LType, v: Value)
    requires ValueOk(kind, v)
    decreases TypeWeight(kind), 0
  {
    match kind
    case Text(size) => |v.data| < size
    case Submessage(fields) => Ends(fields, v.cells)
    case _ => true
  }

  predicate ItemsEnd(kind: LType, items: seq<Value>)
    requires ValuesOk(kind, items)
    decreases TypeWeight(kind), 1, |items|
  {
    items == [] || (ValueEnds(kind, items[0]) && ItemsEnd(kind, items[1..]))
  }

  predicate FieldEnds(f: Field, c: Cell)
    requires CellOk(f, c)
    decreases TypeWeight(f.kind), 4
  {
    if f.rule.Repeated? then ItemsEnd(f.kind, c.items) else Present(f, c) ==> ValueEnds(f.kind, c.value)
  }

  /** Every text that the message carries is terminated within its buffer. */
  predicate Ends(fields: seq<Field>, cells: seq<Cell>)
    requires CellsOk(fields, cells)
    decreases FieldsWeight(fields), 0
  {
    fields == [] || (FieldEnds(fields[0], cells[0]) && Ends(fields[1..], cells[1..]))
  }

  // ----- what comes back -----

  function CameValue(kind: LType, v: Value): Value
    requires ValueOk(kind, v)
    decreases TypeWeight(kind), 0
  {
    if kind.Submessage? then Msg(Came(kind.fields, v.cells)) else v
  }

  function CameItems(kind: LType, items: seq<Value>): (r: seq<Value>)
    requires ValuesOk(kind, items)
    ensures |r| == |items|
    decreases TypeWeight(kind), 1, |items|
  {
    if items == [] then [] else [CameValue(kind, items[0])] + CameItems(kind, items[1..])
  }

  /** Presence, counts and the values that are present; in the place of an absent value, the default. */
  function CameCell(f: Field, c: Cell): Cell
    requires CellOk(f, c)
    decreases TypeWeight(f.kind), 4
  {
    if f.rule.Repeated? then Many(CameItems(f.kind, c.items))
    else if !Present(f, c) then DefaultCell(f)
    else
      var v := CameValue(f.kind, c.value);
      match f.rule
      case Optional => May(true, v)
      case OneOf(_) => Arm(true, v)
      case _ => One(v)
  }

  function Came(fields: seq<Field>, cells: seq<Cell>): (r: seq<Cell>)
    requires CellsOk(fields, cells)
    ensures |r| == |fields|
    decreases FieldsWeight(fields), 0
  {
    if fields == [] then [] else [CameCell(fields[0], cells[0])] + Came(fields[1..], cells[1..])
  }

  lemma {:induction false} CameAt(fields: seq<Field>, cells: seq<Cell>, i: nat)
    requires CellsOk(fields, cells) && i < |fields|
    ensures CellOk(fields[i], cells[i]) && Came(fields, cells)[i] == CameCell(fields[i], cells[i])
  {
    if i > 0 {
      CameAt(fields[1..], cells[1..], i - 1);
    }
  }

  // ----- numbers and byte strings -----

  lemma {:induction false} NumberBack(t: Scalar, n: int, rest: Bytes)
    requires ScalarOk(t) && InRange(t, n)
    ensures ReadNumber(t, NumberWire(t, n) + rest) == Got(Num(n), rest)
  {
    match t
    case BOOL => Varint32RoundTrip(n, rest);
    case VARINT(w) =>
      Varint64RoundTrip(Unsigned(n), rest);
      SignedBack(n);
    case UVARINT(_) => Varint64RoundTrip(n, rest);
    case SVARINT(_) =>
      Varint64RoundTrip(Zigzag(n), rest);
      ZigzagRoundTrip(n);
    case FIXED32 =>
      TakeBack(Fixed32(n), rest);
      Fixed32RoundTrip(n);
    case FIXED64 =>
      TakeBack(Fixed64(n), rest);
      Fixed64RoundTrip(n);
  }

  lemma {:induction false} UpToZeroAll(b: Bytes)
    requires 0 !in b
    ensures UpToZero(b) == b
  {
    if b != [] {
      UpToZeroAll(b[1..]);
    }
  }

  lemma {:induction false} StoredBack(kind: LType, v: Value, rest: Bytes)
    requires !kind.Number? && !kind.Submessage? && ValueOk(kind, v) && ValueSound(kind, v)
    ensures v.Data? && Stored(kind, v.data, rest) == if ValueEnds(kind, v) then Got(v, rest) else Fail
  {
    if kind.Text? {
      UpToZeroAll(v.data);
    }
  }

  // ----- values -----

  lemma {:induction false} DataBack(kind: LType, v: Value, before: Value, rest: Bytes)
    requires !kind.Number? && !kind.Submessage? && ValueOk(kind, v) && ValueSound(kind, v) && |v.data| < MOD32
    ensures ReadValue(kind, before, ValueWire(kind, v) + rest) == if ValueEnds(kind, v) then Got(v, rest) else Fail
  {
    PrefixedBack(v.data, rest);
    StoredBack(kind, v, rest);
  }

  lemma {:induction false} ValueBack(kind: LType, v: Value, before: Value, rest: Bytes)
    requires TypeOk(kind) && ValueOk(kind, v) && ValueSound(kind, v) && |ValueWire(kind, v)| < MOD32
    requires kind.Submessage? ==> before == Msg(Defaults(kind.fields))
    ensures ReadValue(kind, before, ValueWire(kind, v) + rest) == if ValueEnds(kind, v)
            then Got(CameValue(kind, v), rest) else Fail
    decreases TypeWeight(kind), 0, 0
  {
    match kind
    case Number(t) => NumberBack(t, v.n, rest);
    case Submessage(fields) =>
      PrefixedBack(Wire(fields, v.cells), rest);
      DecodeBack(fields, v.cells);
    case _ => DataBack(kind, v, before, rest);
  }

  // ----- a tag and what follows it -----

  lemma {:induction false} IndexOf(fields: seq<Field>, i: nat)
    requires FieldsOk(fields) && i < |fields|
    ensures Index(fields, fields[i].tag) == i
  {
    FieldsMeans(fields, i);
    var j := Index(fields, fields[i].tag);
    assert j <= i;
  }

  function Going(fields: seq<Field>, r: Read<seq<Cell>>, i: nat, seen: set<nat>): Result {
    if r.Fail? || |r.value| != |fields| then Rejected else ReadFields(fields, r.value, r.rest, seen + {i})
  }

  lemma {:induction false} KeyParts(tag: nat, wireType: nat)
    requires wireType < 8
    ensures (tag * 8 + wireType) / 8 == tag && (tag * 8 + wireType) % 8 == wireType
  {
  }

  lemma {:induction false} TagBack(fields: seq<Field>, cells: seq<Cell>, i: nat, wireType: nat, rest: Bytes,
                                   seen: set<nat>)
    requires FieldsOk(fields) && i < |fields| == |cells| && wireType < 8
    ensures ReadFields(fields, cells, TagWire(fields[i].tag, wireType) + rest, seen) ==
            Going(fields, ReadField(fields, cells, i, wireType, rest), i, seen)
  {
    var tag := fields[i].tag;
    FieldsMeans(fields, i);
    Varint32RoundTrip(tag * 8 + wireType, rest);
    KeyParts(tag, wireType);
    IndexOf(fields, i);
  }

  // ----- a field that is no array -----

  /** The cells with the value of a field in its place. */
  function Put(fields: seq<Field>, cells: seq<Cell>, i: nat, v: Value): (r: seq<Cell>)
    requires i < |fields| == |cells|
    ensures |r| == |cells|
  {
    match fields[i].rule
    case OneOf(_) => SetArm(fields, cells, i, v)
    case Optional => cells[i := May(true, v)]
    case _ => cells[i := One(v)]
  }

  lemma {:induction false} DefaultMsg(f: Field)
    requires f.kind.Submessage? && !f.rule.Repeated?
    ensures DefaultValue(f) == Msg(Defaults(f.kind.fields))
    ensures !f.rule.OneOf? ==> OldValue(DefaultCell(f)) == Msg(Defaults(f.kind.fields))
  {
  }

  lemma {:induction false} SingleBack(fields: seq<Field>, cells: seq<Cell>, i: nat, v: Value, rest: Bytes)
    requires FieldsOk(fields) && i < |fields| == |cells| && !fields[i].rule.Repeated?
    requires cells[i] == DefaultCell(fields[i])
    requires ValueOk(fields[i].kind, v) && ValueSound(fields[i].kind, v) && |ValueWire(fields[i].kind, v)| < MOD32
    ensures ReadField(fields, cells, i, WireType(fields[i].kind), ValueWire(fields[i].kind, v) + rest) ==
            if ValueEnds(fields[i].kind, v) then Got(Put(fields, cells, i, CameValue(fields[i].kind, v)), rest)
                else Fail
    decreases TypeWeight(fields[i].kind), 1
  {
    var f := fields[i];
    FieldsMeans(fields, i);
    if f.kind.Submessage? {
      DefaultMsg(f);
    }
    var before := if f.rule.OneOf? && f.kind.Submessage? then DefaultValue(f) else OldValue(cells[i]);
    ValueBack(f.kind, v, before, rest);
  }

  lemma {:induction false} TaggedBack(fields: seq<Field>, cells: seq<Cell>, i: nat, v: Value, rest: Bytes,
                                      seen: set<nat>)
    requires FieldsOk(fields) && i < |fields| == |cells| && !fields[i].rule.Repeated?
    requires cells[i] == DefaultCell(fields[i])
    requires ValueOk(fields[i].kind, v) && ValueSound(fields[i].kind, v) && |TaggedWire(fields[i], v)| < MOD32
    ensures ReadFields(fields, cells, TaggedWire(fields[i], v) + rest, seen) ==
            if ValueEnds(fields[i].kind, v) then ReadFields(fields,
                Put(fields, cells, i, CameValue(fields[i].kind, v)), rest, seen + {i})
            else Rejected
    decreases TypeWeight(fields[i].kind), 2
  {
    var f := fields[i];
    JoinBytes(TagWire(f.tag, WireType(f.kind)), ValueWire(f.kind, v), rest);
    TagBack(fields, cells, i, WireType(f.kind), ValueWire(f.kind, v) + rest, seen);
    SingleBack(fields, cells, i, v, rest);
  }

  // ----- arrays -----

  lemma {:induction false} NumbersAsTheyAre(kind: LType, items: seq<Value>)
    requires kind.Number? && ValuesOk(kind, items)
    ensures CameItems(kind, items) == items && ItemsEnd(kind, items)
  {
    if items != [] {
      NumbersAsTheyAre(kind, items[1..]);
    }
  }

  lemma {:induction false} ItemsJoin(done: seq<Value>, first: Value, more: seq<Value>)
    ensures done + [first] + more == done + ([first] + more)
  {
  }

  lemma {:induction false} PackedBack(t: Scalar, done: seq<Value>, items: seq<Value>, max: nat)
    requires ScalarOk(t) && ValuesOk(Number(t), items) && |done| + |items| <= max
    ensures ReadPacked(t, done, max, Packed(Number(t), items)) == Got(done + items, [])
    decreases |items|
  {
    if items == [] {
      assert done + items == done;
    } else {
      NumberBack(t, items[0].n, Packed(Number(t), items[1..]));
      PackedBack(t, done + [items[0]], items[1..], max);
      ItemsJoin(done, items[0], items[1..]);
      assert items == [items[0]] + items[1..];
      NumberIsSome(t, items[0].n);
    }
  }

  lemma {:induction false} NumberIsSome(t: Scalar, n: int)
    requires InRange(t, n)
    ensures |NumberWire(t, n)| > 0
  {
  }

  lemma {:induction false} PackedFieldBack(fields: seq<Field>, cells: seq<Cell>, i: nat, items: seq<Value>,
                                           rest: Bytes, seen: set<nat>)
    requires FieldsOk(fields) && i < |fields| == |cells| && fields[i].rule.Repeated? && fields[i].kind.Number?
    requires cells[i] == Many([]) && ValuesOk(fields[i].kind, items) && |items| <= fields[i].rule.max && items != []
    requires |ArrayWire(fields[i], items)| < MOD32
    ensures ReadFields(fields, cells, ArrayWire(fields[i], items) + rest, seen) ==
            ReadFields(fields, cells[i := Many(items)], rest, seen + {i})
  {
    var f := fields[i];
    var packed := Packed(f.kind, items);
    FieldsMeans(fields, i);
    JoinBytes(TagWire(f.tag, LENGTH_DELIMITED), Prefixed(packed), rest);
    TagBack(fields, cells, i, LENGTH_DELIMITED, Prefixed(packed) + rest, seen);
    PrefixedBack(packed, rest);
    PackedBack(f.kind.scalar, [], items, f.rule.max);
    assert [] + items == items;
  }

  lemma {:induction false} EntryBack(fields: seq<Field>, cells: seq<Cell>, i: nat, v: Value, rest: Bytes,
                                     seen: set<nat>)
    requires FieldsOk(fields) && i < |fields| == |cells| && fields[i].rule.Repeated? && !fields[i].kind.Number?
    requires cells[i].Many? && |cells[i].items| < fields[i].rule.max
    requires ValueOk(fields[i].kind, v) && ValueSound(fields[i].kind, v) && |TaggedWire(fields[i], v)| < MOD32
    ensures ReadFields(fields, cells, TaggedWire(fields[i], v) + rest, seen) ==
            if ValueEnds(fields[i].kind, v) then
              ReadFields(fields, cells[i := Many(cells[i].items + [CameValue(fields[i].kind, v)])], rest, seen + {i})
            else Rejected
    decreases TypeWeight(fields[i].kind), 1
  {
    var f := fields[i];
    FieldsMeans(fields, i);
    JoinBytes(TagWire(f.tag, WireType(f.kind)), ValueWire(f.kind, v), rest);
    TagBack(fields, cells, i, WireType(f.kind), ValueWire(f.kind, v) + rest, seen);
    ValueBack(f.kind, v, DefaultValue(f), rest);
  }

  lemma {:induction false} EntriesBack(fields: seq<Field>, cells: seq<Cell>, i: nat, items: seq<Value>, rest: Bytes,
                                       seen: set<nat>)
    requires FieldsOk(fields) && i < |fields| == |cells| && fields[i].rule.Repeated? && !fields[i].kind.Number?
    requires i in seen
    requires cells[i].Many? && ValuesOk(fields[i].kind, items) && |cells[i].items| + |items| <= fields[i].rule.max
    requires ItemsSound(fields[i].kind, items) && |Unpacked(fields[i], items)| < MOD32
    ensures ReadFields(fields, cells, Unpacked(fields[i], items) + rest, seen) ==
            if ItemsEnd(fields[i].kind, items) then
              ReadFields(fields, cells[i := Many(cells[i].items + CameItems(fields[i].kind, items))], rest, seen)
            else Rejected
    decreases TypeWeight(fields[i].kind), 3, |items|
  {
    var f := fields[i];
    if items == [] {
      assert cells[i].items + [] == cells[i].items;
      assert cells[i := Many(cells[i].items + [])] == cells;
      assert [] + rest == rest;
    } else {
      var v := items[0];
      var more := Unpacked(f, items[1..]);
      JoinBytes(TaggedWire(f, v), more, rest);
      EntryBack(fields, cells, i, v, more + rest, seen);
      assert seen + {i} == seen;
      if ValueEnds(f.kind, v) {
        var w := CameValue(f.kind, v);
        var now := cells[i := Many(cells[i].items + [w])];
        EntriesBack(fields, now, i, items[1..], rest, seen);
        ItemsJoin(cells[i].items, w, CameItems(f.kind, items[1..]));
        Overwritten(cells, i, now[i], Many(now[i].items + CameItems(f.kind, items[1..])));
      }
    }
  }

  // ----- a field, whatever its rule -----

  predicate Written(f: Field, c: Cell)
    requires CellOk(f, c)
  {
    if f.rule.Repeated? then c.items != [] else Present(f, c)
  }

  lemma {:induction false} Overwritten(cells: seq<Cell>, i: nat, a: Cell, b: Cell)
    requires i < |cells|
    ensures cells[i := a][i := b] == cells[i := b]
  {
  }

  lemma {:induction false} ArrayBack(fields: seq<Field>, cells: seq<Cell>, i: nat, items: seq<Value>, rest: Bytes,
                                     seen: set<nat>)
    requires FieldsOk(fields) && i < |fields| == |cells| && fields[i].rule.Repeated? && cells[i] == Many([])
    requires items != [] && ValuesOk(fields[i].kind, items) && |items| <= fields[i].rule.max
    requires ItemsSound(fields[i].kind, items) && |ArrayWire(fields[i], items)| < MOD32
    ensures ReadFields(fields, cells, ArrayWire(fields[i], items) + rest, seen) ==
            if ItemsEnd(fields[i].kind, items) then
              ReadFields(fields, cells[i := Many(CameItems(fields[i].kind, items))], rest, seen + {i})
            else Rejected
    decreases TypeWeight(fields[i].kind), 4
  {
    var f := fields[i];
    if f.kind.Number? {
      PackedFieldBack(fields, cells, i, items, rest, seen);
      NumbersAsTheyAre(f.kind, items);
    } else {
      var v := items[0];
      var more := Unpacked(f, items[1..]);
      JoinBytes(TaggedWire(f, v), more, rest);
      EntryBack(fields, cells, i, v, more + rest, seen);
      if ValueEnds(f.kind, v) {
        var w := CameValue(f.kind, v);
        var now := cells[i := Many(cells[i].items + [w])];
        assert cells[i].items + [w] == [w];
        EntriesBack(fields, now, i, items[1..], rest, seen + {i});
        Overwritten(cells, i, Many([w]), Many([w] + CameItems(f.kind, items[1..])));
      }
    }
  }

  /** Nothing else of the field's union is on. */
  predicate UnionFree(fields: seq<Field>, cells: seq<Cell>, i: nat)
    requires i < |fields| == |cells|
  {
    fields[i].rule.OneOf? ==>
      forall j :: 0 <= j < |fields| && j != i && fields[j].rule == fields[i].rule ==> cells[j] == Arm(false, Data([]))
  }

  lemma {:induction false} PutAlone(fields: seq<Field>, cells: seq<Cell>, i: nat, c: Cell)
    requires i < |fields| == |cells| && CellOk(fields[i], c) && !fields[i].rule.Repeated? && Present(fields[i], c)
    requires UnionFree(fields, cells, i)
    ensures Put(fields, cells, i, CameValue(fields[i].kind, c.value)) == cells[i := CameCell(fields[i], c)]
  {
    if fields[i].rule.OneOf? {
      var v := CameValue(fields[i].kind, c.value);
      var a, b := SetArm(fields, cells, i, v), cells[i := Arm(true, v)];
      assert forall j :: 0 <= j < |a| ==> a[j] == b[j];
    }
  }

  lemma {:induction false} FieldBack(fields: seq<Field>, cells: seq<Cell>, i: nat, c: Cell, rest: Bytes, seen: set<nat>)
    requires FieldsOk(fields) && i < |fields| == |cells| && cells[i] == DefaultCell(fields[i])
    requires CellOk(fields[i], c) && FieldSound(fields[i], c) && |FieldWire(fields[i], c)| < MOD32
    requires Written(fields[i], c) && (!fields[i].rule.Repeated? ==> UnionFree(fields, cells, i))
    ensures ReadFields(fields, cells, FieldWire(fields[i], c) + rest, seen) ==
            if FieldEnds(fields[i], c) then ReadFields(fields, cells[i := CameCell(fields[i], c)], rest, seen + {i})
                else Rejected
    decreases TypeWeight(fields[i].kind), 5
  {
    if fields[i].rule.Repeated? {
      ArrayBack(fields, cells, i, c.items, rest, seen);
    } else {
      TaggedBack(fields, cells, i, c.value, rest, seen);
      PutAlone(fields, cells, i, c);
    }
  }

  // ----- a message -----

  /** The first i cells as they come back, and defaults behind them. */
  function SoFar(fields: seq<Field>, cells: seq<Cell>, i: nat): (r: seq<Cell>)
    requires CellsOk(fields, cells) && i <= |fields|
    ensures |r| == |fields|
  {
    Came(fields, cells)[..i] + Defaults(fields)[i..]
  }

  lemma {:induction false} SoFarNext(fields: seq<Field>, cells: seq<Cell>, i: nat)
    requires CellsOk(fields, cells) && i < |fields|
    ensures CellOk(fields[i], cells[i]) && SoFar(fields, cells, i)[i] == DefaultCell(fields[i])
    ensures SoFar(fields, cells, i + 1) == SoFar(fields, cells, i)[i := CameCell(fields[i], cells[i])]
  {
    CameAt(fields, cells, i);
    DefaultsAt(fields, i);
  }

  lemma {:induction false} NotWritten(f: Field, c: Cell)
    requires CellOk(f, c) && !Written(f, c)
    ensures FieldWire(f, c) == [] && CameCell(f, c) == DefaultCell(f) && FieldEnds(f, c)
  {
  }

  lemma {:induction false} UnionIsFree(fields: seq<Field>, cells: seq<Cell>, i: nat)
    requires CellsOk(fields, cells) && i < |fields| && CellOk(fields[i], cells[i]) && !fields[i].rule.Repeated?
    requires Present(fields[i], cells[i])
    ensures UnionFree(fields, SoFar(fields, cells, i), i)
  {
    forall j | 0 <= j < |fields| && j != i && fields[i].rule.OneOf? && fields[j].rule == fields[i].rule
      ensures SoFar(fields, cells, i)[j] == Arm(false, Data([]))
    {
      if j < i {
        CameAt(fields, cells, j);
        OneArm(fields, cells, j, i);
      } else {
        DefaultsAt(fields, j);
      }
    }
  }

  lemma {:induction false} Range<T>(s: seq<T>, i: nat, m: nat)
    requires i < m <= |s|
    ensures s[i..m][0] == s[i] && s[i..m][1..] == s[i + 1..m]
  {
  }

  lemma {:induction false} RangeNext(fields: seq<Field>, cells: seq<Cell>, i: nat, m: nat)
    requires i < m <= |fields| == |cells| && CellsOk(fields[i..m], cells[i..m])
    ensures CellOk(fields[i], cells[i]) && CellsOk(fields[i + 1..m], cells[i + 1..m])
    ensures Wire(fields[i..m], cells[i..m]) == FieldWire(fields[i], cells[i]) + Wire(fields[i + 1..m], cells[i + 1..m])
    ensures Sound(fields[i..m], cells[i..m]) == (FieldSound(fields[i], cells[i]) &&
            Sound(fields[i + 1..m], cells[i + 1..m]))
    ensures Ends(fields[i..m], cells[i..m]) == (FieldEnds(fields[i], cells[i]) &&
            Ends(fields[i + 1..m], cells[i + 1..m]))
  {
    Range(fields, i, m);
    Range(cells, i, m);
  }

  /** What has been seen once fields i to m are read. */
  function SeenAfter(fields: seq<Field>, cells: seq<Cell>, i: nat, m: nat, seen: set<nat>): set<nat>
    requires i <= m <= |fields| == |cells| && CellsOk(fields[i..m], cells[i..m])
    decreases m - i
  {
    if i == m then seen
    else
      RangeNext(fields, cells, i, m);
      SeenAfter(fields, cells, i + 1, m, if Written(fields[i], cells[i]) then seen + {i} else seen)
  }

  /** All of the required ones, and nothing but fields i to m. */
  lemma {:induction false} SeenAfterHas(fields: seq<Field>, cells: seq<Cell>, i: nat, m: nat, seen: set<nat>, j: nat)
    requires i <= m <= |fields| == |cells| && CellsOk(fields[i..m], cells[i..m])
    ensures j in seen ==> j in SeenAfter(fields, cells, i, m, seen)
    ensures i <= j < m && fields[j].rule.Required? ==> j in SeenAfter(fields, cells, i, m, seen)
    ensures j in SeenAfter(fields, cells, i, m, seen) ==> j in seen || i <= j < m
    decreases m - i
  {
    if i < m {
      RangeNext(fields, cells, i, m);
      SeenAfterHas(fields, cells, i + 1, m, if Written(fields[i], cells[i]) then seen + {i} else seen, j);
    }
  }

  /** Fields i to m on the wire: all of them come back, or there is a failure at the first text that is not
      terminated. */
  lemma {:induction false} FieldsBack(fields: seq<Field>, cells: seq<Cell>, i: nat, m: nat, seen: set<nat>)
    requires FieldsOk(fields) && CellsOk(fields, cells) && i <= m <= |fields| && CellsOk(fields[i..m], cells[i..m])
    requires Sound(fields[i..m], cells[i..m]) && |Wire(fields[i..m], cells[i..m])| < MOD32
    ensures ReadFields(fields, SoFar(fields, cells, i), Wire(fields[i..m], cells[i..m]), seen) ==
            if Ends(fields[i..m], cells[i..m])
            then Decoded(SoFar(fields, cells, m), SeenAfter(fields, cells, i, m, seen))
            else Rejected
    decreases FieldsWeight(fields), 8, m - i
  {
    if i < m {
      var f, c := fields[i], cells[i];
      var more := Wire(fields[i + 1..m], cells[i + 1..m]);
      RangeNext(fields, cells, i, m);
      WeightOf(fields, i);
      FieldStep(fields, cells, i, more, seen);
      FieldsBack(fields, cells, i + 1, m, if Written(f, c) then seen + {i} else seen);
    }
  }

  lemma {:induction false} FieldStep(fields: seq<Field>, cells: seq<Cell>, i: nat, more: Bytes, seen: set<nat>)
    requires FieldsOk(fields) && CellsOk(fields, cells) && i < |fields| && CellOk(fields[i], cells[i])
    requires FieldSound(fields[i], cells[i]) && |FieldWire(fields[i], cells[i])| < MOD32
    ensures ReadFields(fields, SoFar(fields, cells, i), FieldWire(fields[i], cells[i]) + more, seen) ==
            if FieldEnds(fields[i], cells[i]) then
              ReadFields(fields, SoFar(fields, cells, i + 1), more, if Written(fields[i], cells[i]) then seen + {i}
                  else seen)
            else Rejected
    decreases TypeWeight(fields[i].kind), 6
  {
    var f, c, now := fields[i], cells[i], SoFar(fields, cells, i);
    SoFarNext(fields, cells, i);
    if Written(f, c) {
      if !f.rule.Repeated? {
        UnionIsFree(fields, cells, i);
      }
      FieldBack(fields, now, i, c, more, seen);
    } else {
      NotWritten(f, c);
      assert [] + more == more && now[i := now[i]] == now;
    }
  }

  /** Decoding an encoded message gives back its presence, counts and values just when every text in it is terminated
      within its buffer; otherwise the decoder rejects it. */
  lemma {:induction false} DecodeBack(fields: seq<Field>, cells: seq<Cell>)
    requires FieldsOk(fields) && CellsOk(fields, cells) && Sound(fields, cells) && |Wire(fields, cells)| < MOD32
    ensures var r := Decode(fields, Wire(fields, cells));
            if Ends(fields, cells) then r.Decoded? && r.cells == Came(fields, cells) else r == Rejected
    decreases FieldsWeight(fields), 9
  {
    var n := |fields|;
    assert fields[0..n] == fields && cells[0..n] == cells;
    assert SoFar(fields, cells, 0) == Defaults(fields);
    assert SoFar(fields, cells, n) == Came(fields, cells);
    FieldsBack(fields, cells, 0, n, {});
    forall j: nat | j < n && fields[j].rule.Required? ensures j in SeenAfter(fields, cells, 0, n, {}) {
      SeenAfterHas(fields, cells, 0, n, {}, j);
    }
  }

  /** A text that fills its buffer: the encoder takes it, and the decoder rejects what the encoder wrote. */
  lemma {:induction false} FullTextIsRejected()
    ensures var fields, cells := [Field(1, Required, Text(1), Data([]))], [One(Data([97]))];
            && FieldsOk(fields) && CellsOk(fields, cells) && Sound(fields, cells)
            && Wire(fields, cells) == [10, 1, 97] && Decode(fields, Wire(fields, cells)) == Rejected
  {
    var fields, cells := [Field(1, Required, Text(1), Data([]))], [One(Data([97]))];
    assert fields[1..] == [] && cells[1..] == [];
    assert FieldOk(fields[0]) && CellOk(fields[0], cells[0]) && FieldSound(fields[0], cells[0]);
    assert !FieldEnds(fields[0], cells[0]);
    DecodeBack(fields, cells);
  }
}
