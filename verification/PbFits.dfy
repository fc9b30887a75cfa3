/** Whatever bytes are decoded (nanopb: pb_decode), what comes of them fits the struct, and can be sent on. */
module PbFits {
  import opened Keys
  import opened Coding
  import opened PbWire
  import opened PbFields
  import opened PbEncode
  import opened PbDecode
  import opened PbRoundTrip

  // ----- what fits -----

  /** A number in its range, bytes within their buffer, a text with its end, and a message all of whose cells fit. */
  predicate Fits(kind: LType, v: Value)
    decreases TypeWeight(kind), 0
  {
    match kind
    case Number(t) => v.Num? && InRange(t, v.n)
    case BytesUpTo(max) => v.Data? && |v.data| <= max
    case Text(size) => v.Data? && |v.data| < size && 0 !in v.data
    case FixedBytes(n) => v.Data? && |v.data| == n
    case Submessage(fields) => v.Msg? && AllFit(fields, v.cells)
  }

  predicate ItemsFit(kind: LType, items: seq<Value>)
    decreases TypeWeight(kind), 1, |items|
  {
    items == [] || (Fits(kind, items[0]) && ItemsFit(kind, items[1..]))
  }

  /** An array has no more items than there is room for. */
  predicate CellFits(f: Field, c: Cell)
    decreases TypeWeight(f.kind), 2
  {
    match f.rule
    case Required => c.One? && Fits(f.kind, c.value)
    case Singular => c.One? && Fits(f.kind, c.value)
    case Optional => c.May? && Fits(f.kind, c.value)
    case Repeated(max) => c.Many? && |c.items| <= max && ItemsFit(f.kind, c.items)
    case OneOf(_) => c.Arm? && (c.on ==> Fits(f.kind, c.value))
  }

  /** At most one arm of a union is on. */
  predicate AllFit(fields: seq<Field>, cells: seq<Cell>)
    decreases FieldsWeight(fields), 0
  {
    && |fields| == |cells|
    && (fields == [] || (CellFits(fields[0], cells[0]) && AloneOn(fields, cells) && AllFit(fields[1..], cells[1..])))
  }

  lemma {:induction false} FitsOne(fields: seq<Field>, cells: seq<Cell>, i: nat)
    requires AllFit(fields, cells) && i < |fields|
    ensures CellFits(fields[i], cells[i])
  {
    if i > 0 {
      FitsOne(fields[1..], cells[1..], i - 1);
    }
  }

  /** The default values of a type fit, those of submessages included. */
  predicate ProperType(kind: LType, initial: Value)
    decreases TypeWeight(kind), 0
  {
    if kind.Submessage? then Proper(kind.fields) else Fits(kind, initial)
  }

  predicate Proper(fields: seq<Field>)
    decreases FieldsWeight(fields), 0
  {
    fields == [] || (ProperType(fields[0].kind, fields[0].initial) && Proper(fields[1..]))
  }

  lemma {:induction false} ProperOne(fields: seq<Field>, i: nat)
    requires Proper(fields) && i < |fields|
    ensures ProperType(fields[i].kind, fields[i].initial)
  {
    if i > 0 {
      ProperOne(fields[1..], i - 1);
    }
  }

  lemma {:induction false} DefaultFits(f: Field)
    requires ProperType(f.kind, f.initial)
    ensures Fits(f.kind, DefaultValue(f)) && CellFits(f, DefaultCell(f))
    decreases TypeWeight(f.kind), 1
  {
    if f.kind.Submessage? {
      DefaultsFit(f.kind.fields);
    }
  }

  lemma {:induction false} DefaultsFit(fields: seq<Field>)
    requires Proper(fields)
    ensures AllFit(fields, Defaults(fields))
    decreases FieldsWeight(fields), 0
  {
    if fields != [] {
      DefaultFits(fields[0]);
      DefaultsFit(fields[1..]);
    }
  }

  // ----- it can be sent on -----

  lemma {:induction false} ValueGoes(kind: LType, v: Value)
    requires Fits(kind, v)
    ensures ValueOk(kind, v) && ValueSound(kind, v) && ValueEnds(kind, v)
    decreases TypeWeight(kind), 0
  {
    if kind.Submessage? {
      MessageGoes(kind.fields, v.cells);
    }
  }

  lemma {:induction false} ItemsGo(kind: LType, items: seq<Value>)
    requires ItemsFit(kind, items)
    ensures ValuesOk(kind, items) && ItemsSound(kind, items) && ItemsEnd(kind, items)
    decreases TypeWeight(kind), 1, |items|
  {
    if items != [] {
      ValueGoes(kind, items[0]);
      ItemsGo(kind, items[1..]);
    }
  }

  lemma {:induction false} CellGoes(f: Field, c: Cell)
    requires CellFits(f, c)
    ensures CellOk(f, c) && FieldSound(f, c) && FieldEnds(f, c)
    decreases TypeWeight(f.kind), 2
  {
    match f.rule
    case Repeated(_) => ItemsGo(f.kind, c.items);
    case OneOf(_) => if c.on { ValueGoes(f.kind, c.value); }
    case _ => ValueGoes(f.kind, c.value);
  }

  lemma {:induction false} MessageGoes(fields: seq<Field>, cells: seq<Cell>)
    requires AllFit(fields, cells)
    ensures CellsOk(fields, cells) && Sound(fields, cells) && Ends(fields, cells)
    decreases FieldsWeight(fields), 0
  {
    if fields != [] {
      CellGoes(fields[0], cells[0]);
      MessageGoes(fields[1..], cells[1..]);
    }
  }

  // ----- values that are read -----

  lemma {:induction false} NumberFits(t: Scalar, s: Bytes)
    ensures ReadNumber(t, s).Got? ==> Fits(Number(t), ReadNumber(t, s).value)
  {
  }

  lemma {:induction false} UpToZeroFits(b: Bytes)
    ensures |UpToZero(b)| <= |b| && 0 !in UpToZero(b)
  {
    if b != [] && b[0] != 0 {
      UpToZeroFits(b[1..]);
    }
  }

  lemma {:induction false} ZerosFit(n: nat)
    ensures |Zeros(n)| == n
  {
    if n > 0 {
      ZerosFit(n - 1);
    }
  }

  lemma {:induction false} StoredFits(kind: LType, b: Bytes, rest: Bytes)
    ensures Stored(kind, b, rest).Got? ==> Fits(kind, Stored(kind, b, rest).value)
  {
    UpToZeroFits(b);
    if kind.FixedBytes? {
      ZerosFit(kind.length);
    }
  }

  lemma {:induction false} OneMoreFits(kind: LType, items: seq<Value>, v: Value)
    requires ItemsFit(kind, items) && Fits(kind, v)
    ensures ItemsFit(kind, items + [v])
    decreases |items|
  {
    if items == [] {
      assert [v][1..] == [] && items + [v] == [v];
    } else {
      OneMoreFits(kind, items[1..], v);
      assert (items + [v])[1..] == items[1..] + [v];
    }
  }

  lemma {:induction false} PackedFits(t: Scalar, items: seq<Value>, max: nat, s: Bytes)
    requires ItemsFit(Number(t), items) && |items| <= max
    ensures var r := ReadPacked(t, items, max, s); r.Got? ==> |r.value| <= max && ItemsFit(Number(t), r.value)
    decreases |s|
  {
    if s != [] && |items| < max && ReadNumber(t, s).Got? {
      NumberFits(t, s);
      OneMoreFits(Number(t), items, ReadNumber(t, s).value);
      PackedFits(t, items + [ReadNumber(t, s).value], max, ReadNumber(t, s).rest);
    }
  }

  /** What a value is decoded on top of: for a submessage, cells that fit. */
  predicate BaseFits(kind: LType, before: Value) {
    kind.Submessage? ==> Proper(kind.fields) && AllFit(kind.fields, CellsOf(kind.fields, before))
  }

  lemma {:induction false} BaseOfFitting(kind: LType, initial: Value, before: Value)
    requires Fits(kind, before) && ProperType(kind, initial)
    ensures BaseFits(kind, before)
  {
  }

  lemma {:induction false} ValueReadFits(kind: LType, before: Value, s: Bytes)
    requires BaseFits(kind, before)
    ensures ReadValue(kind, before, s).Got? ==> Fits(kind, ReadValue(kind, before, s).value)
    decreases |s|, 1
  {
    if kind.Number? {
      NumberFits(kind.scalar, s);
    } else if TakePrefixed(s).Got? {
      var b := TakePrefixed(s).value;
      if kind.Submessage? {
        MessageFits(kind.fields, CellsOf(kind.fields, before), b, {});
      } else {
        StoredFits(kind, b, TakePrefixed(s).rest);
      }
    }
  }

  // ----- cells that are set -----

  lemma {:induction false} SetFits(fields: seq<Field>, cells: seq<Cell>, i: nat, c: Cell)
    requires AllFit(fields, cells) && i < |fields| && CellFits(fields[i], c) && !fields[i].rule.OneOf?
    ensures AllFit(fields, cells[i := c])
  {
    if i > 0 {
      SetFits(fields[1..], cells[1..], i - 1, c);
      assert cells[i := c][1..] == cells[1..][i - 1 := c];
      assert forall j :: 1 <= j < |fields| && fields[j].rule == fields[0].rule && fields[0].rule.OneOf? ==> j != i;
    } else {
      assert cells[0 := c][1..] == cells[1..];
    }
  }

  /** One arm on, the others of its union off, and the rest as it was. */
  predicate Switched(fields: seq<Field>, cells: seq<Cell>, i: nat, v: Value, r: seq<Cell>) {
    && |cells| == |fields| == |r| && i < |fields|
    && forall j :: 0 <= j < |fields| ==>
         if j == i then r[j] == Arm(true, v)
         else if fields[j].rule == fields[i].rule then r[j].Arm? && !r[j].on
         else r[j] == cells[j]
  }

  lemma {:induction false} AloneStays(fields: seq<Field>, cells: seq<Cell>, r: seq<Cell>)
    requires |cells| == |fields| == |r| > 0 && AloneOn(fields, cells)
    requires r[0] == cells[0] || !(r[0].Arm? && r[0].on)
    requires forall j :: 1 <= j < |fields| && fields[j].rule == fields[0].rule ==>
               r[j] == cells[j] || !(r[j].Arm? && r[j].on)
    ensures AloneOn(fields, r)
  {
  }

  lemma {:induction false} SwitchFits(fields: seq<Field>, cells: seq<Cell>, i: nat, v: Value, r: seq<Cell>)
    requires AllFit(fields, cells) && Switched(fields, cells, i, v, r)
    requires fields[i].rule.OneOf? && Fits(fields[i].kind, v)
    ensures AllFit(fields, r)
  {
    if i > 0 {
      SwitchFits(fields[1..], cells[1..], i - 1, v, r[1..]);
      if fields[0].rule == fields[i].rule {
        assert r[0].Arm? && !r[0].on;
        assert CellFits(fields[0], r[0]) && AloneOn(fields, r);
      } else {
        AloneStays(fields, cells, r);
      }
    } else {
      RestOff(fields[1..], cells[1..], fields[0].rule, r[1..]);
      assert AloneOn(fields, r);
    }
  }

  lemma {:induction false} RestOff(fields: seq<Field>, cells: seq<Cell>, rule: Rule, r: seq<Cell>)
    requires AllFit(fields, cells) && |r| == |fields| && rule.OneOf?
    requires forall j :: 0 <= j < |fields| ==>
               if fields[j].rule == rule then r[j].Arm? && !r[j].on else r[j] == cells[j]
    ensures AllFit(fields, r)
  {
    if fields != [] {
      RestOff(fields[1..], cells[1..], rule, r[1..]);
      AloneStays(fields, cells, r);
    }
  }

  // ----- fields and messages -----

  lemma {:induction false} ArrayReadFits(fields: seq<Field>, cells: seq<Cell>, i: nat, wireType: nat, s: Bytes)
    requires Proper(fields) && AllFit(fields, cells) && i < |fields| && fields[i].rule.Repeated?
    ensures var r := ReadField(fields, cells, i, wireType, s); r.Got? ==> AllFit(fields, r.value)
    decreases |s|, 2
  {
    var f, c := fields[i], cells[i];
    FitsOne(fields, cells, i);
    ProperOne(fields, i);
    if wireType == 2 && f.kind.Number? {
      if TakePrefixed(s).Got? {
        PackedFits(f.kind.scalar, c.items, f.rule.max, TakePrefixed(s).value);
        var r := ReadPacked(f.kind.scalar, c.items, f.rule.max, TakePrefixed(s).value);
        if r.Got? {
          SetFits(fields, cells, i, Many(r.value));
        }
      }
    } else if |c.items| < f.rule.max {
      DefaultFits(f);
      ValueReadFits(f.kind, DefaultValue(f), s);
      var r := ReadValue(f.kind, DefaultValue(f), s);
      if r.Got? {
        OneMoreFits(f.kind, c.items, r.value);
        SetFits(fields, cells, i, Many(c.items + [r.value]));
      }
    }
  }

  lemma {:induction false} ArmReadFits(fields: seq<Field>, cells: seq<Cell>, i: nat, wireType: nat, s: Bytes)
    requires Proper(fields) && AllFit(fields, cells) && i < |fields| && fields[i].rule.OneOf?
    ensures var r := ReadField(fields, cells, i, wireType, s); r.Got? ==> AllFit(fields, r.value)
    decreases |s|, 2
  {
    var f := fields[i];
    var before := if f.kind.Submessage? then DefaultValue(f) else OldValue(cells[i]);
    ProperOne(fields, i);
    DefaultFits(f);
    ValueReadFits(f.kind, before, s);
    var r := ReadValue(f.kind, before, s);
    if r.Got? {
      SwitchFits(fields, cells, i, r.value, SetArm(fields, cells, i, r.value));
    }
  }

  lemma {:induction false} PlainReadFits(fields: seq<Field>, cells: seq<Cell>, i: nat, wireType: nat, s: Bytes)
    requires Proper(fields) && AllFit(fields, cells) && i < |fields|
    requires !fields[i].rule.OneOf? && !fields[i].rule.Repeated?
    ensures var r := ReadField(fields, cells, i, wireType, s); r.Got? ==> AllFit(fields, r.value)
    decreases |s|, 2
  {
    var f, c := fields[i], cells[i];
    FitsOne(fields, cells, i);
    ProperOne(fields, i);
    BaseOfFitting(f.kind, f.initial, OldValue(c));
    ValueReadFits(f.kind, OldValue(c), s);
    var r := ReadValue(f.kind, OldValue(c), s);
    if r.Got? {
      SetFits(fields, cells, i, if f.rule.Optional? then May(true, r.value) else One(r.value));
    }
  }

  lemma {:induction false} MessageFits(fields: seq<Field>, cells: seq<Cell>, s: Bytes, seen: set<nat>)
    requires Proper(fields) && AllFit(fields, cells)
    ensures var r := ReadFields(fields, cells, s, seen); r.Decoded? ==> AllFit(fields, r.cells)
    decreases |s|, 3
  {
    if s != [] && Varint32(s).Got? && Varint32(s).value != 0 {
      var key, rest := Varint32(s).value, Varint32(s).rest;
      var i := Index(fields, key / 8);
      if i == |fields| {
        var skipped := SkipField(key % 8, rest);
        if skipped.Got? {
          MessageFits(fields, cells, skipped.rest, seen);
        }
      } else {
        if fields[i].rule.Repeated? {
          ArrayReadFits(fields, cells, i, key % 8, rest);
        } else if fields[i].rule.OneOf? {
          ArmReadFits(fields, cells, i, key % 8, rest);
        } else {
          PlainReadFits(fields, cells, i, key % 8, rest);
        }
        var r := ReadField(fields, cells, i, key % 8, rest);
        if r.Got? {
          MessageFits(fields, r.value, r.rest, seen + {i});
        }
      }
    }
  }

  /** Whatever the bytes, a message that is accepted fits its struct: numbers in range, bytes and texts within their
      buffers, arrays no longer than their room, and one arm of each union at most. */
  lemma {:induction false} DecodedFits(fields: seq<Field>, s: Bytes)
    requires Proper(fields) && Decode(fields, s).Decoded?
    ensures AllFit(fields, Decode(fields, s).cells)
  {
    DefaultsFit(fields);
    MessageFits(fields, Defaults(fields), s, {});
  }

  /** So it can be sent on: it is encoded without an error, and whoever decodes that gets the same presence, counts and
      values. */
  lemma {:induction false} DecodedGoesOn(fields: seq<Field>, s: Bytes, cells: seq<Cell>)
    requires Proper(fields) && FieldsOk(fields) && Decode(fields, s).Decoded? && cells == Decode(fields, s).cells
    ensures CellsOk(fields, cells) && Sound(fields, cells)
    ensures var r := Decode(fields, Wire(fields, cells));
            |Wire(fields, cells)| < MOD32 ==> r.Decoded? && r.cells == Came(fields, cells)
  {
    DecodedFits(fields, s);
    MessageGoes(fields, cells);
    if |Wire(fields, cells)| < MOD32 {
      DecodeBack(fields, cells);
    }
  }
}
