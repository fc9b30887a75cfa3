/** Message descriptors and message structs (nanopb: pb.h, pb_common), statically allocated: fields with their tags,
    types and rules, the cells of a struct that hold them, and the cyclic iterator that finds a field by its tag. */
module PbFields {
  import opened Keys
  import opened PbWire

  /** The packable types; a width is in bits. */
  datatype Scalar = BOOL | VARINT(width: nat) | UVARINT(width: nat) | SVARINT(width: nat) | FIXED32 | FIXED64

  datatype LType =
    | Number(scalar: Scalar)
    | BytesUpTo(max: nat)
    | Text(size: nat)
    | FixedBytes(length: nat)
    | Submessage(fields: seq<Field>)

  /** `Singular` has no has_ flag; the fields of one oneof share its which_ field. */
  datatype Rule = Required | Optional | Singular | Repeated(max: nat) | OneOf(union: nat)

  /** `initial` is the default value of a field that is no submessage. */
  datatype Field = Field(tag: nat, rule: Rule, kind: LType, initial: Value)

  /** A text is what stands in its buffer before the first zero byte. */
  datatype Value = Num(n: int) | Data(data: Bytes) | Msg(cells: seq<Cell>)

  datatype Cell = One(value: Value) | May(has: bool, value: Value) | Many(items: seq<Value>) | Arm(on: bool,
      value: Value)

  function FieldsWeight(fields: seq<Field>): nat {
    if fields == [] then 0
    else
      assert fields[0].kind < fields[0];
      1 + TypeWeight(fields[0].kind) + FieldsWeight(fields[1..])
  }

  function TypeWeight(kind: LType): nat {
    if kind.Submessage? then 1 + FieldsWeight(kind.fields) else 0
  }

  lemma {:induction false} WeightOf(fields: seq<Field>, i: nat)
    requires i < |fields|
    ensures TypeWeight(fields[i].kind) < FieldsWeight(fields)
  {
    if i > 0 {
      WeightOf(fields[1..], i - 1);
    }
  }

  // ----- what a struct can hold -----

  predicate WidthOk(width: nat) {
    width in [8, 16, 32, 64]
  }

  predicate ScalarOk(t: Scalar) {
    match t
    case VARINT(w) => WidthOk(w)
    case UVARINT(w) => WidthOk(w)
    case SVARINT(w) => WidthOk(w)
    case _ => true
  }

  function Half(width: nat): int {
    if width == 8 then 0x80 else if width == 16 then 0x8000 else if width == 32 then 0x8000_0000
        else 0x8000_0000_0000_0000
  }

  predicate InRange(t: Scalar, n: int) {
    match t
    case BOOL => 0 <= n <= 1
    case VARINT(w) => -Half(w) <= n < Half(w)
    case UVARINT(w) => 0 <= n < 2 * Half(w)
    case SVARINT(w) => -Half(w) <= n < Half(w)
    case FIXED32 => 0 <= n < MOD32
    case FIXED64 => 0 <= n < MOD64
  }

  predicate ValueOk(kind: LType, v: Value)
    decreases TypeWeight(kind), 0
  {
    match kind
    case Number(t) => v.Num? && InRange(t, v.n)
    case BytesUpTo(_) => v.Data?
    case Text(size) => v.Data? && |v.data| <= size && 0 !in v.data
    case FixedBytes(n) => v.Data? && |v.data| == n
    case Submessage(fields) => v.Msg? && CellsOk(fields, v.cells)
  }

  predicate ValuesOk(kind: LType, items: seq<Value>)
    decreases TypeWeight(kind), 1, |items|
  {
    items == [] || (ValueOk(kind, items[0]) && ValuesOk(kind, items[1..]))
  }

  predicate CellOk(f: Field, c: Cell)
    decreases TypeWeight(f.kind), 2
  {
    match f.rule
    case Required => c.One? && ValueOk(f.kind, c.value)
    case Singular => c.One? && ValueOk(f.kind, c.value)
    case Optional => c.May? && ValueOk(f.kind, c.value)
    case Repeated(_) => c.Many? && ValuesOk(f.kind, c.items)
    case OneOf(_) => c.Arm? && (c.on ==> ValueOk(f.kind, c.value))
  }

  /** Each field has a cell of its shape, and no union has two arms at once. */
  predicate CellsOk(fields: seq<Field>, cells: seq<Cell>)
    decreases FieldsWeight(fields), 0
  {
    && |fields| == |cells|
    && (fields == [] || (CellOk(fields[0], cells[0]) && AloneOn(fields, cells) && CellsOk(fields[1..], cells[1..])))
  }

  /** No later arm of the first field's union is on beside it. */
  predicate AloneOn(fields: seq<Field>, cells: seq<Cell>)
    requires |fields| == |cells| > 0
  {
    fields[0].rule.OneOf? && cells[0].Arm? && cells[0].on ==>
      forall i :: 1 <= i < |fields| && fields[i].rule == fields[0].rule && cells[i].Arm? ==> !cells[i].on
  }

  lemma {:induction false} CellsMeans(fields: seq<Field>, cells: seq<Cell>, i: nat)
    requires CellsOk(fields, cells) && i < |fields|
    ensures CellOk(fields[i], cells[i])
  {
    if i > 0 {
      CellsMeans(fields[1..], cells[1..], i - 1);
    }
  }

  lemma {:induction false} OneArm(fields: seq<Field>, cells: seq<Cell>, i: nat, j: nat)
    requires CellsOk(fields, cells) && i < j < |fields| && fields[i].rule == fields[j].rule && fields[i].rule.OneOf?
    ensures cells[i].Arm? && cells[j].Arm? && !(cells[i].on && cells[j].on)
  {
    CellsMeans(fields, cells, i);
    CellsMeans(fields, cells, j);
    if i > 0 {
      OneArm(fields[1..], cells[1..], i - 1, j - 1);
    }
  }

  lemma {:induction false} ValuesMeans(kind: LType, items: seq<Value>, i: nat)
    requires ValuesOk(kind, items) && i < |items|
    ensures ValueOk(kind, items[i])
  {
    if i > 0 {
      ValuesMeans(kind, items[1..], i - 1);
    }
  }

  // ----- descriptors -----

  predicate TypeOk(kind: LType)
    decreases TypeWeight(kind), 0
  {
    match kind
    case Number(t) => ScalarOk(t)
    case Submessage(fields) => FieldsOk(fields)
    case _ => true
  }

  predicate FieldOk(f: Field)
    decreases TypeWeight(f.kind), 1
  {
    && 0 < f.tag && f.tag * 8 + 7 < MOD32 && TypeOk(f.kind)
    && (!f.kind.Submessage? ==> ValueOk(f.kind, f.initial))
    && (f.rule.Singular? && !f.kind.Submessage? && !f.kind.FixedBytes? ==> IsZero(f.kind, f.initial))
  }

  /** The generator numbers the fields of a message with different tags. */
  predicate FieldsOk(fields: seq<Field>)
    decreases FieldsWeight(fields), 0
  {
    fields == [] || (FieldOk(fields[0]) && FieldsOk(fields[1..]) && forall i :: 1 <= i < |fields| ==>
        fields[i].tag != fields[0].tag)
  }

  lemma {:induction false} FieldsMeans(fields: seq<Field>, i: nat)
    requires FieldsOk(fields) && i < |fields|
    ensures FieldOk(fields[i])
    ensures forall j :: 0 <= j < |fields| && j != i ==> fields[j].tag != fields[i].tag
  {
    if i > 0 {
      FieldsMeans(fields[1..], i - 1);
      assert forall j :: 1 <= j < |fields| ==> fields[1..][j - 1] == fields[j];
    } else {
      forall j | 1 <= j < |fields| ensures fields[j].tag != fields[0].tag {
      }
    }
  }

  /** What counts as absent for a field without a has_ flag. */
  predicate IsZero(kind: LType, v: Value)
    decreases TypeWeight(kind), 0
  {
    match kind
    case Number(_) => v.Num? && v.n == 0
    case BytesUpTo(_) => v.Data? && v.data == []
    case Text(_) => v.Data? && v.data == []
    case FixedBytes(n) => n == 0
    case Submessage(fields) => v.Msg? && AllZero(fields, v.cells)
  }

  predicate CellZero(f: Field, c: Cell)
    decreases TypeWeight(f.kind), 1
  {
    match f.rule
    case Required => false
    case Singular => c.One? && IsZero(f.kind, c.value)
    case Optional => c.May? && !c.has
    case Repeated(_) => c.Many? && c.items == []
    case OneOf(_) => c.Arm? && !c.on
  }

  predicate AllZero(fields: seq<Field>, cells: seq<Cell>)
    decreases FieldsWeight(fields), 0
  {
    |fields| == |cells| && (fields == [] || (CellZero(fields[0], cells[0]) && AllZero(fields[1..], cells[1..])))
  }

  // ----- defaults -----

  function DefaultValue(f: Field): Value
    decreases TypeWeight(f.kind), 0
  {
    if f.kind.Submessage? then Msg(Defaults(f.kind.fields)) else f.initial
  }

  /** pb_field_set_to_default. */
  function DefaultCell(f: Field): Cell
    decreases TypeWeight(f.kind), 1
  {
    match f.rule
    case Required => One(DefaultValue(f))
    case Singular => One(DefaultValue(f))
    case Optional => May(false, DefaultValue(f))
    case Repeated(_) => Many([])
    case OneOf(_) => Arm(false, Data([]))
  }

  /** pb_message_set_to_defaults. */
  function Defaults(fields: seq<Field>): (cells: seq<Cell>)
    ensures |cells| == |fields|
    decreases FieldsWeight(fields), 0
  {
    if fields == [] then [] else [DefaultCell(fields[0])] + Defaults(fields[1..])
  }

  lemma {:induction false} DefaultsAt(fields: seq<Field>, i: nat)
    requires i < |fields|
    ensures Defaults(fields)[i] == DefaultCell(fields[i])
  {
    if i > 0 {
      DefaultsAt(fields[1..], i - 1);
    }
  }

  // ----- the field iterator -----

  /** How many required fields come before field i. */
  function RequiredBefore(fields: seq<Field>, i: nat): nat
    requires i <= |fields|
  {
    if i == 0 then 0 else RequiredBefore(fields, i - 1) + if fields[i - 1].rule.Required? then 1 else 0
  }

  /** pb_field_iter: walks the fields in a circle, counting the required ones from the start. */
  class FieldIter {
    const fields: seq<Field>
    var pos: nat
    var requiredFieldIndex: nat

    /** A message type without fields has the iterator on its terminator. */
    ghost predicate Ok()
      reads this
    {
      && (if fields == [] then pos == 0 else pos < |fields|)
      && requiredFieldIndex == RequiredBefore(fields, pos)
    }

    predicate At(tag: nat)
      reads this
    {
      pos < |fields| && fields[pos].tag == tag
    }

    constructor (fields: seq<Field>)
      ensures Ok() && this.fields == fields && pos == 0
    {
      this.fields := fields;
      pos, requiredFieldIndex := 0, 0;
    }

    /** False when it wraps back to the beginning. */
    method Next() returns (more: bool)
      requires Ok()
      modifies this
      ensures Ok() && more == (old(pos) + 1 < |fields|) && pos == if more then old(pos) + 1 else 0
    {
      if fields == [] {
        return false;
      }
      var previous := fields[pos];
      if pos + 1 == |fields| {
        pos, requiredFieldIndex := 0, 0;
        return false;
      }
      pos := pos + 1;
      if previous.rule.Required? {
        requiredFieldIndex := requiredFieldIndex + 1;
      }
      return true;
    }

    /** Searches once around, from wherever the iterator stands. */
    method Find(tag: nat) returns (found: bool)
      requires Ok()
      modifies this
      ensures Ok() && (found ==> At(tag))
      ensures found <==> exists i :: 0 <= i < |fields| && fields[i].tag == tag
      ensures !found ==> pos == old(pos)
    {
      var start := pos;
      if At(tag) {
        return true;
      }
      var more := Next();
      while pos != start
        invariant Ok() && Searched(start, pos, tag)
        decreases if pos > start then |fields| - pos + start else start - pos
      {
        if At(tag) {
          return true;
        }
        more := Next();
      }
      return false;
    }

    /** No field from `start` up to p, around the end, has the tag; standing at `start`, none at all. */
    ghost predicate Searched(start: nat, p: nat, tag: nat) {
      && (start < |fields| ==> fields[start].tag != tag)
      && if p > start then forall i :: start <= i < p && i < |fields| ==> fields[i].tag != tag
         else forall i :: 0 <= i < |fields| && (i < p || start <= i) ==> fields[i].tag != tag
    }
  }
}
