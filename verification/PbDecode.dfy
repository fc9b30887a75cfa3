/** The decoder (nanopb: pb_decode), on any bytes. */
module PbDecode {
  import opened Keys
  import opened Coding
  import opened PbWire
  import opened PbFields

  // ----- fields that the descriptor does not know -----

  function SkipVarint(s: Bytes): (r: Read<nat>)
    ensures r.Got? ==> |r.rest| < |s|
  {
    if s == [] then Fail else if s[0] >= 0x80 then SkipVarint(s[1..]) else Got(0, s[1..])
  }

  function SkipBytes(s: Bytes, n: nat): (r: Read<nat>)
    ensures r.Got? ==> |r.rest| + n == |s|
  {
    if |s| < n then Fail else Got(0, s[n..])
  }

  function SkipField(wireType: nat, s: Bytes): (r: Read<nat>)
    ensures r.Got? ==> |r.rest| <= |s|
  {
    match wireType
    case 0 => SkipVarint(s)
    case 1 => SkipBytes(s, 8)
    case 2 => (match TakePrefixed(s) case Fail => Fail case Got(_, rest) => Got(0, rest))
    case 5 => SkipBytes(s, 4)
    case _ => Fail
  }

  // ----- values -----

  function Checked(t: Scalar, n: int, rest: Bytes): Read<Value> {
    if ScalarOk(t) && InRange(t, n) then Got(Num(n), rest) else Fail
  }

  /** Numbers of up to 32 bits may come as negative numbers of 32 or of 64 bits. */
  function ReadNumber(t: Scalar, s: Bytes): (r: Read<Value>)
    ensures r.Got? ==> |r.rest| < |s|
  {
    match t
    case BOOL => (match Varint32(s) case Fail => Fail case Got(u, rest) => Got(Num(if u != 0 then 1 else 0), rest))
    case VARINT(w) =>
      (match Varint64(s) case Fail => Fail case Got(u, rest) => Checked(t, if w == 64 then Signed64(u)
          else Signed32(u), rest))
    case UVARINT(_) => (match Varint64(s) case Fail => Fail case Got(u, rest) => Checked(t, u, rest))
    case SVARINT(_) => (match Varint64(s) case Fail => Fail case Got(u, rest) => Checked(t, Unzigzag(u), rest))
    case FIXED32 => (match Take(s, 4) case Fail => Fail case Got(b, rest) => Got(Num(DecodeFixed32(b)), rest))
    case FIXED64 => (match Take(s, 8) case Fail => Fail case Got(b, rest) => Got(Num(DecodeFixed64(b)), rest))
  }

  function UpToZero(b: Bytes): Bytes {
    if b == [] || b[0] == 0 then [] else [b[0]] + UpToZero(b[1..])
  }

  function Zeros(n: nat): Bytes {
    if n == 0 then [] else [0] + Zeros(n - 1)
  }

  /** Byte strings must fit their buffer, and a text with the zero byte behind it. */
  function Stored(kind: LType, b: Bytes, rest: Bytes): (r: Read<Value>)
    ensures r.Got? ==> r.rest == rest
  {
    match kind
    case BytesUpTo(max) => if |b| > max then Fail else Got(Data(b), rest)
    case Text(size) => if |b| + 1 > size then Fail else Got(Data(UpToZero(b)), rest)
    case FixedBytes(n) => if b == [] then Got(Data(Zeros(n)), rest) else if |b| != n then Fail else Got(Data(b), rest)
    case _ => Fail
  }

  /** The cells of a submessage that is there already. */
  function CellsOf(fields: seq<Field>, v: Value): (cells: seq<Cell>)
    ensures |cells| == |fields|
  {
    if v.Msg? && |v.cells| == |fields| then v.cells else Defaults(fields)
  }

  datatype Result = Rejected | Decoded(cells: seq<Cell>, seen: set<nat>)

  /** The field decoders; a submessage is decoded on top of what is there. */
  function ReadValue(kind: LType, before: Value, s: Bytes): (r: Read<Value>)
    ensures r.Got? ==> |r.rest| < |s|
    decreases |s|, 1
  {
    if kind.Number? then ReadNumber(kind.scalar, s)
    else
      match TakePrefixed(s)
      case Fail => Fail
      case Got(b, rest) =>
        if kind.Submessage? then
          match DecodeOnto(kind.fields, CellsOf(kind.fields, before), b)
          case Rejected => Fail
          case Decoded(cells, _) => Got(Msg(cells), rest)
        else Stored(kind, b, rest)
  }

  /** A packed array: everything up to the end of its bytes, as far as there is room. */
  function ReadPacked(t: Scalar, items: seq<Value>, max: nat, s: Bytes): Read<seq<Value>>
    decreases |s|
  {
    if s == [] then Got(items, s)
    else if |items| >= max then Fail
    else
      match ReadNumber(t, s)
      case Fail => Fail
      case Got(v, rest) => ReadPacked(t, items + [v], max, rest)
  }

  // ----- a field -----

  function OldValue(c: Cell): Value {
    if c.Many? then Data([]) else c.value
  }

  function ItemsOf(c: Cell): seq<Value> {
    if c.Many? then c.items else []
  }

  /** Setting one arm of a union ends the others. */
  function SetArm(fields: seq<Field>, cells: seq<Cell>, i: nat, v: Value): (r: seq<Cell>)
    requires i < |fields| == |cells|
    ensures |r| == |cells|
  {
    seq(|cells|, j requires 0 <= j < |cells| =>
      if j == i then Arm(true, v) else if fields[j].rule == fields[i].rule then Arm(false, OldValue(cells[j]))
          else cells[j])
  }

  /** decode_static_field; the wire type matters for arrays only. */
  function ReadField(fields: seq<Field>, cells: seq<Cell>, i: nat, wireType: nat, s: Bytes): (r: Read<seq<Cell>>)
    requires i < |fields| == |cells|
    ensures r.Got? ==> |r.rest| < |s| && |r.value| == |fields|
    decreases |s|, 2
  {
    var f, c := fields[i], cells[i];
    match f.rule
    case Repeated(max) =>
      if wireType == 2 && f.kind.Number? then
        match TakePrefixed(s)
        case Fail => Fail
        case Got(b, rest) =>
          (match ReadPacked(f.kind.scalar, ItemsOf(c), max, b)
           case Fail => Fail
           case Got(items, _) => Got(cells[i := Many(items)], rest))
      else if |ItemsOf(c)| >= max then Fail
      else
        (match ReadValue(f.kind, DefaultValue(f), s)
         case Fail => Fail
         case Got(v, rest) => Got(cells[i := Many(ItemsOf(c) + [v])], rest))
    case OneOf(_) =>
      (match ReadValue(f.kind, if f.kind.Submessage? then DefaultValue(f) else OldValue(c), s)
       case Fail => Fail
       case Got(v, rest) => Got(SetArm(fields, cells, i, v), rest))
    case _ =>
      (match ReadValue(f.kind, OldValue(c), s)
       case Fail => Fail
       case Got(v, rest) => Got(cells[i := if f.rule.Optional? then May(true, v) else One(v)], rest))
  }

  // ----- a message -----

  /** The field with this tag, or the number of fields. */
  function Index(fields: seq<Field>, tag: nat): (i: nat)
    ensures i <= |fields|
    ensures i < |fields| ==> fields[i].tag == tag
    ensures forall j :: 0 <= j < i ==> fields[j].tag != tag
  {
    if fields == [] || fields[0].tag == tag then 0 else 1 + Index(fields[1..], tag)
  }

  /** Fields up to the end, or up to a zero in the place of a tag. */
  function ReadFields(fields: seq<Field>, cells: seq<Cell>, s: Bytes, seen: set<nat>): Result
    requires |cells| == |fields|
    decreases |s|, 3
  {
    if s == [] then Decoded(cells, seen)
    else
      match Varint32(s)
      case Fail => Rejected
      case Got(key, rest) =>
        if key == 0 then Decoded(cells, seen)
        else
          var i := Index(fields, key / 8);
          if i == |fields| then
            match SkipField(key % 8, rest)
            case Fail => Rejected
            case Got(_, more) => ReadFields(fields, cells, more, seen)
          else
            match ReadField(fields, cells, i, key % 8, rest)
            case Fail => Rejected
            case Got(now, more) => ReadFields(fields, now, more, seen + {i})
  }

  const MAX_REQUIRED_FIELDS := 64

  /** Only the first 64 required fields are looked for. */
  predicate Demanded(fields: seq<Field>, i: nat) {
    i < |fields| && fields[i].rule.Required? && RequiredBefore(fields, i) < MAX_REQUIRED_FIELDS
  }

  predicate AllSeen(fields: seq<Field>, seen: set<nat>) {
    forall i :: 0 <= i < |fields| && Demanded(fields, i) ==> i in seen
  }

  /** pb_decode_noinit. */
  function DecodeOnto(fields: seq<Field>, cells: seq<Cell>, s: Bytes): Result
    requires |cells| == |fields|
    decreases |s|, 4
  {
    var r := ReadFields(fields, cells, s, {});
    if r.Decoded? && AllSeen(fields, r.seen) then r else Rejected
  }

  /** pb_decode. */
  function Decode(fields: seq<Field>, s: Bytes): Result {
    DecodeOnto(fields, Defaults(fields), s)
  }
}
