/** When the decoder takes a required field for missing (nanopb: pb_decode). */
module PbRequired {
  import opened Keys
  import opened PbWire
  import opened PbFields
  import opened PbEncode
  import opened PbDecode
  import opened PbRoundTrip

  /** The field numbers of a message, in the order in which the decoder comes upon them. */
  function TagsRead(fields: seq<Field>, cells: seq<Cell>, s: Bytes): seq<nat>
    requires |cells| == |fields|
    decreases |s|
  {
    if s == [] then []
    else
      match Varint32(s)
      case Fail => []
      case Got(key, rest) =>
        if key == 0 then []
        else
          var i := Index(fields, key / 8);
          if i == |fields| then
            match SkipField(key % 8, rest)
            case Fail => [key / 8]
            case Got(_, more) => [key / 8] + TagsRead(fields, cells, more)
          else
            match ReadField(fields, cells, i, key % 8, rest)
            case Fail => [key / 8]
            case Got(now, more) => [key / 8] + TagsRead(fields, now, more)
  }

  lemma {:induction false} SeenAreTags(fields: seq<Field>, cells: seq<Cell>, s: Bytes, seen: set<nat>, i: nat)
    requires FieldsOk(fields) && |cells| == |fields| && i < |fields|
    ensures var r := ReadFields(fields, cells, s, seen);
            r.Decoded? ==> (i in r.seen <==> i in seen || fields[i].tag in TagsRead(fields, cells, s))
    decreases |s|
  {
    if s != [] && Varint32(s).Got? && Varint32(s).value != 0 {
      var key, rest := Varint32(s).value, Varint32(s).rest;
      var j := Index(fields, key / 8);
      IndexOf(fields, i);
      if j == |fields| {
        var skipped := SkipField(key % 8, rest);
        if skipped.Got? {
          SeenAreTags(fields, cells, skipped.rest, seen, i);
        }
      } else {
        var r := ReadField(fields, cells, j, key % 8, rest);
        if r.Got? {
          SeenAreTags(fields, r.value, r.rest, seen + {j}, i);
        }
      }
    }
  }

  /** A message that is otherwise well-formed is rejected exactly when a required field with less than 64 others
      before it is absent. */
  lemma {:induction false} MissingRequired(fields: seq<Field>, cells: seq<Cell>, s: Bytes)
    requires FieldsOk(fields) && |cells| == |fields| && ReadFields(fields, cells, s, {}).Decoded?
    ensures DecodeOnto(fields, cells, s) == Rejected <==>
            exists i :: 0 <= i < |fields| && Demanded(fields, i) && fields[i].tag !in TagsRead(fields, cells, s)
  {
    var r := ReadFields(fields, cells, s, {});
    forall i | 0 <= i < |fields| ensures i in r.seen <==> fields[i].tag in TagsRead(fields, cells, s) {
      SeenAreTags(fields, cells, s, {}, i);
    }
  }

  lemma {:induction false} RequiredUpTo(fields: seq<Field>, i: nat)
    requires i < |fields|
    ensures RequiredBefore(fields, i) + (if fields[i].rule.Required? then 1 else 0) <= RequiredBefore(fields, |fields|)
  {
    RequiredMore(fields, i + 1, |fields|);
  }

  lemma {:induction false} RequiredMore(fields: seq<Field>, i: nat, j: nat)
    requires i <= j <= |fields|
    ensures RequiredBefore(fields, i) <= RequiredBefore(fields, j)
  {
    if i < j {
      RequiredMore(fields, i, j - 1);
    }
  }

  /** With at most 64 required fields that is: when any required field is absent. */
  lemma {:induction false} MissingAmong64(fields: seq<Field>, cells: seq<Cell>, s: Bytes)
    requires FieldsOk(fields) && |cells| == |fields| && ReadFields(fields, cells, s, {}).Decoded?
    requires RequiredBefore(fields, |fields|) <= MAX_REQUIRED_FIELDS
    ensures DecodeOnto(fields, cells, s) == Rejected <==>
            exists i :: 0 <= i < |fields| && fields[i].rule.Required? && fields[i].tag !in TagsRead(fields, cells, s)
  {
    MissingRequired(fields, cells, s);
    forall i | 0 <= i < |fields| && fields[i].rule.Required? ensures Demanded(fields, i) {
      RequiredUpTo(fields, i);
    }
  }

  /** Reading all fields but the last. */
  lemma {:induction false} ReadsAllButLast(fields: seq<Field>, cells: seq<Cell>, n: nat)
    requires FieldsOk(fields) && CellsOk(fields, cells) && |fields| == n + 1
    requires CellsOk(fields[0..n], cells[0..n]) && Sound(fields[0..n], cells[0..n]) && Ends(fields[0..n], cells[0..n])
    requires |Wire(fields[0..n], cells[0..n])| < MOD32
    ensures var r := ReadFields(fields, Defaults(fields), Wire(fields[0..n], cells[0..n]), {});
            && r.Decoded? && n !in r.seen && forall j: nat :: j < n && fields[j].rule.Required? ==> j in r.seen
  {
    assert SoFar(fields, cells, 0) == Defaults(fields);
    FieldsBack(fields, cells, 0, n, {});
    forall j: nat ensures j < n && fields[j].rule.Required? ==> j in SeenAfter(fields, cells, 0, n, {}) {
      SeenAfterHas(fields, cells, 0, n, {}, j);
    }
    SeenAfterHas(fields, cells, 0, n, {}, n);
  }

  /** Beyond that the promise fails: a message that has all fields but the last is accepted, although the last one is
      required. */
  lemma {:induction false} LateRequiredIsNotMissed(fields: seq<Field>, cells: seq<Cell>, n: nat, s: Bytes)
    requires FieldsOk(fields) && CellsOk(fields, cells) && |fields| == n + 1
    requires fields[n].rule.Required? && RequiredBefore(fields, n) >= MAX_REQUIRED_FIELDS
    requires CellsOk(fields[0..n], cells[0..n]) && Sound(fields[0..n], cells[0..n]) && Ends(fields[0..n], cells[0..n])
    requires s == Wire(fields[0..n], cells[0..n]) && |s| < MOD32
    ensures Decode(fields, s).Decoded? && fields[n].tag !in TagsRead(fields, Defaults(fields), s)
  {
    ReadsAllButLast(fields, cells, n);
    SeenAreTags(fields, Defaults(fields), s, {}, n);
  }

  // ----- a message type for which it fails -----

  /** A tag is sent with three more bits, in a word of 32. */
  const TAG_LIMIT := 0x2000_0000

  /** Required flags with the numbers k + 1 to n. */
  function Flags(k: nat, n: nat): (fields: seq<Field>)
    ensures |fields| == if k < n then n - k else 0
    ensures forall i :: 0 <= i < |fields| ==> fields[i] == Field(k + 1 + i, Required, Number(BOOL), Num(0))
    decreases n - k
  {
    if k >= n then [] else [Field(k + 1, Required, Number(BOOL), Num(0))] + Flags(k + 1, n)
  }

  function Lowered(n: nat): (cells: seq<Cell>)
    ensures |cells| == n && forall i :: 0 <= i < n ==> cells[i] == One(Num(0))
  {
    if n == 0 then [] else [One(Num(0))] + Lowered(n - 1)
  }

  lemma {:induction false} FlagOk(tag: nat)
    requires 0 < tag < TAG_LIMIT
    ensures FieldOk(Field(tag, Required, Number(BOOL), Num(0)))
    ensures CellOk(Field(tag, Required, Number(BOOL), Num(0)), One(Num(0)))
  {
    assert ValueOk(Number(BOOL), Num(0)) && TypeOk(Number(BOOL));
  }

  lemma {:induction false} FlagsAreOk(k: nat, n: nat)
    requires k <= n < TAG_LIMIT
    ensures FieldsOk(Flags(k, n)) && CellsOk(Flags(k, n), Lowered(n - k))
    decreases n - k
  {
    if k < n {
      FlagsAreOk(k + 1, n);
      FlagOk(k + 1);
      assert Flags(k, n)[1..] == Flags(k + 1, n) && Lowered(n - k)[1..] == Lowered(n - k - 1);
    }
  }

  lemma {:induction false} FlagsAreShort(k: nat, n: nat)
    requires k <= n < TAG_LIMIT && CellsOk(Flags(k, n), Lowered(n - k))
    ensures Sound(Flags(k, n), Lowered(n - k)) && Ends(Flags(k, n), Lowered(n - k))
    ensures |Wire(Flags(k, n), Lowered(n - k))| <= 6 * (n - k)
    decreases n - k
  {
    if k < n {
      FlagsAreShort(k + 1, n);
      FlagIsShort(k + 1);
    }
  }

  lemma {:induction false} FlagIsShort(tag: nat)
    requires 0 < tag < TAG_LIMIT
    ensures |FieldWire(Field(tag, Required, Number(BOOL), Num(0)), One(Num(0)))| <= 6
  {
    var f := Field(tag, Required, Number(BOOL), Num(0));
    assert Power(1) == 0x80 && Power(2) == 0x4000 && Power(3) == 0x20_0000 && Power(4) == 0x1000_0000;
    assert Power(5) == 0x8_0000_0000;
    assert WireType(f.kind) == 0;
    VarintLength(tag * 8 + 0, 5);
    assert |Varint(0)| == 1;
    assert FieldWire(f, One(Num(0))) == TaggedWire(f, Num(0)) == TagWire(tag, 0) + Varint(0);
  }

  lemma {:induction false} FlagsBefore(k: nat, n: nat, i: nat)
    requires k <= n && i <= n - k
    ensures RequiredBefore(Flags(k, n), i) == i
  {
    if i > 0 {
      FlagsBefore(k, n, i - 1);
    }
  }

  lemma {:induction false} FlagsTaken(n: nat)
    requires n + 1 < TAG_LIMIT
    ensures Flags(0, n + 1)[0..n] == Flags(0, n) && Lowered(n + 1)[0..n] == Lowered(n)
  {
  }

  lemma {:induction false} FirstFlags(n: nat)
    requires n + 1 < TAG_LIMIT
    ensures var fields, cells := Flags(0, n + 1)[0..n], Lowered(n + 1)[0..n];
            CellsOk(fields, cells) && Sound(fields, cells) && Ends(fields, cells) && |Wire(fields, cells)| < MOD32
  {
    FlagsAreOk(0, n);
    FlagsAreShort(0, n);
    FlagsTaken(n);
  }

  lemma {:induction false} LastFlag(n: nat)
    requires MAX_REQUIRED_FIELDS <= n && n + 1 < TAG_LIMIT
    ensures var fields := Flags(0, n + 1); FieldsOk(fields) && fields[n].rule.Required?
    ensures CellsOk(Flags(0, n + 1), Lowered(n + 1)) && RequiredBefore(Flags(0, n + 1), n) >= MAX_REQUIRED_FIELDS
  {
    FlagsAreOk(0, n + 1);
    FlagsBefore(0, n + 1, n);
  }

  /** With n + 1 > 64 required fields a message without the last of them is accepted. */
  lemma {:induction false} LastFlagIsNotMissed(n: nat)
    requires MAX_REQUIRED_FIELDS <= n && n + 1 < TAG_LIMIT
    ensures var fields := Flags(0, n + 1);
            && FieldsOk(fields) && fields[n].rule.Required?
            && exists s :: Decode(fields, s).Decoded? && fields[n].tag !in TagsRead(fields, Defaults(fields), s)
  {
    LastFlag(n);
    FirstFlags(n);
    var fields, cells := Flags(0, n + 1), Lowered(n + 1);
    LateRequiredIsNotMissed(fields, cells, n, Wire(fields[0..n], cells[0..n]));
  }
}
