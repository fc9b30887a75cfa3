/** Blocks (table/block_builder, table/block): prefix-compressed records with restart points, and the iterator that
    reads them back in both directions, by binary search over the restart points and scans between them. */
module Block {
  import opened Keys
  import opened Coding

  datatype Pair = Pair(key: Bytes, value: Bytes)

  /** A record in a block: how much of its key it shares with the one before, where it starts, and its bytes. */
  datatype Slot = Slot(pair: Pair, shared: nat, offset: nat, bytes: Bytes)

  const LIMIT := 0x1_0000_0000

  function Header(shared: Word, nonShared: Word, valueLength: Word): Bytes {
    EncodeVarint32(shared) + EncodeVarint32(nonShared) + EncodeVarint32(valueLength)
  }

  ghost predicate Fits(s: Slot) {
    s.shared <= |s.pair.key| < LIMIT && |s.pair.value| < LIMIT
  }

  ghost function HeaderOf(s: Slot): Bytes
    requires Fits(s)
  {
    Header(s.shared, |s.pair.key| - s.shared, |s.pair.value|)
  }

  /** The record's bytes, and the shared part of its key, which is a prefix of the key before. */
  ghost predicate Encodes(s: Slot, before: Bytes) {
    && Fits(s) && s.bytes == HeaderOf(s) + (s.pair.key[s.shared..] + s.pair.value)
    && s.shared <= |before| && s.pair.key[..s.shared] == before[..s.shared]
  }

  ghost function LastKey(slots: seq<Slot>): Bytes {
    if slots == [] then [] else slots[|slots| - 1].pair.key
  }

  ghost function Joined(slots: seq<Slot>): Bytes {
    if slots == [] then [] else Joined(slots[..|slots| - 1]) + slots[|slots| - 1].bytes
  }

  /** The records stand one after another. */
  ghost predicate Layout(slots: seq<Slot>) {
    slots == [] || (
      var front, s := slots[..|slots| - 1], slots[|slots| - 1];
      Layout(front) && s.offset == |Joined(front)| && Encodes(s, LastKey(front)))
  }

  /** Restart j is at record at[j], which shares nothing. */
  ghost predicate Restarts(slots: seq<Slot>, points: seq<nat>, at: seq<nat>) {
    && |points| == |at| > 0 && at[0] == 0 && points[0] == 0
    && (forall j :: 0 < j < |at| ==> at[j] < |slots|)
    && (forall j :: 0 <= j < |at| && at[j] < |slots| ==> slots[at[j]].shared == 0 && points[j] == slots[at[j]].offset)
    && forall i, j :: 0 <= i < j < |at| ==> at[i] < at[j]
  }

  ghost function Pairs(slots: seq<Slot>): seq<Pair> {
    seq(|slots|, i requires 0 <= i < |slots| => slots[i].pair)
  }

  // ----- facts about a layout -----

  lemma {:induction false} Snoc(slots: seq<Slot>, s: Slot)
    ensures (slots + [s])[..|slots + [s]| - 1] == slots && Joined(slots + [s]) == Joined(slots) + s.bytes
    ensures Layout(slots) && s.offset == |Joined(slots)| && Encodes(s, LastKey(slots)) ==> Layout(slots + [s])
    ensures Pairs(slots + [s]) == Pairs(slots) + [s.pair]
  {
    assert (slots + [s])[..|slots + [s]| - 1] == slots;
  }

  lemma {:induction false} StandsAtSnoc(data: Bytes, p: nat, b: Bytes, more: Bytes)
    requires StandsAt(data, p, b)
    ensures StandsAt(data + more, p, b)
  {
    assert (data + more)[p..p + |b|] == data[p..p + |b|];
  }

  lemma {:induction false} StandsBehind(front: Bytes, data: Bytes, p: nat, b: Bytes)
    requires StandsAt(data, p, b)
    ensures StandsAt(front + data, |front| + p, b)
  {
    assert (front + data)[|front| + p..|front| + p + |b|] == data[p..p + |b|];
  }

  ghost function End(s: Slot): nat {
    s.offset + |s.bytes|
  }

  ghost function NextOffset(slots: seq<Slot>, i: nat): nat
    requires i <= |slots|
  {
    if i < |slots| then slots[i].offset else |Joined(slots)|
  }

  lemma {:induction false} SlotAt(slots: seq<Slot>, i: nat)
    requires Layout(slots) && i < |slots|
    ensures Encodes(slots[i], if i == 0 then [] else slots[i - 1].pair.key)
    ensures StandsAt(Joined(slots), slots[i].offset, slots[i].bytes) && End(slots[i]) == NextOffset(slots, i + 1)
    ensures i == 0 ==> slots[i].offset == 0
    decreases |slots|
  {
    var n := |slots| - 1;
    var front := slots[..n];
    if i < n {
      SlotAt(front, i);
      assert front[i] == slots[i] && (i > 0 ==> front[i - 1] == slots[i - 1]);
      StandsAtSnoc(Joined(front), slots[i].offset, slots[i].bytes, slots[n].bytes);
      assert i + 1 < n ==> front[i + 1] == slots[i + 1];
    } else {
      StandsBehind(Joined(front), slots[n].bytes, 0, slots[n].bytes);
      assert n > 0 ==> LastKey(front) == slots[n - 1].pair.key;
    }
  }

  lemma {:induction false} RecordLength(s: Slot, before: Bytes)
    requires Encodes(s, before)
    ensures |s.bytes| >= 3
  {
  }

  lemma {:induction false} SharesWithLast(slots: seq<Slot>, i: nat)
    requires Layout(slots) && 0 < i < |slots|
    ensures slots[i].shared <= |slots[i].pair.key| && slots[i].shared <= |slots[i - 1].pair.key|
    ensures slots[i].pair.key[..slots[i].shared] == slots[i - 1].pair.key[..slots[i].shared]
  {
    SlotAt(slots, i);
  }

  lemma {:induction false} OffsetsGrow(slots: seq<Slot>, i: nat, j: nat)
    requires Layout(slots) && i <= j <= |slots|
    ensures NextOffset(slots, i) + 3 * (j - i) <= NextOffset(slots, j)
    decreases j - i
  {
    if i < j {
      SlotAt(slots, i);
      RecordLength(slots[i], if i == 0 then [] else slots[i - 1].pair.key);
      OffsetsGrow(slots, i + 1, j);
    }
  }

  // ----- building -----

  method SharedPrefix(a: Bytes, b: Bytes) returns (shared: nat)
    ensures shared <= |a| && shared <= |b| && a[..shared] == b[..shared]
    ensures shared < |a| && shared < |b| ==> a[shared] != b[shared]
  {
    var minLength := if |a| < |b| then |a| else |b|;
    shared := 0;
    while shared < minLength && a[shared] == b[shared]
      invariant shared <= minLength && a[..shared] == b[..shared]
    {
      shared := shared + 1;
    }
  }

  datatype Shape = InShape | OutOfShape

  /** What a builder has written for its records. */
  ghost function Shaped(slots: seq<Slot>, buffer: Bytes, points: seq<nat>, at: seq<nat>, lastKey: Bytes): Shape {
    if Layout(slots) && buffer == Joined(slots) && Restarts(slots, points, at) && lastKey == LastKey(slots) then InShape
    else OutOfShape
  }


  class BlockBuilder {
    const restartInterval: nat
    var buffer: Bytes
    var restarts: seq<nat>
    var counter: nat
    var lastKey: Bytes
    ghost var slots: seq<Slot>
    ghost var at: seq<nat>

    ghost predicate Ok()
      reads this
    {
      && 1 <= restartInterval && counter <= restartInterval && (counter > 0 ==> slots != [])
      && Shaped(slots, buffer, restarts, at, lastKey) == InShape
    }

    constructor (restartInterval: nat)
      requires restartInterval >= 1
      ensures Ok() && slots == []
    {
      this.restartInterval := restartInterval;
      buffer, restarts, counter, lastKey := [], [0], 0, [];
      slots, at := [], [0];
    }

    method Add(key: Bytes, value: Bytes)
      requires Ok() && |key| < LIMIT && |value| < LIMIT
      modifies this
      ensures Ok() && Pairs(slots) == Pairs(old(slots)) + [Pair(key, value)]
    {
      var shared := 0;
      if counter < restartInterval {
        // the bytes in common with the last key are not stored again
        shared := SharedPrefix(lastKey, key);
      } else {
        // a reader may begin here, so nothing of the key may be left out
        restarts := restarts + [|buffer|];
        at := at + [|slots|];
        counter := 0;
      }
      RestartsSnoc(slots, old(restarts), old(at), Slot(Pair(key, value), shared, |buffer|, []), restarts, at);
      Append(key, value, shared);
    }

    ghost predicate Building(key: Bytes, value: Bytes, shared: nat)
      reads this
    {
      && 1 <= restartInterval && counter < restartInterval
      && Layout(slots) && buffer == Joined(slots) && lastKey == LastKey(slots)
      && Restarts(slots + [Slot(Pair(key, value), shared, |buffer|, [])], restarts, at)
      && shared <= |lastKey| && shared <= |key| && key[..shared] == lastKey[..shared]
    }

    method Append(key: Bytes, value: Bytes, shared: nat)
      requires Building(key, value, shared) && |key| < LIMIT && |value| < LIMIT
      modifies this`buffer, this`lastKey, this`counter, this`slots
      ensures Ok() && Pairs(slots) == Pairs(old(slots)) + [Pair(key, value)]
    {
      var nonShared: Word, valueLength: Word := |key| - shared, |value|;
      var record := Header(shared, nonShared, valueLength) + (key[shared..] + value);
      ghost var s := Slot(Pair(key, value), shared, |buffer|, record);
      Rebuilt(key, lastKey, shared);
      Appended(slots, s, restarts, at);
      buffer := buffer + record;
      lastKey := lastKey[..shared] + key[shared..];
      counter := counter + 1;
      slots := slots + [s];
    }

    /** The restart array and its length go behind the records. */
    method Finish() returns (contents: Bytes)
      requires Ok() && |buffer| < LIMIT && |restarts| < LIMIT
      ensures BlockOk(contents, slots, restarts, at)
    {
      RestartsFit(slots, restarts, at);
      contents := buffer;
      for i := 0 to |restarts|
        invariant contents == buffer + RestartBytes(restarts[..i])
      {
        assert restarts[..i + 1][..i] == restarts[..i];
        contents := contents + Fixed32(restarts[i]);
      }
      assert restarts[..|restarts|] == restarts;
      contents := contents + Fixed32(|restarts|);
    }
  }

  lemma {:induction false} RestartsSnoc(slots: seq<Slot>, points: seq<nat>, at: seq<nat>, s: Slot, points': seq<nat>,
                                        at': seq<nat>)
    requires Restarts(slots, points, at) && (slots == [] ==> s.shared == 0 && s.offset == 0)
    requires (points' == points && at' == at)
             || (s.shared == 0 && slots != [] && points' == points + [s.offset] && at' == at + [|slots|])
    ensures Restarts(slots + [s], points', at')
  {
    assert at[0] < |slots| || slots == [];
  }

  lemma {:induction false} SameRestarts(slots: seq<Slot>, slots': seq<Slot>, points: seq<nat>, at: seq<nat>)
    requires Restarts(slots, points, at) && |slots| == |slots'|
    requires forall i :: 0 <= i < |slots| ==> slots[i].shared == slots'[i].shared && slots[i].offset == slots'[i].offset
    ensures Restarts(slots', points, at)
  {
  }

  lemma {:induction false} Rebuilt(key: Bytes, lastKey: Bytes, shared: nat)
    requires shared <= |key| && shared <= |lastKey| && key[..shared] == lastKey[..shared]
    ensures lastKey[..shared] + key[shared..] == key
  {
  }

  lemma {:induction false} Appended(slots: seq<Slot>, s: Slot, points: seq<nat>, at: seq<nat>)
    requires Layout(slots) && s.offset == |Joined(slots)| && Encodes(s, LastKey(slots))
    requires Restarts(slots + [s.(bytes := [])], points, at)
    ensures Shaped(slots + [s], Joined(slots) + s.bytes, points, at, s.pair.key) == InShape
    ensures Pairs(slots + [s]) == Pairs(slots) + [s.pair]
  {
    Snoc(slots, s);
    SameRestarts(slots + [s.(bytes := [])], slots + [s], points, at);
  }

  function RestartBytes(points: seq<nat>): Bytes {
    if points == [] then []
    else
      var p := points[|points| - 1];
      RestartBytes(points[..|points| - 1]) + Fixed32(if p < LIMIT then p else 0)
  }

  /** A finished block: records, restart array, number of restarts. */
  ghost predicate BlockOk(contents: Bytes, slots: seq<Slot>, points: seq<nat>, at: seq<nat>) {
    && Layout(slots) && Restarts(slots, points, at) && |Joined(slots)| < LIMIT && |points| < LIMIT
    && contents == Joined(slots) + RestartBytes(points) + Fixed32(|points|)
  }

  lemma {:induction false} RestartsFit(slots: seq<Slot>, points: seq<nat>, at: seq<nat>)
    requires Layout(slots) && |Joined(slots)| < LIMIT && Restarts(slots, points, at)
    ensures forall j :: 0 <= j < |points| ==> points[j] < LIMIT && points[j] <= |Joined(slots)|
  {
    forall j | 0 < j < |points| ensures points[j] <= |Joined(slots)| {
      OffsetsGrow(slots, at[j], |slots|);
    }
  }

  // ----- decoding -----

  datatype Decoded = Bad | Decoded(shared: Word, nonShared: Word, valueLength: Word, p: nat)

  /** Three one-byte numbers are read at once; the sum of the lengths is taken in 32 bits. */
  function DecodeEntry(data: Bytes, p: nat, limit: nat): Decoded
    requires limit <= |data|
  {
    if p + 3 > limit then Bad
    else Bounded(Either(data[p], data[p + 1], data[p + 2], p, DecodeSlowly(data, p, limit)), limit)
  }

  function Either(a: Byte, b: Byte, c: Byte, p: nat, slow: Decoded): Decoded {
    if a < 128 && b < 128 && c < 128 then Decoded(a, b, c, p + 3) else slow
  }

  function Bounded(d: Decoded, limit: nat): Decoded {
    if d.Bad? || d.p + (d.nonShared + d.valueLength) % LIMIT > limit then Bad else d
  }

  function DecodeSlowly(data: Bytes, p: nat, limit: nat): Decoded
    requires limit <= |data|
  {
    var a := GetVarint32(data, p, limit);
    if a.Failed? then Bad
    else
      var b := GetVarint32(data, a.next, limit);
      if b.Failed? then Bad
      else
        var c := GetVarint32(data, b.next, limit);
        if c.Failed? then Bad else Decoded(a.value, b.value, c.value, c.next)
  }

  lemma {:induction false} StandsSplit(data: Bytes, p: nat, a: Bytes, b: Bytes)
    requires StandsAt(data, p, a + b)
    ensures StandsAt(data, p, a) && StandsAt(data, p + |a|, b)
  {
    assert data[p..p + |a|] == data[p..p + |a + b|][..|a|];
    assert data[p + |a|..p + |a| + |b|] == data[p..p + |a + b|][|a|..];
  }

  lemma {:induction false} ThreeParts(data: Bytes, p: nat, a: Bytes, b: Bytes, c: Bytes)
    requires StandsAt(data, p, a + b + c)
    ensures StandsAt(data, p, a) && StandsAt(data, p + |a|, b) && StandsAt(data, p + |a| + |b|, c)
  {
    StandsSplit(data, p, a + b, c);
    StandsSplit(data, p, a, b);
  }

  /** A number stands from p to q: one byte long exactly when that byte is below 128, and then the byte is it. */
  ghost predicate NumberIn(data: Bytes, p: nat, q: nat, limit: nat, v: Word) {
    && p < q <= limit <= |data| && GetVarint32(data, p, limit) == Parsed(v, q)
    && (data[p] < 128 <==> q == p + 1) && (data[p] < 128 ==> data[p] == v)
  }

  lemma {:induction false} NumberAt(data: Bytes, p: nat, limit: nat, v: Word) returns (q: nat)
    requires StandsAt(data, p, EncodeVarint32(v)) && p + |EncodeVarint32(v)| <= limit <= |data|
    ensures q == p + |EncodeVarint32(v)| && NumberIn(data, p, q, limit, v)
  {
    q := p + |EncodeVarint32(v)|;
    VarintRoundTrip(data, p, limit, v);
    ByteAt(data, p, EncodeVarint32(v), 0);
  }

  lemma {:induction false} SlowlyIs(data: Bytes, p: nat, q: nat, r: nat, end: nat, limit: nat, shared: Word,
                                    nonShared: Word, valueLength: Word)
    requires limit <= |data| && GetVarint32(data, p, limit) == Parsed(shared, q)
    requires GetVarint32(data, q, limit) == Parsed(nonShared, r)
    requires GetVarint32(data, r, limit) == Parsed(valueLength, end)
    ensures DecodeSlowly(data, p, limit) == Decoded(shared, nonShared, valueLength, end)
  {
  }

  lemma {:induction false} EitherIs(x: Byte, y: Byte, z: Byte, p: nat, q: nat, r: nat, d: Decoded)
    requires p < q < r && d.Decoded? && r < d.p
    requires (x < 128 <==> q == p + 1) && (x < 128 ==> x == d.shared)
    requires q == p + 1 ==> (y < 128 <==> r == q + 1) && (y < 128 ==> y == d.nonShared)
    requires q == p + 1 && r == q + 1 ==> (z < 128 <==> d.p == r + 1) && (z < 128 ==> z == d.valueLength)
    ensures Either(x, y, z, p, d) == d
  {
  }

  lemma {:induction false} BoundedIs(d: Decoded, limit: nat)
    requires d.Decoded? && d.p + d.nonShared + d.valueLength <= limit < LIMIT
    ensures Bounded(d, limit) == d
  {
  }

  /** Both ways of decoding a header agree. */
  lemma {:induction false} ThreeNumbers(data: Bytes, p: nat, q: nat, r: nat, end: nat, limit: nat, shared: Word,
                                        nonShared: Word, valueLength: Word)
    requires NumberIn(data, p, q, limit, shared) && NumberIn(data, q, r, limit, nonShared)
    requires NumberIn(data, r, end, limit, valueLength) && end + nonShared + valueLength <= limit < LIMIT
    ensures DecodeEntry(data, p, limit) == Decoded(shared, nonShared, valueLength, end)
  {
    var d := Decoded(shared, nonShared, valueLength, end);
    SlowlyIs(data, p, q, r, end, limit, shared, nonShared, valueLength);
    EitherIs(data[p], data[p + 1], data[p + 2], p, q, r, d);
    BoundedIs(d, limit);
  }

  lemma {:induction false} HeaderStands(data: Bytes, p: nat, shared: Word, nonShared: Word, valueLength: Word)
    returns (q: nat, r: nat, end: nat)
    requires StandsAt(data, p, Header(shared, nonShared, valueLength))
    ensures q == p + |EncodeVarint32(shared)| && r == q + |EncodeVarint32(nonShared)|
    ensures end == r + |EncodeVarint32(valueLength)| == p + |Header(shared, nonShared, valueLength)|
    ensures StandsAt(data, p, EncodeVarint32(shared)) && StandsAt(data, q, EncodeVarint32(nonShared))
    ensures StandsAt(data, r, EncodeVarint32(valueLength))
  {
    ThreeParts(data, p, EncodeVarint32(shared), EncodeVarint32(nonShared), EncodeVarint32(valueLength));
    q := p + |EncodeVarint32(shared)|;
    r := q + |EncodeVarint32(nonShared)|;
    end := r + |EncodeVarint32(valueLength)|;
  }

  lemma {:induction false} HeaderDecodes(data: Bytes, p: nat, limit: nat, shared: Word, nonShared: Word,
                                         valueLength: Word)
    requires StandsAt(data, p, Header(shared, nonShared, valueLength))
    requires p + |Header(shared, nonShared, valueLength)| + nonShared + valueLength <= limit <= |data| && limit < LIMIT
    ensures DecodeEntry(data, p, limit) ==
            Decoded(shared, nonShared, valueLength, p + |Header(shared, nonShared, valueLength)|)
  {
    var q, r, end := HeaderStands(data, p, shared, nonShared, valueLength);
    var q' := NumberAt(data, p, limit, shared);
    var r' := NumberAt(data, q, limit, nonShared);
    var end' := NumberAt(data, r, limit, valueLength);
    ThreeNumbers(data, p, q, r, end, limit, shared, nonShared, valueLength);
  }

  /** Where the rest of the record's key, and its value, stand. */
  ghost function KeyStart(s: Slot): nat
    requires Fits(s)
  {
    s.offset + |HeaderOf(s)|
  }

  ghost function ValueStart(s: Slot): nat
    requires Fits(s)
  {
    KeyStart(s) + (|s.pair.key| - s.shared)
  }

  lemma {:induction false} RecordStands(data: Bytes, s: Slot)
    requires Fits(s) && StandsAt(data, s.offset, HeaderOf(s) + (s.pair.key[s.shared..] + s.pair.value))
    ensures StandsAt(data, s.offset, HeaderOf(s))
    ensures StandsAt(data, KeyStart(s), s.pair.key[s.shared..]) && StandsAt(data, ValueStart(s), s.pair.value)
  {
    StandsSplit(data, s.offset, HeaderOf(s), s.pair.key[s.shared..] + s.pair.value);
    StandsSplit(data, KeyStart(s), s.pair.key[s.shared..], s.pair.value);
  }

  lemma {:induction false} SlotStands(data: Bytes, slots: seq<Slot>, i: nat)
    requires Layout(slots) && i < |slots| && Joined(slots) <= data
    ensures var s := slots[i];
            && Fits(s) && s.offset < |Joined(slots)| && StandsAt(data, s.offset, HeaderOf(s))
            && StandsAt(data, KeyStart(s), s.pair.key[s.shared..]) && StandsAt(data, ValueStart(s), s.pair.value)
            && ValueStart(s) + |s.pair.value| == NextOffset(slots, i + 1) <= |Joined(slots)|
  {
    SlotAt(slots, i);
    OffsetsGrow(slots, i + 1, |slots|);
    RecordLength(slots[i], if i == 0 then [] else slots[i - 1].pair.key);
    assert data == Joined(slots) + data[|Joined(slots)|..];
    StandsAtSnoc(Joined(slots), slots[i].offset, slots[i].bytes, data[|Joined(slots)|..]);
    RecordStands(data, slots[i]);
  }

  lemma {:induction false} SlotEnds(slots: seq<Slot>, i: nat)
    requires Layout(slots) && i < |slots|
    ensures Fits(slots[i]) && ValueStart(slots[i]) + |slots[i].pair.value| == NextOffset(slots, i + 1)
  {
    SlotAt(slots, i);
  }

  lemma {:induction false} SlotDecodes(data: Bytes, slots: seq<Slot>, i: nat)
    requires Layout(slots) && i < |slots| && Joined(slots) <= data && |Joined(slots)| < LIMIT
    ensures var s := slots[i];
            && Fits(s) && s.offset < |Joined(slots)|
            && DecodeEntry(data, s.offset, |Joined(slots)|) ==
                Decoded(s.shared, |s.pair.key| - s.shared, |s.pair.value|, KeyStart(s))
            && StandsAt(data, KeyStart(s), s.pair.key[s.shared..]) && StandsAt(data, ValueStart(s), s.pair.value)
            && ValueStart(s) + |s.pair.value| == NextOffset(slots, i + 1)
  {
    var s := slots[i];
    SlotStands(data, slots, i);
    HeaderDecodes(data, s.offset, |Joined(slots)|, s.shared, |s.pair.key| - s.shared, |s.pair.value|);
  }

  lemma {:induction false} RestartAt(points: seq<nat>, j: nat)
    requires j < |points| && forall i :: 0 <= i < |points| ==> points[i] < LIMIT
    ensures |RestartBytes(points)| == 4 * |points| && StandsAt(RestartBytes(points), 4 * j, Fixed32(points[j]))
    decreases |points|
  {
    var n := |points| - 1;
    if n > 0 {
      RestartAt(points[..n], if j < n then j else 0);
    }
    if j < n {
      StandsAtSnoc(RestartBytes(points[..n]), 4 * j, Fixed32(points[j]), Fixed32(points[n]));
    }
  }

  lemma {:induction false} ReadRestart(contents: Bytes, slots: seq<Slot>, points: seq<nat>, at: seq<nat>, j: nat)
    requires BlockOk(contents, slots, points, at) && j < |points|
    ensures points[j] < LIMIT && StandsAt(contents, |Joined(slots)| + 4 * j, Fixed32(points[j]))
    ensures |contents| == |Joined(slots)| + 4 * |points| + 4 && StandsAt(contents, |contents| - 4, Fixed32(|points|))
  {
    RestartsFit(slots, points, at);
    RestartAt(points, j);
    StandsBehind(Joined(slots), RestartBytes(points), 4 * j, Fixed32(points[j]));
    StandsAtSnoc(Joined(slots) + RestartBytes(points), |Joined(slots)| + 4 * j, Fixed32(points[j]), Fixed32(|points|));
    StandsBehind(Joined(slots) + RestartBytes(points), Fixed32(|points|), 0, Fixed32(|points|));
  }

  // ----- the iterator -----

  /** What never changes about a block being read. */
  datatype Image = Image(contents: Bytes, slots: seq<Slot>, points: seq<nat>, at: seq<nat>) {
    ghost predicate Ok() {
      BlockOk(contents, slots, points, at)
    }

    ghost function Size(): nat {
      |Joined(slots)|
    }
  }

  class BlockIter {
    const contents: Bytes
    const restarts: nat
    const numRestarts: nat
    var current: nat
    var restartIndex: nat
    var key: Bytes
    /** value_ is a slice of the contents. */
    var valueStart: nat
    var valueLength: nat
    ghost const image: Image
    ghost var pos: nat

    ghost predicate Fixed() {
      image.Ok() && image.contents == contents && restarts == image.Size() && numRestarts == |image.points|
    }

    /** At position p, with restart points up to restartIndex at or before it, and none between there and p. */
    ghost predicate AtPos(p: nat)
      requires Fixed()
      reads this
    {
      && pos == p <= |image.slots|
      && (p == |image.slots| ==> current == restarts)
      && (p < |image.slots| ==>
            && Fits(image.slots[p]) && current == image.slots[p].offset && current < restarts
            && key == image.slots[p].pair.key
            && valueStart == ValueStart(image.slots[p]) && valueLength == |image.slots[p].pair.value|
            && restartIndex < numRestarts && image.points[restartIndex] <= current
            && (restartIndex + 1 < numRestarts ==> current <= image.points[restartIndex + 1]))
    }

    ghost predicate Ok()
      reads this
    {
      Fixed() && AtPos(pos)
    }

    constructor (ghost image: Image, contents: Bytes, restarts: nat, numRestarts: nat)
      requires image.Ok() && image.contents == contents && restarts == image.Size() && numRestarts == |image.points|
      ensures Ok() && !Valid() && this.image == image
    {
      this.image, this.contents, this.restarts, this.numRestarts := image, contents, restarts, numRestarts;
      current, restartIndex, key, valueStart, valueLength := restarts, numRestarts, [], restarts, 0;
      pos := |image.slots|;
    }

    predicate Valid()
      reads this
    {
      current < restarts
    }

    method GetRestartPoint(index: nat) returns (r: nat)
      requires Fixed() && index < numRestarts
      ensures r == image.points[index]
    {
      ReadRestart(contents, image.slots, image.points, image.at, index);
      r := DecodeFixed32(contents[restarts + 4 * index..restarts + 4 * index + 4]);
      Fixed32RoundTrip(image.points[index]);
    }

    /** About to parse the record at position p: value_ ends where it starts, and key_ has what it shares. */
    ghost predicate Poised(p: nat)
      requires Fixed()
      reads this
    {
      && p <= |image.slots| && valueStart + valueLength == NextOffset(image.slots, p)
      && (p < |image.slots| ==>
            && image.slots[p].shared <= |key| && image.slots[p].shared <= |image.slots[p].pair.key|
            && key[..image.slots[p].shared] == image.slots[p].pair.key[..image.slots[p].shared]
            && restartIndex < numRestarts && image.points[restartIndex] <= image.slots[p].offset)
    }

    /** The record always decodes: a block from the builder is never taken for a corrupt one. */
    method ParseNextKey(ghost p: nat) returns (more: bool)
      requires Fixed() && Poised(p)
      modifies this
      ensures AtPos(p) && more == (p < |image.slots|)
    {
      pos := p;
      current := valueStart + valueLength;
      if current >= restarts {
        PastEnd(p);
        current := restarts;
        restartIndex := numRestarts;
        return false;
      }
      var d := Decode(p);
      key := key[..d.shared] + contents[d.p..d.p + d.nonShared];
      assert key == image.slots[p].pair.key;
      valueStart, valueLength := d.p + d.nonShared, d.valueLength;
      AdvanceRestart();
      return true;
    }

    method Decode(ghost p: nat) returns (d: Decoded)
      requires Fixed() && p <= |image.slots| && current == NextOffset(image.slots, p) && current < restarts
      ensures p < |image.slots| && Fits(image.slots[p])
      ensures var s := image.slots[p];
              d == Decoded(s.shared, |s.pair.key| - s.shared, |s.pair.value|, KeyStart(s))
              && d.p + d.nonShared <= |contents| && contents[d.p..d.p + d.nonShared] == s.pair.key[s.shared..]
    {
      InRange(p);
      SlotDecodes(contents, image.slots, p);
      d := DecodeEntry(contents, current, restarts);
    }

    lemma {:induction false} PastEnd(p: nat)
      requires Fixed() && p <= |image.slots| && NextOffset(image.slots, p) >= restarts
      ensures p == |image.slots|
    {
      OffsetsGrow(image.slots, p, |image.slots|);
    }

    lemma {:induction false} InRange(p: nat)
      requires Fixed() && p <= |image.slots| && NextOffset(image.slots, p) < restarts
      ensures p < |image.slots|
    {
    }

    method AdvanceRestart()
      requires Fixed() && restartIndex < numRestarts && image.points[restartIndex] <= current
      modifies this`restartIndex
      ensures restartIndex < numRestarts && image.points[restartIndex] <= current
      ensures restartIndex + 1 < numRestarts ==> current <= image.points[restartIndex + 1]
    {
      while restartIndex + 1 < numRestarts
        invariant restartIndex < numRestarts && image.points[restartIndex] <= current
        decreases numRestarts - restartIndex
      {
        var next := GetRestartPoint(restartIndex + 1);
        if next >= current {
          break;
        }
        restartIndex := restartIndex + 1;
      }
    }

    /** key() and value(): the entry of the block that the iterator is at. */
    method Entry() returns (pair: Pair)
      requires Ok() && Valid()
      ensures pos < |image.slots| && pair == Pairs(image.slots)[pos]
    {
      SlotStands(contents, image.slots, pos);
      pair := Pair(key, contents[valueStart..valueStart + valueLength]);
    }

    // ----- moving -----

    /** The record that restart point `index` is at; in an empty block, the end. */
    ghost function RestartSlot(index: nat): nat
      requires Fixed() && index < numRestarts
    {
      image.at[index]
    }

    method SeekToRestartPoint(index: nat)
      requires Fixed() && index < numRestarts
      modifies this
      ensures RestartSlot(index) <= |image.slots| && Poised(RestartSlot(index)) && restartIndex == index
    {
      key := [];
      restartIndex := index;
      var offset := GetRestartPoint(index);
      valueStart, valueLength := offset, 0;
    }

    lemma {:induction false} ValueEnds()
      requires Ok() && pos < |image.slots|
      ensures valueStart + valueLength == NextOffset(image.slots, pos + 1) && Valid()
    {
      SlotEnds(image.slots, pos);
    }

    lemma {:induction false} PoisedForNext()
      requires Ok() && Valid()
      ensures pos < |image.slots| && Poised(pos + 1)
    {
      ValueEnds();
      if pos + 1 < |image.slots| {
        SharesWithLast(image.slots, pos + 1);
        OffsetsGrow(image.slots, pos, pos + 1);
      }
    }

    method Advance() returns (more: bool)
      requires Ok() && pos < |image.slots|
      modifies this
      ensures Ok() && pos == old(pos) + 1 && more == (pos < |image.slots|)
      ensures more ==> key == image.slots[pos].pair.key
    {
      ValueEnds();
      PoisedForNext();
      more := ParseNextKey(pos + 1);
    }

    method Next()
      requires Ok() && Valid()
      modifies this
      ensures Ok() && pos == old(pos) + 1
    {
      PoisedForNext();
      var more := ParseNextKey(pos + 1);
    }

    method SeekToFirst()
      requires Ok()
      modifies this
      ensures Ok() && pos == 0
    {
      SeekToRestartPoint(0);
      var more := ParseNextKey(0);
    }

    /** Parses on while the entry parsed does not reach `end`, the offset of record q; there may be no record at all. */
    method ParseUpTo(end: nat, ghost p: nat, ghost q: nat)
      requires Fixed() && Poised(p) && p <= q <= |image.slots| && end == NextOffset(image.slots, q)
      requires p == q ==> image.slots == []
      modifies this
      ensures Ok() && pos == if p == q then q else q - 1
    {
      var more := ParseNextKey(p);
      while more && valueStart + valueLength < end
        invariant Ok() && p <= pos && more == (p < q) && (more ==> pos < q)
        decreases q - pos
      {
        Before(q);
        PoisedForNext();
        more := ParseNextKey(pos + 1);
      }
      if p < q {
        AtLast(q);
      }
    }

    lemma {:induction false} Before(q: nat)
      requires Ok() && pos < q <= |image.slots| && valueStart + valueLength < NextOffset(image.slots, q)
      ensures pos + 1 < q && Valid()
    {
      ValueEnds();
    }

    lemma {:induction false} AtLast(q: nat)
      requires Ok() && pos < q <= |image.slots| && valueStart + valueLength >= NextOffset(image.slots, q)
      ensures pos == q - 1
    {
      ValueEnds();
      OffsetsGrow(image.slots, pos + 1, q);
    }

    method SeekToLast()
      requires Ok()
      modifies this
      ensures Ok() && pos == if image.slots == [] then 0 else |image.slots| - 1
    {
      SeekToRestartPoint(numRestarts - 1);
      ParseUpTo(restarts, RestartSlot(numRestarts - 1), |image.slots|);
    }

    lemma {:induction false} RestartBefore(index: nat, q: nat)
      requires Fixed() && index < numRestarts && q < |image.slots| && image.points[index] < image.slots[q].offset
      ensures RestartSlot(index) < q
    {
      if q <= RestartSlot(index) {
        OffsetsGrow(image.slots, q, RestartSlot(index));
      }
    }

    lemma {:induction false} FirstSlot(q: nat)
      requires Fixed() && q < |image.slots| && image.points[0] >= image.slots[q].offset
      ensures q == 0
    {
      SlotAt(image.slots, 0);
      OffsetsGrow(image.slots, 0, q);
    }

    /** Back to a restart point before the current entry, and forward again to the one before it. */
    method Prev()
      requires Ok() && Valid()
      modifies this
      ensures Ok() && pos == if old(pos) == 0 then |image.slots| else old(pos) - 1
    {
      var original := current;
      ghost var q := pos;
      var point := GetRestartPoint(restartIndex);
      while point >= original
        invariant pos == q < |image.slots| && original == image.slots[q].offset
        invariant restartIndex < numRestarts && point == image.points[restartIndex]
        decreases restartIndex
      {
        if restartIndex == 0 {
          FirstSlot(q);
          current := restarts;
          restartIndex := numRestarts;
          pos := |image.slots|;
          return;
        }
        restartIndex := restartIndex - 1;
        point := GetRestartPoint(restartIndex);
      }
      RestartBefore(restartIndex, q);
      SeekToRestartPoint(restartIndex);
      ParseUpTo(original, RestartSlot(restartIndex), q);
    }

    // ----- seeking -----

    /** The key at restart point mid, read without the iterator's own key. */
    method KeyAtRestart(mid: nat) returns (midKey: Bytes)
      requires Fixed() && mid < numRestarts && image.slots != []
      ensures RestartSlot(mid) < |image.slots| && midKey == image.slots[RestartSlot(mid)].pair.key
    {
      var regionOffset := GetRestartPoint(mid);
      ghost var p := RestartSlot(mid);
      SlotDecodes(contents, image.slots, p);
      var d := DecodeEntry(contents, regionOffset, restarts);
      assert d == Decoded(0, |image.slots[p].pair.key|, |image.slots[p].pair.value|, KeyStart(image.slots[p]));
      midKey := contents[d.p..d.p + d.nonShared];
    }

    /** The last restart point with a key before the target, or the first one. */
    method FindRestart(before: Bytes -> bool) returns (left: nat)
      requires Fixed()
      ensures left < numRestarts
      ensures left > 0 ==> RestartSlot(left) < |image.slots| && before(image.slots[RestartSlot(left)].pair.key)
    {
      left := 0;
      var right := numRestarts - 1;
      while left < right
        invariant left <= right < numRestarts
        invariant left > 0 ==> RestartSlot(left) < |image.slots| && before(image.slots[RestartSlot(left)].pair.key)
      {
        var mid := (left + right + 1) / 2;
        SomeSlots(mid);
        var midKey := KeyAtRestart(mid);
        if before(midKey) {
          left := mid;
        } else {
          right := mid - 1;
        }
      }
    }

    lemma {:induction false} SomeSlots(mid: nat)
      requires Fixed() && 0 < mid < numRestarts
      ensures image.slots != []
    {
      assert image.at[mid] < |image.slots|;
    }

    /** `before` says whether a key is before the target; it holds for a first part of the entries. */
    method Seek(before: Bytes -> bool)
      requires Ok() && Downward(image.slots, before)
      modifies this
      ensures Ok() && forall i :: 0 <= i < |image.slots| ==> (before(image.slots[i].pair.key) <==> i < pos)
    {
      var left := FindRestart(before);
      SeekToRestartPoint(left);
      var more := ParseNextKey(RestartSlot(left));
      Scan(before, more);
    }

    /** Linear search for the first entry that is not before the target. */
    method Scan(before: Bytes -> bool, parsed: bool)
      requires Ok() && Downward(image.slots, before) && parsed == (pos < |image.slots|)
      requires forall i :: 0 <= i < pos ==> before(image.slots[i].pair.key)
      modifies this
      ensures Ok() && forall i :: 0 <= i < |image.slots| ==> (before(image.slots[i].pair.key) <==> i < pos)
    {
      var more := parsed;
      while more && before(key)
        invariant Ok() && more == (pos < |image.slots|) && (more ==> key == image.slots[pos].pair.key)
        invariant forall i :: 0 <= i < pos ==> before(image.slots[i].pair.key)
        decreases |image.slots| - pos
      {
        ghost var p := pos;
        more := Advance();
        assert pos == p + 1 && before(image.slots[p].pair.key);
      }
    }
  }

  ghost predicate Downward(slots: seq<Slot>, before: Bytes -> bool) {
    forall i, j :: 0 <= i < j < |slots| && before(slots[j].pair.key) ==> before(slots[i].pair.key)
  }

  // ----- opening a block -----

  /** Block's constructor: the number of restarts is at the end, and the restart array before it. */
  method OpenBlock(ghost image: Image, contents: Bytes) returns (iter: BlockIter)
    requires image.Ok() && contents == image.contents
    ensures fresh(iter) && iter.Ok() && iter.image == image && !iter.Valid()
  {
    ReadRestart(contents, image.slots, image.points, image.at, 0);
    Fixed32RoundTrip(|image.points|);
    var numRestarts: nat := DecodeFixed32(contents[|contents| - 4..]);
    assert contents[|contents| - 4..] == contents[|contents| - 4..|contents| - 4 + 4];
    iter := new BlockIter(image, contents, |contents| - (1 + numRestarts) * 4, numRestarts);
  }
}
