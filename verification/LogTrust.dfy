/** Reading any file as a log (log_reader): only what the writer could have written comes back. */
module LogTrust {
  import opened Keys
  import opened Coding
  import opened Log

  predicate IsFragment(kind: nat) {
    kind == FULL || kind == FIRST || kind == MIDDLE || kind == LAST
  }

  // ----- one fragment -----

  lemma {:induction false} MaskBack(x: Word)
    ensures Mask(Unmask(x)) == x
  {
    var rot := (x - MASK_DELTA) % 0x1_0000_0000;
    var low, high := rot % 0x2_0000, rot / 0x2_0000;
    var c := Unmask(x);
    assert c == high + low * 0x8000 && high < 0x8000;
    Parts(c, high, low);
    assert rot == low + high * 0x2_0000;
  }

  lemma {:induction false} Parts(c: nat, low: nat, high: nat)
    requires c == low + high * 0x8000 && low < 0x8000
    ensures c % 0x8000 == low && c / 0x8000 == high
  {
  }

  lemma {:induction false} LowByteOf(v: nat, b: Byte, rest: nat)
    requires v == b as int + 0x100 * rest
    ensures v % 0x100 == b && v / 0x100 == rest
  {
  }

  lemma {:induction false} FixedBack(b: Bytes)
    requires |b| == 4
    ensures Fixed32(DecodeFixed32(b)) == b
  {
    var v := DecodeFixed32(b);
    var y := b[2] as int + 0x100 * b[3] as int;
    var x := b[1] as int + 0x100 * y;
    LowByteOf(v, b[0], x);
    LowByteOf(x, b[1], y);
    LowByteOf(y, b[2], b[3]);
    Divided(v);
  }

  lemma {:induction false} Divided(v: nat)
    ensures v / 0x1_0000 == v / 0x100 / 0x100 && v / 0x100_0000 == v / 0x100 / 0x100 / 0x100
  {
  }

  lemma {:induction false} HeaderBack(crc: Checksum, b: Bytes, length: nat)
    requires HEADER_SIZE <= |b| <= BLOCK_SIZE && length == LengthField(b) && HEADER_SIZE + length <= |b|
    requires Unmask(DecodeFixed32(b[..4])) == crc(b[6..HEADER_SIZE + length])
    ensures Header(crc, b[6], b[HEADER_SIZE..HEADER_SIZE + length]) == b[..HEADER_SIZE]
  {
    var data := b[HEADER_SIZE..HEADER_SIZE + length];
    assert b[6..HEADER_SIZE + length] == [b[6]] + data;
    MaskBack(DecodeFixed32(b[..4]));
    FixedBack(b[..4]);
    assert length % 256 == b[4] && length / 256 == b[5];
    assert b[..HEADER_SIZE] == b[..4] + [b[4], b[5], b[6]];
  }

  /** A fragment that is accepted stands in the file byte for byte as the writer writes it, and nothing is reported. */
  lemma {:induction false} AcceptedIsWritten(crc: Checksum, i: Input)
    requires HEADER_SIZE <= |i.buffer| <= BLOCK_SIZE
    ensures var (j, kind, data) := Parse(crc, i);
            IsFragment(kind) ==> |data| < BLOCK_SIZE && j.drops == i.drops &&
                                 i.buffer == Physical(crc, kind, data) + j.buffer
  {
    var length := LengthField(i.buffer);
    var (j, kind, data) := Parse(crc, i);
    if IsFragment(kind) {
      HeaderBack(crc, i.buffer, length);
      assert i.buffer == i.buffer[..HEADER_SIZE] + i.buffer[HEADER_SIZE..HEADER_SIZE + length] +
                         i.buffer[HEADER_SIZE + length..];
    }
  }

  /** Bytes that do not fit their checksum are dropped with the rest of their block, and reported. */
  lemma {:induction false} MismatchIsDropped(crc: Checksum, i: Input)
    requires HEADER_SIZE <= |i.buffer|
    requires HEADER_SIZE + LengthField(i.buffer) <= |i.buffer|
    requires Unmask(DecodeFixed32(i.buffer[..4])) != crc(i.buffer[6..HEADER_SIZE + LengthField(i.buffer)])
    requires i.buffer[6] != ZERO || LengthField(i.buffer) > 0
    ensures Parse(crc, i) == (i.(buffer := [], drops := i.drops + [|i.buffer|]), BAD, [])
  {
  }

  // ----- one record -----

  datatype Piece = Piece(kind: nat, data: Bytes)

  /** The physical records that ReadRecord goes through. */
  function Pieces(crc: Checksum, i: Input, inFragment: bool, scratch: Bytes): seq<Piece>
    decreases i.Left()
  {
    var (j, kind, fragment) := ReadPhysical(crc, i);
    var (k, round) := Assemble(j, kind, fragment, inFragment, scratch);
    [Piece(kind, fragment)] + if round.Done? then [] else Pieces(crc, k, round.inFragment, round.scratch)
  }

  function Joined(pieces: seq<Piece>): Bytes {
    if pieces == [] then [] else Joined(pieces[..|pieces| - 1]) + pieces[|pieces| - 1].data
  }

  /** The beginning of a record: a first fragment, and fragments from its middle. */
  ghost predicate Begun(pieces: seq<Piece>) {
    && pieces != [] && pieces[0].kind == FIRST
    && forall k :: 1 <= k < |pieces| ==> pieces[k].kind == MIDDLE
  }

  /** A record: one fragment, or one that is begun and its last fragment. */
  ghost predicate Whole(pieces: seq<Piece>, data: Bytes) {
    && pieces != [] && Joined(pieces) == data
    && var last := pieces[|pieces| - 1];
    if |pieces| == 1 then last.kind == FULL else last.kind == LAST && Begun(pieces[..|pieces| - 1])
  }

  lemma {:induction false} JoinedSnoc(pieces: seq<Piece>, p: Piece)
    ensures Joined(pieces + [p]) == Joined(pieces) + p.data
  {
    assert (pieces + [p])[..|pieces|] == pieces;
  }

  /** What has been put together so far comes from the pieces right before. */
  ghost predicate Held(before: seq<Piece>, inFragment: bool, scratch: Bytes) {
    inFragment ==> exists k :: 0 <= k < |before| && Begun(before[k..]) && Joined(before[k..]) == scratch
  }

  lemma {:induction false} LastIs(before: seq<Piece>, p: Piece, k: nat)
    requires k <= |before|
    ensures (before + [p])[k..] == before[k..] + [p]
  {
  }

  /** One more piece of a record that has been begun. */
  lemma {:induction false} GoesOn(begun: seq<Piece>, p: Piece)
    requires Begun(begun)
    ensures p.kind == MIDDLE ==> Begun(begun + [p])
    ensures p.kind == LAST ==> Whole(begun + [p], Joined(begun) + p.data)
    ensures Joined(begun + [p]) == Joined(begun) + p.data
  {
    JoinedSnoc(begun, p);
    assert (begun + [p])[..|begun|] == begun;
  }

  lemma {:induction false} StartsNew(p: Piece)
    ensures Joined([p]) == p.data && (p.kind == FIRST ==> Begun([p])) && (p.kind == FULL ==> Whole([p], p.data))
  {
    JoinedSnoc([], p);
    assert [] + [p] == [p];
  }

  lemma {:induction false} HeldNext(before: seq<Piece>, p: Piece, j: Input, inFragment: bool, scratch: Bytes)
    requires Held(before, inFragment, scratch)
    ensures var round := Assemble(j, p.kind, p.data, inFragment, scratch).1;
            && (round.More? ==> Held(before + [p], round.inFragment, round.scratch))
            && (round.Done? && round.record.Got? ==> Ends(before + [p], round.record.data))
  {
    StartsNew(p);
    LastIs(before, p, |before|);
    if inFragment && (p.kind == MIDDLE || p.kind == LAST) {
      var k :| 0 <= k < |before| && Begun(before[k..]) && Joined(before[k..]) == scratch;
      LastIs(before, p, k);
      GoesOn(before[k..], p);
    } else if p.kind == FIRST || p.kind == FULL {
      assert before[|before|..] + [p] == [p];
    }
  }

  /** The last of the pieces are a record. */
  ghost predicate Ends(pieces: seq<Piece>, data: Bytes) {
    exists k :: 0 <= k < |pieces| && Whole(pieces[k..], data)
  }

  /** Whatever is in the file, a record that is returned is put together from fragments that stand right behind each
      other, a first one, some from the middle and a last one, or is one whole fragment. */
  lemma {:induction false} RecordIsWhole(crc: Checksum, i: Input, inFragment: bool, scratch: Bytes, before: seq<Piece>)
    requires Held(before, inFragment, scratch)
    ensures var r := ReadRecord(crc, i, inFragment, scratch).1;
            r.Got? ==> Ends(before + Pieces(crc, i, inFragment, scratch), r.data)
    decreases i.Left()
  {
    var (j, kind, fragment) := ReadPhysical(crc, i);
    var (k, round) := Assemble(j, kind, fragment, inFragment, scratch);
    var p := Piece(kind, fragment);
    HeldNext(before, p, j, inFragment, scratch);
    if round.More? {
      RecordIsWhole(crc, k, round.inFragment, round.scratch, before + [p]);
      OneAndMore(before, p, Pieces(crc, k, round.inFragment, round.scratch));
    } else {
      OneAndMore(before, p, []);
    }
  }

  lemma {:induction false} OneAndMore(before: seq<Piece>, p: Piece, more: seq<Piece>)
    ensures before + ([p] + more) == before + [p] + more
    ensures before + [p] + [] == before + [p]
  {
  }
}
