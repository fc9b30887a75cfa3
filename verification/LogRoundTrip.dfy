/** Reading a log, or a prefix of one, gives back the records that are whole in it. */
module LogRoundTrip {
  import opened Keys
  import opened Coding
  import opened Log

  /** The bytes the reader has not consumed. */
  function Ahead(i: Input): Bytes {
    i.buffer + i.rest
  }

  /** The reader stands at block offset off: its buffer is the rest of the block, or of the file. */
  ghost predicate Aligned(i: Input, off: BlockOffset) {
    if i.eof then i.rest == [] && off + |i.buffer| <= BLOCK_SIZE else off + |i.buffer| == BLOCK_SIZE
  }

  /** Two ways to write the same bytes. */
  lemma {:induction false} Resplit(a: Bytes, b: Bytes, x: Bytes, y: Bytes)
    requires a + b == x + y
    ensures |x| <= |a| ==> a == x + a[|x|..] && a[|x|..] + b == y
    ensures |a| <= |x| ==> a + x[|a|..] == x && b == x[|a|..] + y
  {
    assert a == (a + b)[..|a|] && b == (a + b)[|a|..];
    assert x == (x + y)[..|x|] && y == (x + y)[|x|..];
  }

  lemma {:induction false} FillSkipsPadding(i: Input, off: BlockOffset, more: Bytes)
    requires Aligned(i, off) && Ahead(i) == Zeros(Padding(off)) + more
    ensures var f := Fill(i);
            && f.drops == i.drops && (|f.buffer| < HEADER_SIZE ==> f.eof)
            && (if i.eof && Padding(off) > 0 then |f.buffer| < HEADER_SIZE
                else Aligned(f, HeaderAt(off)) && Ahead(f) == more)
  {
    if BLOCK_SIZE - off < HEADER_SIZE && !i.eof {
      assert Fill(i) == Fill(i.ReadBlock()) == i.ReadBlock();
      assert Ahead(i.ReadBlock()) == i.rest;
      Resplit(i.buffer, i.rest, Zeros(Padding(off)), more);
      assert i.buffer[|i.buffer|..] == [];
    } else {
      assert Zeros(0) + more == more;
    }
  }

  /** A physical record at the front of the buffer is taken apart as it was put together. */
  lemma {:induction false} ParseWhole(crc: Checksum, i: Input, kind: Byte, data: Bytes)
    requires FULL <= kind as int <= LAST && |data| < BLOCK_SIZE
    requires |Physical(crc, kind, data)| <= |i.buffer|
    requires i.buffer == Physical(crc, kind, data) + i.buffer[|Physical(crc, kind, data)|..]
    ensures Parse(crc, i) == (i.(buffer := i.buffer[|Physical(crc, kind, data)|..]), kind as int, data)
  {
    var header := Header(crc, kind, data);
    assert LengthField(i.buffer) == |data|;
    assert i.buffer[..4] == Fixed32(Mask(crc([kind] + data)));
    assert i.buffer[6..HEADER_SIZE + |data|] == [kind] + data;
    Fixed32RoundTrip(Mask(crc([kind] + data)));
    UnmaskMask(crc([kind] + data));
    assert i.buffer[HEADER_SIZE..HEADER_SIZE + |data|] == data;
  }

  /** A torn physical record at the end of the file is an end of file, not a corruption. */
  lemma {:induction false} ParseTorn(crc: Checksum, i: Input, kind: Byte, data: Bytes)
    requires |data| < BLOCK_SIZE && i.eof && HEADER_SIZE <= |i.buffer| < HEADER_SIZE + |data|
    requires exists missing :: i.buffer + missing == Physical(crc, kind, data)
    ensures Parse(crc, i) == (i.Clear(), EOF, [])
  {
    var missing :| i.buffer + missing == Physical(crc, kind, data);
    assert forall k :: 0 <= k < HEADER_SIZE ==> i.buffer[k] == (i.buffer + missing)[k];
    assert LengthField(i.buffer) == |data|;
  }

  /** The first fragment of what is left of a record, when it is all there. */
  lemma {:induction false} ReadFirstWhole(crc: Checksum, i: Input, off: BlockOffset, data: Bytes, begin: bool,
                                          more: Bytes)
    requires Aligned(i, off) && Ahead(i) == FirstFragment(crc, off, data, begin) + more
    ensures var (j, k, fragment) := ReadPhysical(crc, i);
            var n := Take(off, data);
            && k == FragmentKind(begin, n == |data|) as int && fragment == data[..n] && j.drops == i.drops
            && Aligned(j, HeaderAt(off) + HEADER_SIZE + n) && Ahead(j) == more
  {
    var n, f := Take(off, data), Fill(i);
    var kind := FragmentKind(begin, n == |data|);
    var physical := Physical(crc, kind, data[..n]);
    JoinBytes(Zeros(Padding(off)), physical, more);
    FillSkipsPadding(i, off, physical + more);
    Resplit(f.buffer, f.rest, physical, more);
    ParseWhole(crc, f, kind, data[..n]);
  }

  /** The first fragment of what is left of a record, when the file ends inside it. */
  lemma {:induction false} ReadFirstTorn(crc: Checksum, i: Input, off: BlockOffset, data: Bytes, begin: bool,
                                         missing: Bytes)
    requires Aligned(i, off) && Ahead(i) + missing == FirstFragment(crc, off, data, begin) && missing != []
    ensures var (j, k, fragment) := ReadPhysical(crc, i); k == EOF && j.drops == i.drops
  {
    var n, f, pad := Take(off, data), Fill(i), Zeros(Padding(off));
    var kind := FragmentKind(begin, n == |data|);
    var physical := Physical(crc, kind, data[..n]);
    if |pad| <= |Ahead(i)| {
      Resplit(Ahead(i), missing, pad, physical);
      FillSkipsPadding(i, off, Ahead(i)[|pad|..]);
      if |f.buffer| >= HEADER_SIZE {
        assert f.buffer + missing == physical;
        ParseTorn(crc, f, kind, data[..n]);
      }
    }
  }

  /** What one physical record does to ReadRecord, for the orders a writer produces. */
  lemma {:induction false} ReadRecordStep(crc: Checksum, i: Input, begin: bool, scratch: Bytes)
    requires begin ==> scratch == []
    ensures var (j, k, fragment) := ReadPhysical(crc, i);
            && (k == FragmentKind(begin, true) as int ==>
                ReadRecord(crc, i, !begin, scratch) == (j, Got(scratch + fragment)))
            && (k == FragmentKind(begin, false) as int ==>
                  ReadRecord(crc, i, !begin, scratch) == ReadRecord(crc, j, true, scratch + fragment))
            && (k == EOF ==> ReadRecord(crc, i, !begin, scratch) == (j, End))
  {
    var (j, k, fragment) := ReadPhysical(crc, i);
    assert [] + fragment == fragment;
  }

  /** The rest of a record that is all there is put together, and the reader is left behind it. */
  lemma {:induction false} ReadWhole(crc: Checksum, i: Input, off: BlockOffset, data: Bytes, begin: bool,
                                     scratch: Bytes, more: Bytes)
    requires Aligned(i, off) && (begin ==> scratch == []) && Ahead(i) == Emit(crc, off, data, begin) + more
    ensures var (j, r) := ReadRecord(crc, i, !begin, scratch);
            r == Got(scratch + data) && j.drops == i.drops && Aligned(j, After(off, data)) && Ahead(j) == more
    decreases |data|, BLOCK_SIZE - off
  {
    var n, next, later := EmitSplits(crc, off, data, begin);
    JoinBytes(FirstFragment(crc, off, data, begin), later, more);
    ReadFirstWhole(crc, i, off, data, begin, later + more);
    ReadRecordStep(crc, i, begin, scratch);
    Rejoin(scratch, data, n);
    if n < |data| {
      ReadWhole(crc, ReadPhysical(crc, i).0, next, data[n..], false, scratch + data[..n], more);
    }
  }

  /** A record cut short is the end of the log. */
  lemma {:induction false} ReadTorn(crc: Checksum, i: Input, off: BlockOffset, data: Bytes, begin: bool,
                                    scratch: Bytes, missing: Bytes)
    requires Aligned(i, off) && (begin ==> scratch == [])
    requires Ahead(i) + missing == Emit(crc, off, data, begin) && missing != []
    ensures var (j, r) := ReadRecord(crc, i, !begin, scratch); r == End && j.drops == i.drops
    decreases |data|, BLOCK_SIZE - off
  {
    var n, next, later := EmitSplits(crc, off, data, begin);
    var first := FirstFragment(crc, off, data, begin);
    Resplit(Ahead(i), missing, first, later);
    ReadRecordStep(crc, i, begin, scratch);
    if |first| <= |Ahead(i)| {
      ReadFirstWhole(crc, i, off, data, begin, Ahead(i)[|first|..]);
      ReadTorn(crc, ReadPhysical(crc, i).0, next, data[n..], false, scratch + data[..n], missing);
    } else {
      ReadFirstTorn(crc, i, off, data, begin, first[|Ahead(i)|..]);
    }
  }

  lemma {:induction false} Rejoin(scratch: Bytes, data: Bytes, n: nat)
    requires n <= |data|
    ensures scratch + data[..n] + data[n..] == scratch + data
    ensures n == |data| ==> data[..n] == data
  {
  }

  /** How many of the records fit whole into the first n bytes. */
  function Whole(crc: Checksum, off: BlockOffset, records: seq<Bytes>, n: nat): (w: nat)
    ensures w <= |records|
    decreases records
  {
    if records == [] then 0
    else
      var one := |Emit(crc, off, records[0], true)|;
      if n < one then 0 else 1 + Whole(crc, After(off, records[0]), records[1..], n - one)
  }

  lemma {:induction false} ReadNone(crc: Checksum, i: Input, off: BlockOffset, data: Bytes, missing: Bytes)
    requires Aligned(i, off) && Ahead(i) + missing == Emit(crc, off, data, true) && missing != []
    ensures ReadAll(crc, i) == ([], i.drops)
  {
    ReadTorn(crc, i, off, data, true, [], missing);
  }

  lemma {:induction false} ReadPrefix(crc: Checksum, i: Input, off: BlockOffset, records: seq<Bytes>, missing: Bytes)
    requires Aligned(i, off) && Ahead(i) + missing == EmitAll(crc, off, records)
    ensures ReadAll(crc, i) == (records[..Whole(crc, off, records, |Ahead(i)|)], i.drops)
    decreases records
  {
    if records == [] {
      var n, next, later := EmitSplits(crc, off, [], true);
      assert Ahead(i) + Emit(crc, off, [], true) == Emit(crc, off, [], true);
      ReadNone(crc, i, off, [], Emit(crc, off, [], true));
    } else {
      var one, later := Emit(crc, off, records[0], true), EmitAll(crc, After(off, records[0]), records[1..]);
      Resplit(Ahead(i), missing, one, later);
      if |Ahead(i)| < |one| {
        ReadNone(crc, i, off, records[0], one[|Ahead(i)|..]);
      } else {
        var j := ReadOne(crc, i, off, records[0], Ahead(i)[|one|..]);
        ReadPrefix(crc, j, After(off, records[0]), records[1..], missing);
        var w := Whole(crc, After(off, records[0]), records[1..], |Ahead(j)|);
        assert Whole(crc, off, records, |Ahead(i)|) == 1 + w;
        TakeCons(records, w);
      }
    }
  }

  lemma {:induction false} ReadOne(crc: Checksum, i: Input, off: BlockOffset, data: Bytes, more: Bytes)
    returns (j: Input)
    requires Aligned(i, off) && Ahead(i) == Emit(crc, off, data, true) + more
    ensures j.drops == i.drops
    ensures ReadAll(crc, i) == ([data] + ReadAll(crc, j).0, ReadAll(crc, j).1)
    ensures Aligned(j, After(off, data)) && Ahead(j) == more
  {
    ReadWhole(crc, i, off, data, true, [], more);
    j := ReadRecord(crc, i, false, []).0;
    assert [] + data == data;
  }

  lemma {:induction false} TakeCons(s: seq<Bytes>, w: nat)
    requires 0 < |s| && 1 + w <= |s|
    ensures s[..1 + w] == [s[0]] + s[1..][..w]
  {
  }

  lemma {:induction false} EndIsStart(crc: Checksum, records: seq<Bytes>)
    ensures EmitAll(crc, BLOCK_SIZE, records) == EmitAll(crc, 0, records)
    ensures forall n: nat :: Whole(crc, BLOCK_SIZE, records, n) == Whole(crc, 0, records, n)
  {
    if records != [] {
      assert Zeros(0) == [];
      assert FirstFragment(crc, BLOCK_SIZE, records[0], true) == FirstFragment(crc, 0, records[0], true);
      assert Emit(crc, BLOCK_SIZE, records[0], true) == Emit(crc, 0, records[0], true);
      assert After(BLOCK_SIZE, records[0]) == After(0, records[0]);
    }
  }

  /** Whatever prefix of the log file survives a crash, reading it yields the records whole in it, in
      order, and reports nothing. */
  lemma {:induction false} CrashPrefix(crc: Checksum, records: seq<Bytes>, n: nat)
    requires n <= |EmitAll(crc, 0, records)|
    ensures ReadAll(crc, Open(EmitAll(crc, 0, records)[..n])) == (records[..Whole(crc, 0, records, n)], [])
  {
    var file := EmitAll(crc, 0, records)[..n];
    EndIsStart(crc, records);
    assert Ahead(Open(file)) == file;
    assert file + EmitAll(crc, 0, records)[n..] == EmitAll(crc, 0, records);
    ReadPrefix(crc, Open(file), BLOCK_SIZE, records, EmitAll(crc, 0, records)[n..]);
  }

  lemma {:induction false} WholeOfAll(crc: Checksum, off: BlockOffset, records: seq<Bytes>)
    ensures Whole(crc, off, records, |EmitAll(crc, off, records)|) == |records|
    decreases records
  {
    if records != [] {
      WholeOfAll(crc, After(off, records[0]), records[1..]);
    }
  }

  /** An untouched log reads back exactly. */
  lemma {:induction false} RoundTrip(crc: Checksum, records: seq<Bytes>, file: Bytes)
    requires file == EmitAll(crc, 0, records)
    ensures ReadAll(crc, Open(file)) == (records, [])
  {
    CrashPrefix(crc, records, |file|);
    WholeOfAll(crc, 0, records);
    assert file[..|file|] == file;
    assert records[..|records|] == records;
  }
}
