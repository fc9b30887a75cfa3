/** The write-ahead log: records fragmented into 32 KiB blocks, and the reader that puts them together.
    Both run from offset 0 with checksums on, as the database uses them. */
module Log {
  import opened Keys
  import opened Coding

  const BLOCK_SIZE := 32768
  const HEADER_SIZE := 7

  // record types
  const ZERO := 0
  const FULL := 1
  const FIRST := 2
  const MIDDLE := 3
  const LAST := 4
  // what ReadPhysicalRecord may return besides
  const EOF := 5
  const BAD := 6

  /** The checksum is any function of the type byte and the payload. */
  type Checksum = Bytes -> Word

  /** An offset into a block; BLOCK_SIZE is its end. */
  type BlockOffset = o: nat | o <= BLOCK_SIZE

  // ----- the format -----

  function Header(crc: Checksum, kind: Byte, data: Bytes): (h: Bytes)
    requires |data| < BLOCK_SIZE
    ensures |h| == HEADER_SIZE
  {
    Fixed32(Mask(crc([kind] + data))) + [|data| % 256, |data| / 256, kind]
  }

  function Physical(crc: Checksum, kind: Byte, data: Bytes): Bytes
    requires |data| < BLOCK_SIZE
  {
    Header(crc, kind, data) + data
  }

  /** Zero bytes written to leave a block that has no room for a header. */
  function Padding(off: BlockOffset): (n: nat)
    ensures n < HEADER_SIZE
  {
    if BLOCK_SIZE - off < HEADER_SIZE then BLOCK_SIZE - off else 0
  }

  function HeaderAt(off: BlockOffset): (o: BlockOffset)
    ensures o + HEADER_SIZE <= BLOCK_SIZE
  {
    if BLOCK_SIZE - off < HEADER_SIZE then 0 else off
  }

  /** How much of the data goes into the first fragment. */
  function Take(off: BlockOffset, data: Bytes): (n: nat)
    ensures n <= |data| && HeaderAt(off) + HEADER_SIZE + n <= BLOCK_SIZE
  {
    var avail := BLOCK_SIZE - HeaderAt(off) - HEADER_SIZE;
    if |data| < avail then |data| else avail
  }

  function FragmentKind(begin: bool, end: bool): Byte {
    if begin && end then FULL else if begin then FIRST else if end then LAST else MIDDLE
  }

  function Zeros(n: nat): Bytes {
    seq(n, _ => 0)
  }

  function FirstFragment(crc: Checksum, off: BlockOffset, data: Bytes, begin: bool): Bytes {
    var n := Take(off, data);
    Zeros(Padding(off)) + Physical(crc, FragmentKind(begin, n == |data|), data[..n])
  }

  /** The bytes AddRecord appends at block offset off. */
  function Emit(crc: Checksum, off: BlockOffset, data: Bytes, begin: bool): Bytes
    decreases |data|, BLOCK_SIZE - off
  {
    var n := Take(off, data);
    FirstFragment(crc, off, data, begin)
    + if n == |data| then [] else Emit(crc, HeaderAt(off) + HEADER_SIZE + n, data[n..], false)
  }

  /** The block offset after the record. */
  function After(off: BlockOffset, data: Bytes): BlockOffset
    decreases |data|, BLOCK_SIZE - off
  {
    var n := Take(off, data);
    var next := HeaderAt(off) + HEADER_SIZE + n;
    if n == |data| then next else After(next, data[n..])
  }

  /** What the log holds after adding the records, from block offset off on. */
  function EmitAll(crc: Checksum, off: BlockOffset, records: seq<Bytes>): Bytes
    decreases records
  {
    if records == [] then []
    else Emit(crc, off, records[0], true) + EmitAll(crc, After(off, records[0]), records[1..])
  }

  /** One round of AddRecord: the first fragment, then what is still to be emitted. */
  lemma {:induction false} EmitSplits(crc: Checksum, off: BlockOffset, data: Bytes, begin: bool)
    returns (n: nat, next: BlockOffset, later: Bytes)
    ensures n == Take(off, data) && next == HeaderAt(off) + HEADER_SIZE + n
    ensures Emit(crc, off, data, begin) == FirstFragment(crc, off, data, begin) + later
    ensures n == |data| ==> later == [] && After(off, data) == next
    ensures n < |data| ==> later == Emit(crc, next, data[n..], false) && After(off, data) == After(next, data[n..])
  {
    n := Take(off, data);
    next := HeaderAt(off) + HEADER_SIZE + n;
    later := if n == |data| then [] else Emit(crc, next, data[n..], false);
  }

  class Writer {
    const crc: Checksum
    var dest: Bytes
    var blockOffset: BlockOffset

    /** Appends to what dest already holds. */
    constructor (crc: Checksum, dest: Bytes)
      ensures this.dest == dest && this.crc == crc && blockOffset == |dest| % BLOCK_SIZE
    {
      this.crc, this.dest := crc, dest;
      blockOffset := |dest| % BLOCK_SIZE;
    }

    method AddRecord(slice: Bytes)
      modifies this
      ensures dest == old(dest) + Emit(crc, old(blockOffset), slice, true)
      ensures blockOffset == After(old(blockOffset), slice)
    {
      var ptr := 0;
      var begin := true;
      ghost var rest, todo := slice, Emit(crc, blockOffset, slice, true);
      ghost var end := After(blockOffset, slice);
      while true
        invariant 0 <= ptr <= |slice| && rest == slice[ptr..]
        invariant todo == Emit(crc, blockOffset, rest, begin) && After(blockOffset, rest) == end
        invariant dest + todo == old(dest) + Emit(crc, old(blockOffset), slice, true)
        decreases |slice| - ptr, BLOCK_SIZE - blockOffset
      {
        ghost var first := FirstFragment(crc, blockOffset, rest, begin);
        ghost var n, next, later := EmitSplits(crc, blockOffset, rest, begin);
        JoinBytes(dest, first, later);
        var length := EmitFragment(slice[ptr..], begin);
        todo, rest := later, rest[n..];
        ptr := ptr + length;
        begin := false;
        if ptr == |slice| {
          assert dest + [] == dest;
          return;
        }
      }
    }

    /** Writes the padding, if any, and one fragment of what is left of the record. */
    method EmitFragment(rest: Bytes, begin: bool) returns (length: nat)
      modifies this
      ensures length == Take(old(blockOffset), rest)
      ensures dest == old(dest) + FirstFragment(crc, old(blockOffset), rest, begin)
      ensures blockOffset == HeaderAt(old(blockOffset)) + HEADER_SIZE + length
    {
      ghost var off := blockOffset;
      var leftover := BLOCK_SIZE - blockOffset;
      if leftover < HEADER_SIZE {
        // a header does not fit here any more
        dest := dest + Zeros(leftover);
        blockOffset := 0;
      }
      assert dest == old(dest) + Zeros(Padding(off));
      var avail := BLOCK_SIZE - blockOffset - HEADER_SIZE;
      length := if |rest| < avail then |rest| else avail;
      EmitPhysicalRecord(FragmentKind(begin, length == |rest|), rest[..length]);
    }

    method EmitPhysicalRecord(kind: Byte, data: Bytes)
      requires blockOffset + HEADER_SIZE + |data| <= BLOCK_SIZE
      modifies this
      ensures dest == old(dest) + Physical(crc, kind, data)
      ensures blockOffset == old(blockOffset) + HEADER_SIZE + |data|
    {
      dest := dest + Header(crc, kind, data);
      dest := dest + data;
      assert dest == old(dest) + Physical(crc, kind, data);
      blockOffset := blockOffset + HEADER_SIZE + |data|;
    }
  }

  // ----- the reader -----

  /** The reader's position: the block in the buffer, what has not been read, and the bytes of each drop
      reported so far. */
  datatype Input = Input(buffer: Bytes, rest: Bytes, eof: bool, drops: seq<nat>) {
    function Left(): nat {
      |buffer| + |rest| + if eof then 0 else 1
    }

    function ReadBlock(): Input {
      if |rest| < BLOCK_SIZE then Input(rest, [], true, drops)
      else Input(rest[..BLOCK_SIZE], rest[BLOCK_SIZE..], false, drops)
    }

    function Clear(): Input {
      this.(buffer := [])
    }

    function Report(bytes: nat): Input {
      this.(drops := drops + [bytes])
    }
  }

  function Open(file: Bytes): Input {
    Input([], file, false, [])
  }

  function LengthField(header: Bytes): nat
    requires |header| >= HEADER_SIZE
  {
    header[4] as int + 256 * header[5] as int
  }

  /** Reads blocks until there is room for a header, or the end of the file is known. */
  function Fill(i: Input): (j: Input)
    ensures j.Left() <= i.Left() && (|j.buffer| < HEADER_SIZE ==> j.eof) && j.drops == i.drops
    ensures i.eof ==> j == i
    decreases if i.eof then 0 else 1, |i.rest|
  {
    if |i.buffer| < HEADER_SIZE && !i.eof then Fill(i.ReadBlock()) else i
  }

  /** Takes the physical record at the front of the buffer apart. */
  function Parse(crc: Checksum, i: Input): (r: (Input, nat, Bytes))
    requires |i.buffer| >= HEADER_SIZE
    ensures r.0.Left() < i.Left()
  {
    var length := LengthField(i.buffer);
    var kind := i.buffer[6] as int;
    if HEADER_SIZE + length > |i.buffer| then
      if i.eof then (i.Clear(), EOF, []) else (i.Clear().Report(|i.buffer|), BAD, [])
    else if kind == ZERO && length == 0 then (i.Clear(), BAD, [])
    else if Unmask(DecodeFixed32(i.buffer[..4])) != crc(i.buffer[6..HEADER_SIZE + length]) then
      (i.Clear().Report(|i.buffer|), BAD, [])
    else (i.(buffer := i.buffer[HEADER_SIZE + length..]), kind, i.buffer[HEADER_SIZE..HEADER_SIZE + length])
  }

  /** ReadPhysicalRecord: the new position, the record type or EOF or BAD, and the fragment. */
  function ReadPhysical(crc: Checksum, i: Input): (r: (Input, nat, Bytes))
    ensures r.0.Left() <= i.Left() && (r.1 != EOF ==> r.0.Left() < i.Left())
  {
    var f := Fill(i);
    if |f.buffer| < HEADER_SIZE then (f.Clear(), EOF, []) else Parse(crc, f)
  }

  datatype Record = End | Got(data: Bytes)

  /** A round of ReadRecord's loop ends it, or leaves a fragmented record under construction or not. */
  datatype Round = Done(record: Record) | More(inFragment: bool, scratch: Bytes)

  function Assemble(j: Input, kind: nat, fragment: Bytes, inFragment: bool, scratch: Bytes): (r: (Input, Round))
    ensures r.0.Left() == j.Left() && (kind == EOF ==> r.1 == Done(End))
  {
    if kind == FULL then ((if inFragment && scratch != [] then j.Report(|scratch|) else j), Done(Got(fragment)))
    else if kind == FIRST then ((if inFragment && scratch != [] then j.Report(|scratch|) else j), More(true, fragment))
    else if kind == MIDDLE then
      if inFragment then (j, More(true, scratch + fragment)) else (j.Report(|fragment|), More(false, scratch))
    else if kind == LAST then
      if inFragment then (j, Done(Got(scratch + fragment))) else (j.Report(|fragment|), More(false, scratch))
    else if kind == EOF then (j, Done(End))
    else if kind == BAD then
      if inFragment then (j.Report(|scratch|), More(false, [])) else (j, More(false, scratch))
    else (j.Report(|fragment| + if inFragment then |scratch| else 0), More(false, []))
  }

  /** ReadRecord from the middle of its loop: inFragment and scratch are what it has put together so far. */
  function ReadRecord(crc: Checksum, i: Input, inFragment: bool, scratch: Bytes): (r: (Input, Record))
    ensures r.1.Got? ==> r.0.Left() < i.Left()
    decreases i.Left()
  {
    var (j, kind, fragment) := ReadPhysical(crc, i);
    var (k, round) := Assemble(j, kind, fragment, inFragment, scratch);
    if round.Done? then (k, round.record) else ReadRecord(crc, k, round.inFragment, round.scratch)
  }

  /** Reading until the end: the records, and the drops reported. */
  function ReadAll(crc: Checksum, i: Input): (seq<Bytes>, seq<nat>)
    decreases i.Left()
  {
    var (j, r) := ReadRecord(crc, i, false, []);
    if r.End? then ([], j.drops)
    else var (records, drops) := ReadAll(crc, j); ([r.data] + records, drops)
  }

  class Reader {
    const crc: Checksum
    const file: Bytes
    var filePosition: nat
    var buffer: Bytes
    var eof: bool
    /** What has been reported to the Reporter: the size of each drop. */
    var drops: seq<nat>

    ghost predicate Ok()
      reads this
    {
      filePosition <= |file|
    }

    ghost function State(): Input
      requires Ok()
      reads this
    {
      Input(buffer, if eof then [] else file[filePosition..], eof, drops)
    }

    constructor (crc: Checksum, file: Bytes)
      ensures Ok() && State() == Open(file) && this.crc == crc
    {
      this.crc, this.file := crc, file;
      filePosition, buffer, eof, drops := 0, [], false, [];
    }

    method FillBuffer()
      requires Ok()
      modifies this
      ensures Ok() && State() == Fill(old(State()))
    {
      while |buffer| < HEADER_SIZE && !eof
        invariant Ok() && Fill(State()) == Fill(old(State()))
        decreases if eof then 0 else 1, |file| - filePosition
      {
        ghost var before := State();
        var n := if |file| - filePosition < BLOCK_SIZE then |file| - filePosition else BLOCK_SIZE;
        buffer := file[filePosition..filePosition + n];
        filePosition := filePosition + n;
        if |buffer| < BLOCK_SIZE {
          eof := true;
        }
        assert State() == before.ReadBlock();
      }
    }

    method ParseBuffer() returns (kind: nat, fragment: Bytes)
      requires Ok() && |buffer| >= HEADER_SIZE
      modifies this
      ensures Ok() && (State(), kind, fragment) == Parse(crc, old(State()))
    {
      fragment := [];
      var length := LengthField(buffer);
      kind := buffer[6] as int;
      if HEADER_SIZE + length > |buffer| {
        var dropSize := |buffer|;
        buffer := [];
        if !eof {
          drops := drops + [dropSize];
          kind := BAD;
        } else {
          kind := EOF;
        }
      } else if kind == ZERO && length == 0 {
        buffer := [];
        kind := BAD;
      } else if Unmask(DecodeFixed32(buffer[..4])) != crc(buffer[6..HEADER_SIZE + length]) {
        drops := drops + [|buffer|];
        buffer := [];
        kind := BAD;
      } else {
        fragment := buffer[HEADER_SIZE..HEADER_SIZE + length];
        buffer := buffer[HEADER_SIZE + length..];
      }
    }

    method ReadPhysicalRecord() returns (kind: nat, fragment: Bytes)
      requires Ok()
      modifies this
      ensures Ok() && (State(), kind, fragment) == ReadPhysical(crc, old(State()))
    {
      FillBuffer();
      if |buffer| < HEADER_SIZE {
        buffer := [];
        return EOF, [];
      }
      kind, fragment := ParseBuffer();
    }

    method AssembleRound(kind: nat, fragment: Bytes, inFragment: bool, scratch: Bytes) returns (round: Round)
      requires Ok()
      modifies this
      ensures Ok() && (State(), round) == Assemble(old(State()), kind, fragment, inFragment, scratch)
    {
      if kind == FULL {
        if inFragment && scratch != [] {
          drops := drops + [|scratch|];
        }
        return Done(Got(fragment));
      } else if kind == FIRST {
        if inFragment && scratch != [] {
          drops := drops + [|scratch|];
        }
        return More(true, fragment);
      } else if kind == MIDDLE {
        if !inFragment {
          drops := drops + [|fragment|];
          return More(false, scratch);
        }
        return More(true, scratch + fragment);
      } else if kind == LAST {
        if !inFragment {
          drops := drops + [|fragment|];
          return More(false, scratch);
        }
        return Done(Got(scratch + fragment));
      } else if kind == EOF {
        return Done(End);
      } else if kind == BAD {
        if inFragment {
          drops := drops + [|scratch|];
          return More(false, []);
        }
        return More(false, scratch);
      } else {
        drops := drops + [|fragment| + if inFragment then |scratch| else 0];
        return More(false, []);
      }
    }

    method Next() returns (record: Record)
      requires Ok()
      modifies this
      ensures Ok() && (State(), record) == ReadRecord(crc, old(State()), false, [])
    {
      var round := More(false, []);
      while round.More?
        invariant Ok()
        invariant if round.More? then ReadRecord(crc, State(), round.inFragment, round.scratch) ==
                  ReadRecord(crc, old(State()), false, [])
                  else (State(), round.record) == ReadRecord(crc, old(State()), false, [])
        decreases round.More?, State().Left()
      {
        var kind, fragment := ReadPhysicalRecord();
        round := AssembleRound(kind, fragment, round.inFragment, round.scratch);
      }
      record := round.record;
    }
  }
}
