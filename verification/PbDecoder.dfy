/** pb_decode_noinit as a loop with its field iterator and its bitmap of required fields (nanopb: pb_decode). */
module PbDecoder {
  import opened Keys
  import opened Coding
  import opened PbWire
  import opened PbFields
  import opened PbDecode

  // ----- varints, in the code's form -----

  method DecodeVarint(s: Bytes) returns (r: Read<nat>)
    ensures r == Varint64(s)
  {
    var rest, k: nat, result: nat := s, 0, 0;
    while k < 10
      invariant k <= 10 && Varint64(s) == ReadGroups(rest, k, result)
    {
      if rest == [] {
        return Fail;
      }
      var byte := rest[0];
      rest := rest[1..];
      result := Wrap64(result + Placed(byte % 0x80, Power(k)));
      k := k + 1;
      if byte < 0x80 {
        return Got(result, rest);
      }
    }
    return Fail;
  }

  method DecodeVarint32(s: Bytes) returns (r: Read<nat>)
    ensures r == Varint32(s)
  {
    if s == [] {
      return Fail;
    }
    if s[0] < 0x80 {
      return Got(s[0], s[1..]);
    }
    var bitpos: nat, result: nat, rest := 7, s[0] % 0x80, s[1..];
    while true
      invariant Varint32(s) == ReadMore(rest, bitpos, result)
      decreases |rest|
    {
      if rest == [] {
        return Fail;
      }
      var byte := rest[0];
      rest := rest[1..];
      if bitpos >= 32 {
        if Overflows(result, bitpos, byte) {
          return Fail;
        }
      } else {
        result := Wrap(result + Placed(byte % 0x80, TwoTo(bitpos)));
      }
      bitpos := (bitpos + 7) % 256;
      if byte < 0x80 {
        return if bitpos == 35 && byte / 0x10 % 8 != 0 then Fail else Got(result, rest);
      }
    }
  }

  // ----- the bitmap -----

  /** Bit b of the word says whether base + b is marked. */
  ghost predicate WordShows(word: nat, base: nat, marks: set<nat>) {
    word < TwoTo(32) && forall b {:trigger BitOf(word, b)} :: 0 <= b < 32 ==> (BitOf(word, b) <==> base + b in marks)
  }

  lemma {:induction false} MarkShows(word: nat, base: nat, marks: set<nat>, b: nat)
    requires WordShows(word, base, marks) && b < 32
    ensures WordShows(WithBit(word, b), base, marks + {base + b})
  {
    WithBitFits(word, b, 32);
    forall j | 0 <= j < 32 ensures BitOf(WithBit(word, b), j) <==> base + j in marks + {base + b} {
      WithBitMeans(word, b, j);
    }
  }

  lemma {:induction false} ElsewhereShows(word: nat, base: nat, marks: set<nat>, m: nat)
    requires WordShows(word, base, marks) && (m < base || base + 32 <= m)
    ensures WordShows(word, base, marks + {m})
  {
  }

  lemma {:induction false} NothingShows(base: nat)
    ensures WordShows(0, base, {})
  {
    forall b | 0 <= b < 32 ensures !BitOf(0, b) {
      NoBits(b);
    }
  }

  /** allbits >> (32 - n). */
  function Ones(n: nat): nat {
    TwoTo(n) - 1
  }

  predicate Full(word: nat, n: nat) {
    n == 0 || (word % 2 == 1 && Full(word / 2, n - 1))
  }

  lemma {:induction false} FullValue(word: nat, n: nat)
    requires word < TwoTo(n)
    ensures word == Ones(n) <==> Full(word, n)
  {
    if n > 0 {
      assert TwoTo(n) == 2 * TwoTo(n - 1);
      FullValue(word / 2, n - 1);
    }
  }

  lemma {:induction false} FullBit(word: nat, n: nat, b: nat)
    requires b < n
    ensures Full(word, n) ==> BitOf(word, b)
  {
    if b > 0 {
      FullBit(word / 2, n - 1, b - 1);
    }
  }

  lemma {:induction false} MissingBit(word: nat, n: nat) returns (b: nat)
    ensures !Full(word, n) ==> b < n && !BitOf(word, b)
  {
    if n == 0 || word % 2 == 0 {
      b := 0;
    } else {
      var c := MissingBit(word / 2, n - 1);
      b := c + 1;
    }
  }

  lemma {:induction false} HighBit(word: nat, n: nat, top: nat) returns (b: nat)
    requires n <= top && word < TwoTo(top)
    ensures word >= TwoTo(n) ==> n <= b < top && BitOf(word, b)
    decreases top
  {
    if top == 0 || (n == 0 && word % 2 == 1) {
      b := 0;
    } else {
      var m := if n > 0 then n - 1 else 0;
      assert TwoTo(top) == 2 * TwoTo(top - 1) && (n > 0 ==> TwoTo(n) == 2 * TwoTo(m));
      var c := HighBit(word / 2, m, top - 1);
      b := c + 1;
    }
  }

  /** Comparing a word with its n lowest bits set. */
  lemma {:induction false} WordIsFull(word: nat, base: nat, marks: set<nat>, n: nat)
    requires WordShows(word, base, marks) && n <= 32 && forall m :: m in marks && m < base + 32 ==> m < base + n
    ensures word == Ones(n) <==> forall m :: base <= m < base + n ==> m in marks
  {
    var high := HighBit(word, n, 32);
    assert word < TwoTo(n) by {
      assert 0 <= high < 32 ==> (BitOf(word, high) ==> base + high in marks);
    }
    FullValue(word, n);
    var missing := MissingBit(word, n);
    assert !Full(word, n) ==> base + missing !in marks;
    forall m | base <= m < base + n ensures Full(word, n) ==> m in marks {
      FullBit(word, n, m - base);
    }
  }

  // ----- which required fields are marked -----

  function Least(a: nat, b: nat): nat {
    if a < b then a else b
  }

  /** How many required fields the bitmap is about. */
  function Limit(fields: seq<Field>): nat {
    Least(RequiredBefore(fields, |fields|), MAX_REQUIRED_FIELDS)
  }

  lemma {:induction false} RequiredGrows(fields: seq<Field>, i: nat, j: nat)
    requires i <= j <= |fields|
    ensures RequiredBefore(fields, i) <= RequiredBefore(fields, j)
    ensures i < j && fields[i].rule.Required? ==> RequiredBefore(fields, i) < RequiredBefore(fields, j)
  {
    if i < j {
      RequiredGrows(fields, i, j - 1);
    }
  }

  lemma {:induction false} NthRequired(fields: seq<Field>, n: nat, m: nat) returns (i: nat)
    requires n <= |fields| && m < RequiredBefore(fields, n)
    ensures i < n && fields[i].rule.Required? && RequiredBefore(fields, i) == m
  {
    if m < RequiredBefore(fields, n - 1) {
      i := NthRequired(fields, n - 1, m);
    } else {
      i := n - 1;
    }
  }

  ghost predicate Tracks(fields: seq<Field>, seen: set<nat>, marks: set<nat>) {
    && (forall i :: 0 <= i < |fields| && Demanded(fields, i) ==> (i in seen <==> RequiredBefore(fields, i) in marks))
    && forall m :: m in marks ==> m < Limit(fields)
  }

  lemma {:induction false} TrackOther(fields: seq<Field>, seen: set<nat>, marks: set<nat>, i: nat)
    requires Tracks(fields, seen, marks) && !Demanded(fields, i)
    ensures Tracks(fields, seen + {i}, marks)
  {
  }

  lemma {:induction false} TrackRequired(fields: seq<Field>, seen: set<nat>, marks: set<nat>, i: nat)
    requires Tracks(fields, seen, marks) && Demanded(fields, i)
    ensures Tracks(fields, seen + {i}, marks + {RequiredBefore(fields, i)})
  {
    RequiredGrows(fields, i, |fields|);
    forall j | 0 <= j < |fields| && Demanded(fields, j) && j != i
      ensures RequiredBefore(fields, j) != RequiredBefore(fields, i)
    {
      RequiredGrows(fields, Least(i, j), if i < j then j else i);
    }
  }

  lemma {:induction false} AllMarked(fields: seq<Field>, seen: set<nat>, marks: set<nat>)
    requires Tracks(fields, seen, marks)
    ensures AllSeen(fields, seen) <==> forall m :: 0 <= m < Limit(fields) ==> m in marks
  {
    if AllSeen(fields, seen) {
      forall m | 0 <= m < Limit(fields) ensures m in marks {
        var i := NthRequired(fields, |fields|, m);
        assert Demanded(fields, i);
      }
    }
    forall i | 0 <= i < |fields| && Demanded(fields, i) ensures RequiredBefore(fields, i) < Limit(fields) {
      RequiredGrows(fields, i, |fields|);
    }
  }

  /** The comparison of the two words at the end of pb_decode_noinit. */
  method NoneMissing(count: nat, word0: nat, word1: nat, ghost marks: set<nat>) returns (ok: bool)
    requires WordShows(word0, 0, marks) && WordShows(word1, 32, marks)
    requires forall m :: m in marks ==> m < Least(count, MAX_REQUIRED_FIELDS)
    ensures ok <==> forall m :: 0 <= m < Least(count, MAX_REQUIRED_FIELDS) ==> m in marks
  {
    var n := Least(count, MAX_REQUIRED_FIELDS);
    WordIsFull(word0, 0, marks, Least(n, 32));
    if n >= 32 {
      WordIsFull(word1, 32, marks, n - 32);
    }
    ok := if n / 32 == 0 then word0 == Ones(n % 32)
          else if n / 32 == 1 then word0 == Ones(32) && word1 == Ones(n % 32)
          else word0 == Ones(32) && word1 == Ones(32);
  }

  /** Counts the required fields by walking on to the end. */
  method CountRequired(iter: FieldIter) returns (count: nat)
    requires iter.Ok()
    modifies iter
    ensures iter.Ok() && count == RequiredBefore(iter.fields, |iter.fields|)
  {
    count := iter.requiredFieldIndex;
    if iter.fields == [] {
      return;
    }
    var last := iter.fields[iter.pos];
    var more := iter.Next();
    while more
      invariant iter.Ok() && iter.fields != []
      invariant if more then iter.pos > 0 && last == iter.fields[iter.pos - 1] &&
                count == RequiredBefore(iter.fields, iter.pos - 1)
                else last == iter.fields[|iter.fields| - 1] && count == RequiredBefore(iter.fields, |iter.fields| - 1)
      decreases if more then |iter.fields| - iter.pos else 0
    {
      count := iter.requiredFieldIndex;
      last := iter.fields[iter.pos];
      more := iter.Next();
    }
    if last.rule.Required? {
      count := count + 1;
    }
  }

  // ----- the loop -----

  lemma {:induction false} FoundIs(fields: seq<Field>, i: nat, tag: nat)
    requires FieldsOk(fields) && i < |fields| && fields[i].tag == tag
    ensures Index(fields, tag) == i
  {
    FieldsMeans(fields, Index(fields, tag));
  }

  method Mark(index: nat, word0: nat, word1: nat, ghost marks: set<nat>) returns (new0: nat, new1: nat)
    requires index < MAX_REQUIRED_FIELDS && WordShows(word0, 0, marks) && WordShows(word1, 32, marks)
    ensures WordShows(new0, 0, marks + {index}) && WordShows(new1, 32, marks + {index})
  {
    new0, new1 := word0, word1;
    if index / 32 == 0 {
      new0 := WithBit(word0, index % 32);
      MarkShows(word0, 0, marks, index);
      ElsewhereShows(word1, 32, marks, index);
    } else {
      new1 := WithBit(word1, index % 32);
      MarkShows(word1, 32, marks, index - 32);
      ElsewhereShows(word0, 0, marks, index);
    }
  }

  method DecodeNoInit(fields: seq<Field>, before: seq<Cell>, s: Bytes) returns (ok: bool, cells: seq<Cell>)
    requires FieldsOk(fields) && |before| == |fields|
    ensures ok == DecodeOnto(fields, before, s).Decoded? && (ok ==> cells == DecodeOnto(fields, before, s).cells)
  {
    var iter := new FieldIter(fields);
    var word0, word1 := 0, 0;
    var rest, open := s, true;
    cells := before;
    ghost var seen: set<nat>, marks: set<nat> := {}, {};
    NothingShows(0);
    NothingShows(32);
    while open && rest != []
      invariant iter.Ok() && iter.fields == fields && |cells| == |fields|
      invariant ReadFields(fields, before, s, {}) == if open then ReadFields(fields, cells, rest, seen)
                else Decoded(cells, seen)
      invariant WordShows(word0, 0, marks) && WordShows(word1, 32, marks) && Tracks(fields, seen, marks)
      decreases |rest|, open
    {
      var key := DecodeVarint32(rest);
      if key.Fail? {
        return false, cells;
      }
      if key.value == 0 {
        open := false;
      } else {
        var found := iter.Find(key.value / 8);
        if !found {
          var skipped := SkipField(key.value % 8, key.rest);
          if skipped.Fail? {
            return false, cells;
          }
          rest := skipped.rest;
        } else {
          FoundIs(fields, iter.pos, key.value / 8);
          if fields[iter.pos].rule.Required? && iter.requiredFieldIndex < MAX_REQUIRED_FIELDS {
            TrackRequired(fields, seen, marks, iter.pos);
            word0, word1 := Mark(iter.requiredFieldIndex, word0, word1, marks);
            marks := marks + {iter.requiredFieldIndex};
          } else {
            TrackOther(fields, seen, marks, iter.pos);
          }
          seen := seen + {iter.pos};
          var r := ReadField(fields, cells, iter.pos, key.value % 8, key.rest);
          if r.Fail? {
            return false, cells;
          }
          cells, rest := r.value, r.rest;
        }
      }
    }
    AllMarked(fields, seen, marks);
    var count := CountRequired(iter);
    ok := NoneMissing(count, word0, word1, marks);
  }
}
