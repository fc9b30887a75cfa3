/** The filter block of a table (table/filter_block): one filter for each 2048 bytes of block offsets, an array of
    where each filter begins, and the reader that finds its way back; over any lawful filter policy. */
module FilterBlock {
  import opened Keys
  import opened Coding
  import opened Bloom

  const BASE := 2048
  const BASE_LG: Byte := 11

  /** FilterPolicy: how to make a filter for a list of keys, and how to ask it. */
  datatype FilterPolicy = FilterPolicy(create: seq<Bytes> -> Bytes, matches: (Bytes, Bytes) -> bool) {
    /** What include/leveldb/filter_policy.h demands: every key of the list matches. */
    ghost predicate Lawful() {
      forall keys, key {:trigger matches(key, create(keys))} :: key in keys ==> matches(key, create(keys))
    }
  }

  function BloomPolicy(policy: Policy): FilterPolicy
    requires PolicyOk(policy)
  {
    FilterPolicy(keys => Filter(policy, keys), (key, filter) => Matches(policy, key, filter))
  }

  lemma {:induction false} BloomIsLawful(policy: Policy)
    requires PolicyOk(policy)
    ensures BloomPolicy(policy).Lawful()
  {
    forall keys: seq<Bytes>, key: Bytes | key in keys ensures Matches(policy, key, Filter(policy, keys)) {
      NoFalseNegatives(policy, keys, key);
    }
  }

  /** The filter that a block at the offset belongs to. */
  function FilterIndex(offset: nat): nat {
    offset / BASE
  }

  /** Nothing is stored for a filter without keys. */
  function FilterOf(policy: FilterPolicy, group: seq<Bytes>): Bytes
  {
    if group == [] then [] else policy.create(group)
  }

  function Flat(policy: FilterPolicy, groups: seq<seq<Bytes>>): Bytes
  {
    if groups == [] then [] else Flat(policy, groups[..|groups| - 1]) + FilterOf(policy, groups[|groups| - 1])
  }

  /** Where filter i starts, and where the last one ends. */
  function Offset(policy: FilterPolicy, groups: seq<seq<Bytes>>, i: nat): nat
    requires i <= |groups|
  {
    |Flat(policy, groups[..i])|
  }

  // ----- reading -----

  function WordIn(contents: Bytes, p: nat): Word
    requires p + 4 <= |contents|
  {
    DecodeFixed32(contents[p..p + 4])
  }

  /** KeyMayMatch of a reader of these contents; what is not understood counts as a match. */
  function Ask(policy: FilterPolicy, contents: Bytes, blockOffset: nat, key: Bytes): bool {
    var n := |contents|;
    if n < 5 then true
    else
      var table := WordIn(contents, n - 5);
      if table > n - 5 then true
      else
        var index := blockOffset / TwoTo(contents[n - 1]);
        var num := (n - 5 - table) / 4;
        if index >= num then true else AskFilter(policy, contents, table, index, key)
  }

  function AskFilter(policy: FilterPolicy, contents: Bytes, table: nat, index: nat, key: Bytes): bool
    requires table + 4 * index + 8 <= |contents|
  {
    var start, limit := WordIn(contents, table + 4 * index), WordIn(contents, table + 4 * index + 4);
    if start <= limit <= table then policy.matches(key, contents[start..limit]) else start != limit
  }

  // ----- what the builder writes can be read -----

  lemma {:induction false} WordKept(a: Bytes, b: Bytes, p: nat)
    requires p + 4 <= |a|
    ensures WordIn(a + b, p) == WordIn(a, p)
  {
    assert (a + b)[p..p + 4] == a[p..p + 4];
  }

  lemma {:induction false} WordPut(a: Bytes, w: Word)
    ensures WordIn(a + Fixed32(w), |a|) == w
  {
    assert (a + Fixed32(w))[|a|..|a| + 4] == Fixed32(w);
    Fixed32RoundTrip(w);
  }

  /** The filters, and then the words of the list. */
  ghost predicate Layout(result: Bytes, flat: Bytes, list: seq<Word>) {
    && flat <= result && |result| == |flat| + 4 * |list|
    && forall i :: 0 <= i < |list| ==> WordIn(result, |flat| + 4 * i) == list[i]
  }

  lemma {:induction false} PutWord(result: Bytes, flat: Bytes, list: seq<Word>, w: Word)
    requires Layout(result, flat, list)
    ensures Layout(result + Fixed32(w), flat, list + [w])
  {
    var now := result + Fixed32(w);
    WordPut(result, w);
    forall i | 0 <= i < |list + [w]| ensures WordIn(now, |flat| + 4 * i) == (list + [w])[i] {
      if i < |list| {
        WordKept(result, Fixed32(w), |flat| + 4 * i);
      }
    }
  }

  lemma {:induction false} FlatGrows(policy: FilterPolicy, groups: seq<seq<Bytes>>, i: nat)
    requires i <= |groups|
    ensures Flat(policy, groups[..i]) <= Flat(policy, groups)
    decreases |groups|
  {
    if i < |groups| {
      var n := |groups| - 1;
      FlatGrows(policy, groups[..n], i);
      assert groups[..n][..i] == groups[..i];
    } else {
      assert groups[..i] == groups;
    }
  }

  lemma {:induction false} FlatNext(policy: FilterPolicy, groups: seq<seq<Bytes>>, i: nat)
    requires i < |groups|
    ensures Flat(policy, groups[..i + 1]) == Flat(policy, groups[..i]) + FilterOf(policy, groups[i])
  {
    assert groups[..i + 1][..i] == groups[..i];
  }

  lemma {:induction false} SliceOfPrefix(a: Bytes, b: Bytes, both: Bytes, all: Bytes)
    requires both == a + b && both <= all
    ensures all[|a|..|both|] == b
  {
    assert all[..|both|] == both;
    assert all[|a|..|both|] == both[|a|..];
  }

  lemma {:induction false} FlatSlice(policy: FilterPolicy, groups: seq<seq<Bytes>>, i: nat)
    requires i < |groups|
    ensures Offset(policy, groups, i) <= Offset(policy, groups, i + 1) <= |Flat(policy, groups)|
    ensures Flat(policy, groups)[Offset(policy, groups, i)..Offset(policy, groups, i + 1)] ==
            FilterOf(policy, groups[i])
  {
    FlatGrows(policy, groups, i + 1);
    FlatNext(policy, groups, i);
    SliceOfPrefix(Flat(policy, groups[..i]), FilterOf(policy, groups[i]), Flat(policy, groups[..i + 1]),
        Flat(policy, groups));
  }

  /** Where each filter starts, and where the last one ends. */
  ghost predicate Starts(policy: FilterPolicy, groups: seq<seq<Bytes>>, list: seq<Word>)
  {
    |list| == |groups| + 1 && forall i :: 0 <= i <= |groups| ==> list[i] == Offset(policy, groups, i)
  }

  /** The filters, the words of the list, and how many offsets share a filter. */
  ghost predicate Whole(contents: Bytes, flat: Bytes, list: seq<Word>) {
    && |contents| == |flat| + 4 * |list| + 1 && contents[|contents| - 1] == BASE_LG && flat <= contents
    && forall i :: 0 <= i < |list| ==> WordIn(contents, |flat| + 4 * i) == list[i]
  }

  lemma {:induction false} Sealed(result: Bytes, flat: Bytes, list: seq<Word>)
    requires Layout(result, flat, list)
    ensures Whole(result + [BASE_LG], flat, list)
  {
    forall i | 0 <= i < |list| ensures WordIn(result + [BASE_LG], |flat| + 4 * i) == list[i] {
      WordKept(result, [BASE_LG], |flat| + 4 * i);
    }
  }

  ghost predicate Built(policy: FilterPolicy, groups: seq<seq<Bytes>>, list: seq<Word>, contents: Bytes)
  {
    Starts(policy, groups, list) && Whole(contents, Flat(policy, groups), list)
  }

  lemma {:induction false} BaseIs()
    ensures TwoTo(BASE_LG) == BASE
  {
    assert TwoTo(3) == 8;
    assert TwoTo(6) == 64;
    assert TwoTo(9) == 512;
  }

  lemma {:induction false} AskBeyond(policy: FilterPolicy, contents: Bytes, size: nat, m: nat, offset: nat, key: Bytes)
    requires |contents| == size + 4 * m + 5 && WordIn(contents, size + 4 * m) == size
    requires contents[size + 4 * m + 4] == BASE_LG
    requires FilterIndex(offset) >= m
    ensures Ask(policy, contents, offset, key)
  {
    BaseIs();
  }

  lemma {:induction false} AskWithin(policy: FilterPolicy, contents: Bytes, size: nat, m: nat, offset: nat, key: Bytes,
                                     start: Word, limit: Word)
    requires |contents| == size + 4 * m + 5 && WordIn(contents, size + 4 * m) == size
    requires contents[size + 4 * m + 4] == BASE_LG
    requires FilterIndex(offset) < m && WordIn(contents, size + 4 * (FilterIndex(offset))) == start
    requires WordIn(contents, size + 4 * (FilterIndex(offset)) + 4) == limit && start <= limit <= size
    ensures Ask(policy, contents, offset, key) == policy.matches(key, contents[start..limit])
  {
    BaseIs();
  }

  lemma {:induction false} PrefixSlice(a: Bytes, b: Bytes, i: nat, j: nat)
    requires a <= b && i <= j <= |a|
    ensures b[i..j] == a[i..j]
  {
  }

  lemma {:induction false} FilterIn(policy: FilterPolicy, groups: seq<seq<Bytes>>, list: seq<Word>, contents: Bytes,
                                    i: nat)
    requires Built(policy, groups, list, contents) && i < |groups|
    ensures list[i] <= list[i + 1] <= |Flat(policy, groups)| <= |contents|
    ensures contents[list[i]..list[i + 1]] == FilterOf(policy, groups[i])
  {
    FlatSlice(policy, groups, i);
    PrefixSlice(Flat(policy, groups), contents, list[i], list[i + 1]);
  }

  lemma {:induction false} LastWord(policy: FilterPolicy, groups: seq<seq<Bytes>>, list: seq<Word>)
    requires Starts(policy, groups, list)
    ensures list[|groups|] == |Flat(policy, groups)|
  {
    assert groups[..|groups|] == groups;
  }

  lemma {:induction false} AskWhole(policy: FilterPolicy, flat: Bytes, list: seq<Word>, contents: Bytes, offset: nat,
                                    key: Bytes)
    requires Whole(contents, flat, list) && list != [] && list[|list| - 1] == |flat|
    requires FilterIndex(offset) + 1 < |list| ==> list[FilterIndex(offset)] <= list[FilterIndex(offset) + 1] <= |flat|
    ensures Ask(policy, contents, offset, key) ==
            if FilterIndex(offset) + 1 < |list| then policy.matches(key,
                contents[list[FilterIndex(offset)]..list[FilterIndex(offset) + 1]]) else true
  {
    var m, index := |list| - 1, FilterIndex(offset);
    assert WordIn(contents, |flat| + 4 * m) == list[m];
    if index < m {
      assert WordIn(contents, |flat| + 4 * (index + 1)) == list[index + 1];
      AskWithin(policy, contents, |flat|, m, offset, key, list[index], list[index + 1]);
    } else {
      AskBeyond(policy, contents, |flat|, m, offset, key);
    }
  }

  /** Asking a built block asks the filter of the block's offset, and nothing else. */
  lemma {:induction false} AskBuilt(policy: FilterPolicy, groups: seq<seq<Bytes>>, list: seq<Word>, contents: Bytes,
                                    offset: nat, key: Bytes)
    requires Built(policy, groups, list, contents)
    ensures Ask(policy, contents, offset, key) ==
            if FilterIndex(offset) < |groups| then policy.matches(key, FilterOf(policy, groups[FilterIndex(offset)]))
            else true
  {
    LastWord(policy, groups, list);
    if FilterIndex(offset) < |groups| {
      FilterIn(policy, groups, list, contents, FilterIndex(offset));
    }
    AskWhole(policy, Flat(policy, groups), list, contents, offset, key);
  }

  // ----- the builder -----

  /** The keys are kept end to end, with the position where each starts. */
  function Pieces(keys: Bytes, start: seq<nat>): seq<Bytes>
    requires StartsOk(keys, start)
    decreases |start|
  {
    if start == [] then []
    else var n := |start| - 1; Pieces(keys[..start[n]], start[..n]) + [keys[start[n]..]]
  }

  ghost predicate StartsOk(keys: Bytes, start: seq<nat>)
    decreases |start|
  {
    start == [] || (var n := |start| - 1; start[n] <= |keys| && StartsOk(keys[..start[n]], start[..n]))
  }

  lemma {:induction false} OneMorePiece(keys: Bytes, start: seq<nat>, key: Bytes)
    requires StartsOk(keys, start)
    ensures StartsOk(keys + key, start + [|keys|])
    ensures Pieces(keys + key, start + [|keys|]) == Pieces(keys, start) + [key]
  {
    assert (keys + key)[..|keys|] == keys && (keys + key)[|keys|..] == key;
    assert (start + [|keys|])[..|start|] == start;
  }

  /** Where piece i ends. */
  function EndOf(keys: Bytes, start: seq<nat>, i: nat): nat
    requires i < |start|
  {
    if i + 1 < |start| then start[i + 1] else |keys|
  }

  lemma {:induction false} PieceAt(keys: Bytes, start: seq<nat>, i: nat)
    requires StartsOk(keys, start) && i < |start|
    ensures |Pieces(keys, start)| == |start| && start[i] <= EndOf(keys, start, i) <= |keys|
    ensures Pieces(keys, start)[i] == keys[start[i]..EndOf(keys, start, i)]
    decreases |start|
  {
    var n := |start| - 1;
    PieceCount(keys[..start[n]], start[..n]);
    if i < n {
      PieceAt(keys[..start[n]], start[..n], i);
    }
  }

  lemma {:induction false} PieceCount(keys: Bytes, start: seq<nat>)
    requires StartsOk(keys, start)
    ensures |Pieces(keys, start)| == |start|
    decreases |start|
  {
    if start != [] {
      PieceCount(keys[..start[|start| - 1]], start[..|start| - 1]);
    }
  }

  /** The list of keys that GenerateFilter hands to the policy. */
  method SplitKeys(keys: Bytes, start: seq<nat>) returns (list: seq<Bytes>)
    requires StartsOk(keys, start)
    ensures list == Pieces(keys, start)
  {
    var ends := start + [|keys|];
    list := [];
    PieceCount(keys, start);
    for i := 0 to |start|
      invariant |list| == i && forall k :: 0 <= k < i ==> list[k] == Pieces(keys, start)[k]
    {
      PieceAt(keys, start, i);
      list := list + [keys[ends[i]..ends[i + 1]]];
    }
  }

  datatype Added = Added(offset: nat, key: Bytes)

  /** A key belongs to the filter of the block it was added for. */
  ghost predicate InPlace(a: Added, groups: seq<seq<Bytes>>, pending: seq<Bytes>) {
    var i := FilterIndex(a.offset);
    if i < |groups| then a.key in groups[i] else i == |groups| && a.key in pending
  }

  ghost predicate AllInPlace(added: seq<Added>, groups: seq<seq<Bytes>>, pending: seq<Bytes>) {
    forall k :: 0 <= k < |added| ==> InPlace(added[k], groups, pending)
  }

  lemma {:induction false} StillInPlace(added: seq<Added>, groups: seq<seq<Bytes>>, pending: seq<Bytes>)
    requires AllInPlace(added, groups, pending)
    ensures AllInPlace(added, groups + [pending], [])
  {
    forall k | 0 <= k < |added| ensures InPlace(added[k], groups + [pending], []) {
      assert InPlace(added[k], groups, pending);
    }
  }

  lemma {:induction false} AddedInPlace(added: seq<Added>, groups: seq<seq<Bytes>>, pending: seq<Bytes>, a: Added)
    requires AllInPlace(added, groups, pending) && FilterIndex(a.offset) == |groups|
    ensures AllInPlace(added + [a], groups, pending + [a.key])
  {
    forall k | 0 <= k < |added + [a]| ensures InPlace((added + [a])[k], groups, pending + [a.key]) {
      if k < |added| {
        assert InPlace(added[k], groups, pending);
      }
    }
  }

  ghost predicate Offsets(policy: FilterPolicy, groups: seq<seq<Bytes>>, offsets: seq<nat>)
  {
    |offsets| == |groups| && forall i :: 0 <= i < |groups| ==> offsets[i] == Offset(policy, groups, i)
  }

  lemma {:induction false} NextOffset(policy: FilterPolicy, groups: seq<seq<Bytes>>, offsets: seq<nat>,
                                      group: seq<Bytes>)
    requires Offsets(policy, groups, offsets)
    ensures Offsets(policy, groups + [group], offsets + [|Flat(policy, groups)|])
    ensures Flat(policy, groups + [group]) == Flat(policy, groups) + FilterOf(policy, group)
  {
    var all := groups + [group];
    assert all[..|groups|] == groups;
    forall i | 0 <= i < |all| ensures (offsets + [|Flat(policy, groups)|])[i] == Offset(policy, all, i) {
      if i < |groups| {
        assert all[..i] == groups[..i];
      }
    }
  }

  /** Every key that was added finds its filter matching it, at the offset of its block. */
  lemma {:induction false} AddedMatch(policy: FilterPolicy, groups: seq<seq<Bytes>>, list: seq<Word>, contents: Bytes,
                                      a: Added)
    requires policy.Lawful() && Built(policy, groups, list, contents) && InPlace(a, groups, [])
    ensures Ask(policy, contents, a.offset, a.key)
  {
    AskBuilt(policy, groups, list, contents, a.offset, a.key);
    assert policy.matches(a.key, policy.create(groups[FilterIndex(a.offset)]));
  }

  lemma {:induction false} OffsetFits(policy: FilterPolicy, groups: seq<seq<Bytes>>, offsets: seq<nat>, i: nat)
    requires Offsets(policy, groups, offsets) && i < |groups|
    ensures offsets[i] <= |Flat(policy, groups)|
  {
    FlatGrows(policy, groups, i);
  }

  lemma {:induction false} AllStarts(policy: FilterPolicy, groups: seq<seq<Bytes>>, offsets: seq<nat>, list: seq<Word>)
    requires Offsets(policy, groups, offsets) && |list| == |groups| + 1
    requires list[|groups|] == |Flat(policy, groups)| && forall i :: 0 <= i < |groups| ==> list[i] == offsets[i]
    ensures Starts(policy, groups, list)
  {
    assert groups[..|groups|] == groups;
  }

  method PutEach(flat: Bytes, offsets: seq<nat>) returns (result: Bytes, ghost list: seq<Word>)
    requires |flat| < 0x1_0000_0000 && forall i :: 0 <= i < |offsets| ==> offsets[i] <= |flat|
    ensures Layout(result, flat, list) && list == offsets
  {
    result, list := flat, [];
    for i := 0 to |offsets|
      invariant Layout(result, flat, list) && list == offsets[..i]
    {
      PutWord(result, flat, list, offsets[i]);
      result, list := result + Fixed32(offsets[i]), list + [offsets[i]];
    }
  }

  /** The offsets of the filters and, as one more, where this array starts. */
  method PutOffsets(policy: FilterPolicy, flat: Bytes, offsets: seq<nat>, ghost groups: seq<seq<Bytes>>)
    returns (result: Bytes, ghost list: seq<Word>)
    requires Offsets(policy, groups, offsets) && flat == Flat(policy, groups)
    requires |flat| < 0x1_0000_0000
    ensures Layout(result, flat, list) && Starts(policy, groups, list)
  {
    forall i | 0 <= i < |offsets| ensures offsets[i] <= |flat| {
      OffsetFits(policy, groups, offsets, i);
    }
    result, list := PutEach(flat, offsets);
    PutWord(result, flat, list, |flat|);
    result, list := result + Fixed32(|flat|), list + [|flat|];
    AllStarts(policy, groups, offsets, list);
  }

  class FilterBlockBuilder {
    const policy: FilterPolicy
    var keys: Bytes
    var start: seq<nat>
    var result: Bytes
    var filterOffsets: seq<nat>
    ghost var groups: seq<seq<Bytes>>
    ghost var added: seq<Added>

    ghost predicate Ok()
      reads this
    {
      && StartsOk(keys, start) && result == Flat(policy, groups)
      && Offsets(policy, groups, filterOffsets) && AllInPlace(added, groups, Pieces(keys, start))
    }

    /** The size of all filters once the pending keys have theirs. */
    ghost function Size(): nat
      requires Ok()
      reads this
    {
      |Flat(policy, groups)| + |FilterOf(policy, Pieces(keys, start))|
    }

    constructor (policy: FilterPolicy)
      ensures Ok() && groups == [] && added == [] && this.policy == policy
    {
      this.policy := policy;
      keys, start, result, filterOffsets, groups, added := [], [], [], [], [], [];
    }

    method GenerateFilter()
      requires Ok()
      modifies this
      ensures Ok() && start == [] && added == old(added) && Size() == old(Size())
      ensures groups == old(groups) + [old(Pieces(keys, start))]
    {
      NextOffset(policy, groups, filterOffsets, Pieces(keys, start));
      StillInPlace(added, groups, Pieces(keys, start));
      PieceCount(keys, start);
      groups := groups + [Pieces(keys, start)];
      filterOffsets := filterOffsets + [|result|];
      if start != [] {
        var list := SplitKeys(keys, start);
        result := result + policy.create(list);
        keys, start := [], [];
      }
    }

    /** Block offsets never go back into an earlier filter's range. */
    method StartBlock(offset: nat)
      requires Ok() && FilterIndex(offset) >= |groups|
      modifies this
      ensures Ok() && |groups| == FilterIndex(offset) && added == old(added) && Size() == old(Size())
    {
      var filterIndex := FilterIndex(offset);
      while filterIndex > |filterOffsets|
        invariant Ok() && |groups| <= filterIndex && added == old(added) && Size() == old(Size())
        decreases filterIndex - |filterOffsets|
      {
        GenerateFilter();
      }
    }

    method AddKey(key: Bytes, ghost offset: nat)
      requires Ok() && |groups| == FilterIndex(offset)
      modifies this
      ensures Ok() && groups == old(groups) && added == old(added) + [Added(offset, key)]
    {
      OneMorePiece(keys, start, key);
      AddedInPlace(added, groups, Pieces(keys, start), Added(offset, key));
      start := start + [|keys|];
      keys := keys + key;
      added := added + [Added(offset, key)];
    }

    /** The parameter in the last byte is the logarithm of BASE. */
    method Finish() returns (contents: Bytes, ghost list: seq<Word>)
      requires Ok() && policy.Lawful() && Size() < 0x1_0000_0000
      modifies this
      ensures Ok() && Built(policy, groups, list, contents) && added == old(added)
      ensures forall k :: 0 <= k < |added| ==> Ask(policy, contents, added[k].offset, added[k].key)
    {
      NextOffset(policy, groups, filterOffsets, Pieces(keys, start));
      if start != [] {
        GenerateFilter();
      }
      contents, list := PutOffsets(policy, result, filterOffsets, groups);
      Sealed(contents, result, list);
      contents := contents + [BASE_LG];
      forall k | 0 <= k < |added| ensures Ask(policy, contents, added[k].offset, added[k].key) {
        assert InPlace(added[k], groups, Pieces(keys, start));
        AddedMatch(policy, groups, list, contents, added[k]);
      }
    }
  }
}
