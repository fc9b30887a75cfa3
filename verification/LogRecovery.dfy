/** Turning logs into tables (db_impl): replays the logs that the manifest does not cover, in order, through a memtable
    that is written out whenever it gets too big and once more at the end of each log. */
module LogRecovery {
  import opened Keys
  import opened Cursors
  import opened Reads
  import opened Versions
  import opened Inputs
  import opened Installs
  import opened Manifests
  import opened Disks
  import opened Store
  import opened Recovery

  // ----- the logs as one list of batches -----

  ghost predicate Listing(logs: map<nat, seq<Batch>>, from: nat, list: seq<nat>) {
    && (forall i, j :: 0 <= i < j < |list| ==> list[i] < list[j])
    && forall n :: n in list <==> n in logs && from <= n
  }

  function Batches(logs: map<nat, seq<Batch>>, list: seq<nat>): seq<Batch> {
    if list == [] then []
    else
      var n := list[|list| - 1];
      Batches(logs, list[..|list| - 1]) + if n in logs then logs[n] else []
  }

  lemma {:induction false} BatchesHold(logs: map<nat, seq<Batch>>, list: seq<nat>, e: Entry)
    requires forall i :: 0 <= i < |list| ==> list[i] in logs
    ensures e in LogSet(Batches(logs, list)) <==> exists i :: 0 <= i < |list| && e in LogSet(logs[list[i]])
  {
    if list != [] {
      var n := |list| - 1;
      var front := list[..n];
      BatchesHold(logs, front, e);
      LogSetJoin(Batches(logs, front), logs[list[n]], e);
      assert forall i :: 0 <= i < n ==> front[i] == list[i];
    }
  }

  lemma {:induction false} LogSetJoin(a: seq<Batch>, b: seq<Batch>, e: Entry)
    ensures e in LogSet(a + b) <==> e in LogSet(a) || e in LogSet(b)
  {
    if x :| x in a && e in x.entries { assert x in a + b; }
    if x :| x in b && e in x.entries { assert x in a + b; }
    if x :| x in a + b && e in x.entries { assert x in a || x in b; }
  }

  lemma {:induction false} JoinAscending(a: seq<Batch>, b: seq<Batch>)
    requires Ascending(a) && Ascending(b) && OlderThan(LogSet(a), LogSet(b))
    ensures Ascending(a + b)
  {
    forall i, j | 0 <= i < j < |a + b| ensures BatchBefore((a + b)[i], (a + b)[j]) {
      if j < |a| {
        assert BatchBefore(a[i], a[j]);
      } else if |a| <= i {
        assert BatchBefore(b[i - |a|], b[j - |a|]);
      } else {
        assert a[i] in a && b[j - |a|] in b;
        assert forall e :: e in a[i].entries ==> e in LogSet(a);
        assert forall e :: e in b[j - |a|].entries ==> e in LogSet(b);
      }
    }
  }

  lemma {:induction false} BatchesAscend(logs: map<nat, seq<Batch>>, from: nat, list: seq<nat>)
    requires LogsOk(logs, from) && (forall i :: 0 <= i < |list| ==> list[i] in logs && from <= list[i])
    requires forall i, j :: 0 <= i < j < |list| ==> list[i] < list[j]
    ensures Ascending(Batches(logs, list))
  {
    if list != [] {
      var n := |list| - 1;
      BatchesAscend(logs, from, list[..n]);
      forall a, b | a in LogSet(Batches(logs, list[..n])) && b in LogSet(logs[list[n]])
        ensures a.key.sequence < b.key.sequence
      {
        BatchesHold(logs, list[..n], a);
        var i :| 0 <= i < n && a in LogSet(logs[list[..n][i]]);
        assert LogBefore(logs, list[i], list[n]);
      }
      JoinAscending(Batches(logs, list[..n]), logs[list[n]]);
    }
  }

  lemma {:induction false} ListedEntries(logs: map<nat, seq<Batch>>, from: nat, list: seq<nat>)
    requires Listing(logs, from, list)
    ensures LogSet(Batches(logs, list)) == LogEntries(logs, from)
  {
    assert forall i :: 0 <= i < |list| ==> list[i] in list;
    forall e ensures e in LogSet(Batches(logs, list)) <==> e in LogEntries(logs, from) {
      BatchesHold(logs, list, e);
      if n :| n in logs && from <= n && e in LogSet(logs[n]) {
        assert n in list;
        var i :| 0 <= i < |list| && list[i] == n;
      }
    }
  }

  // ----- replay -----

  /** Some batches have been replayed: their writes are in tables, the last of them in the memtable. */
  ghost predicate Replayed(v: Version, done: seq<Batch>, files: Level, mem: seq<Entry>) {
    && Flushable(v, files) && Sorted(mem)
    && LogSet(done) == Union(files) + Set(mem)
    && OlderThan(Deep(v, 0) + Union(files), Set(mem))
  }

  ghost predicate Replayable(v: Version, all: seq<Batch>) {
    VersionOk(v) && Ascending(all) && OlderThan(Deep(v, 0), LogSet(all)) && Distinct(Deep(v, 0) + LogSet(all))
  }

  lemma {:induction false} NextIsNewer(all: seq<Batch>, done: seq<Batch>, b: Batch)
    requires Ascending(all) && done + [b] <= all
    ensures BatchOk(b) && OlderThan(LogSet(done), Set(b.entries)) && Set(b.entries) <= LogSet(all)
  {
    var k := |done|;
    assert all[k] == (done + [b])[k] == b;
    assert b in all;
    forall a, e | a in LogSet(done) && e in b.entries ensures a.key.sequence < e.key.sequence {
      var c :| c in done && a in c.entries;
      var i :| 0 <= i < k && done[i] == c;
      assert all[i] == (done + [b])[i] == c;
      assert BatchBefore(all[i], all[k]);
    }
  }

  lemma {:induction false} MemGrows(mem: seq<Entry>, b: Batch)
    requires Sorted(mem) && BatchOk(b) && OlderThan(Set(mem), Set(b.entries))
    ensures Sorted(InsertAll(mem, b.entries)) && Set(InsertAll(mem, b.entries)) == Set(mem) + Set(b.entries)
  {
    if b.entries != [] {
      assert b.entries[0] in Set(b.entries);
      forall e | e in mem ensures e.key.sequence < b.first {
        assert e in Set(mem);
      }
      InsertAllOk(mem, b);
    }
  }

  lemma {:induction false} NextBatch(v: Version, all: seq<Batch>, done: seq<Batch>, b: Batch, files: Level,
                                     mem: seq<Entry>)
    requires Replayable(v, all) && Replayed(v, done, files, mem) && done + [b] <= all
    ensures Replayed(v, done + [b], files, InsertAll(mem, b.entries))
  {
    NextIsNewer(all, done, b);
    OlderParts(LogSet(done), Set(mem), Set(b.entries), Set(b.entries));
    MemGrows(mem, b);
    LogSetSnoc(done, b);
    OlderParts(LogSet(done), Union(files), Set(b.entries), Set(b.entries));
    OlderParts(Deep(v, 0), Deep(v, 0), LogSet(all), Set(b.entries));
  }

  lemma {:induction false} MemTabled(v: Version, all: seq<Batch>, done: seq<Batch>, files: Level, mem: seq<Entry>,
                                     f: File)
    requires Replayable(v, all) && Replayed(v, done, files, mem) && done <= all && f.Ok() && f.entries == mem
    requires NumbersBelow(With(v, files), f.number)
    ensures Replayed(v, done, files + [f], [])
  {
    FlushedAll(v, files);
    assert Front(files + [f]) == files && Back(files + [f]) == f;
    UnionSnoc(files + [f]);
    assert forall e :: e in LogSet(done) ==> e in LogSet(all);
    SubsetDistinct(Deep(v, 0) + LogSet(all), Set(f.entries) + Deep(With(v, files), 0));
    assert CanFlush(With(v, files), 0, f);
    assert Set([]) == {};
  }

  /** File numbers given out so far. */
  ghost predicate Numbering(v: Version, files: Level, from: nat, next: nat) {
    NumbersBelow(v, from) && from <= next && NumberedFrom(files, from) && forall f :: f in files ==> f.number < next
  }

  /** Has seen every sequence number up to here. */
  ghost predicate Seen(done: seq<Batch>, q: nat) {
    q < MAX_SEQUENCE && AtMost(LogSet(done), q)
  }

  lemma {:induction false} SeenMore(all: seq<Batch>, done: seq<Batch>, b: Batch, q: nat)
    requires Ascending(all) && done + [b] <= all && Seen(done, q)
    ensures BatchOk(b) && Seen(done + [b], if b.first + |b.entries| - 1 > q then b.first + |b.entries| - 1 else q)
  {
    NextIsNewer(all, done, b);
    LogSetSnoc(done, b);
    forall e | e in b.entries ensures e.key.sequence <= b.first + |b.entries| - 1 {
      var i :| 0 <= i < |b.entries| && b.entries[i] == e;
    }
  }

  // ----- the last sequence -----

  /** max_sequence, once some batches have been replayed. */
  function MaxLast(start: nat, done: seq<Batch>): nat {
    if done == [] then start
    else
      var q, last := MaxLast(start, done[..|done| - 1]), LastNumber(done[|done| - 1]);
      if last > q then last else q
  }

  /** It is the number that it started from or that of some batch, and none of them is beyond it. */
  lemma {:induction false} MaxLastMeans(start: nat, done: seq<Batch>)
    ensures var q := MaxLast(start, done);
            && start <= q && (forall b :: b in done ==> LastNumber(b) <= q)
            && (q == start || exists b :: b in done && LastNumber(b) == q)
  {
    if done != [] {
      var n := |done| - 1;
      MaxLastMeans(start, done[..n]);
      assert done == done[..n] + [done[n]];
    }
  }

  lemma {:induction false} MaxLastJoins(start: nat, a: seq<Batch>, b: seq<Batch>)
    ensures MaxLast(MaxLast(start, a), b) == MaxLast(start, a + b)
  {
    if b == [] {
      assert a + b == a;
    } else {
      var n := |b| - 1;
      MaxLastJoins(start, a, b[..n]);
      assert (a + b)[..|a + b| - 1] == a + b[..n];
    }
  }

  lemma {:induction false} BatchListed(logs: map<nat, seq<Batch>>, list: seq<nat>, b: Batch)
    requires forall i :: 0 <= i < |list| ==> list[i] in logs
    ensures b in Batches(logs, list) <==> exists n :: n in list && b in logs[n]
  {
    if list != [] {
      var k := |list| - 1;
      BatchListed(logs, list[..k], b);
      assert list == list[..k] + [list[k]];
    }
  }

  /** So the last sequence is found by going through all the logs that recovery reads. */
  lemma {:induction false} LastFound(d: Disk, list: seq<nat>, q: Sequence)
    requires Listing(d.logs, Counters(d).logNumber, list) && q < MAX_SEQUENCE
    requires q == MaxLast(Counters(d).lastSequence, Batches(d.logs, list))
    ensures IsLast(d, q)
  {
    MaxLastMeans(Counters(d).lastSequence, Batches(d.logs, list));
    forall b ensures b in Batches(d.logs, list) <==> exists n :: ToReplay(d, n, b) {
      BatchListed(d.logs, list, b);
      assert forall n :: n in list && b in d.logs[n] <==> ToReplay(d, n, b);
    }
  }

  datatype Track = OnTrack | OffTrack

  /** Where a replay stands: what it has done, the tables and the memtable made of it, and the numbers used. */
  datatype Replay = Replay(done: seq<Batch>, files: Level, mem: seq<Entry>, next: nat, max: nat)

  ghost function Check(v: Version, all: seq<Batch>, from: nat, r: Replay): Track {
    if Replayable(v, all) && r.done <= all && Replayed(v, r.done, r.files, r.mem)
       && Numbering(v, r.files, from, r.next) && Seen(r.done, r.max) then OnTrack
    else OffTrack
  }

  lemma {:induction false} ReplayBatch(v: Version, all: seq<Batch>, from: nat, r: Replay, b: Batch)
    requires Check(v, all, from, r) == OnTrack && r.done + [b] <= all
    ensures var last := b.first + |b.entries| - 1;
            Check(v, all, from, Replay(r.done + [b], r.files, InsertAll(r.mem, b.entries), r.next, if last > r.max
                then last else r.max)) == OnTrack
  {
    NextBatch(v, all, r.done, b, r.files, r.mem);
    SeenMore(all, r.done, b, r.max);
  }

  lemma {:induction false} ReplayTable(v: Version, all: seq<Batch>, from: nat, r: Replay, f: File)
    requires Check(v, all, from, r) == OnTrack && f.Ok() && f.entries == r.mem && f.number == r.next
    ensures Check(v, all, from, Replay(r.done, r.files + [f], [], r.next + 1, r.max)) == OnTrack
  {
    FlushedAll(v, r.files);
    WithBelow(v, r.files, from, r.next);
    MemTabled(v, all, r.done, r.files, r.mem, f);
    OneMoreNumber(v, r.files, from, f);
  }

  lemma {:induction false} OneMoreNumber(v: Version, files: Level, from: nat, f: File)
    requires Numbering(v, files, from, f.number)
    ensures Numbering(v, files + [f], from, f.number + 1)
  {
  }

  lemma {:induction false} ReplayNoTable(v: Version, all: seq<Batch>, from: nat, r: Replay, next: nat)
    requires Check(v, all, from, r) == OnTrack && r.next <= next
    ensures Check(v, all, from, r.(next := next)) == OnTrack
  {
  }

  /** InsertInto: a batch's writes go in one by one. */
  method InsertInto(entries: seq<Entry>, mem: seq<Entry>) returns (r: seq<Entry>)
    ensures r == InsertAll(mem, entries)
  {
    r := mem;
    for i := 0 to |entries|
      invariant r == InsertAll(mem, entries[..i])
    {
      assert entries[..i + 1][..i] == entries[..i];
      r := InsertEntry(r, entries[i]);
    }
    assert entries[..|entries|] == entries;
  }

  /** WriteLevel0Table without a base version: a new number in any case, a table at level 0 if there is anything. */
  method WriteTable(fileSize: seq<Entry> -> nat, r: Replay, ghost v: Version, ghost all: seq<Batch>, ghost from: nat)
    returns (r': Replay)
    requires Check(v, all, from, r) == OnTrack
    ensures Check(v, all, from, r') == OnTrack && r'.done == r.done && r'.mem == [] && r.next < r'.next
    ensures r'.max == r.max
  {
    var number := r.next;
    if r.mem != [] {
      var f := File(number, fileSize(r.mem), r.mem[0].key, r.mem[|r.mem| - 1].key, r.mem);
      ReplayTable(v, all, from, r, f);
      r' := Replay(r.done, r.files + [f], [], number + 1, r.max);
    } else {
      ReplayNoTable(v, all, from, r, number + 1);
      r' := r.(next := number + 1);
    }
  }

  /** RecoverLogFile: replays one log, writing a table whenever the memtable is too big, and one at the end. */
  method RecoverLogFile(fileSize: seq<Entry> -> nat, tooBig: seq<Entry> -> bool, log: seq<Batch>, r: Replay,
                        ghost v: Version, ghost all: seq<Batch>, ghost from: nat)
    returns (r': Replay)
    requires Check(v, all, from, r) == OnTrack && r.mem == [] && r.done + log <= all
    ensures Check(v, all, from, r') == OnTrack && r'.mem == [] && r'.done == r.done + log
    ensures r'.max == MaxLast(r.max, log) && r.next <= r'.next
  {
    r' := r;
    var haveMem := false;
    for j := 0 to |log|
      invariant Check(v, all, from, r') == OnTrack && r'.done == r.done + log[..j]
      invariant r'.max == MaxLast(r.max, log[..j]) && r.next <= r'.next
      invariant !haveMem ==> r'.mem == []
    {
      var b := log[j];
      assert r'.done + [b] == r.done + log[..j + 1] && log[..j + 1][..j] == log[..j];
      PrefixOf(r.done, log, j + 1, all);
      ReplayBatch(v, all, from, r', b);
      haveMem := true;
      var mem := InsertInto(b.entries, r'.mem);
      var lastSeq := b.first + |b.entries| - 1;
      r' := Replay(r'.done + [b], r'.files, mem, r'.next, if lastSeq > r'.max then lastSeq else r'.max);
      if tooBig(mem) {
        r' := WriteTable(fileSize, r', v, all, from);
        haveMem := false;
      }
    }
    assert log[..|log|] == log;
    if haveMem {
      r' := WriteTable(fileSize, r', v, all, from);
    }
  }

  lemma {:induction false} PrefixOf(done: seq<Batch>, log: seq<Batch>, j: nat, all: seq<Batch>)
    requires done + log <= all && j <= |log|
    ensures done + log[..j] <= all
  {
  }

  // ----- all the logs -----

  lemma {:induction false} StartsOnTrack(d: Disk, H: set<Entry>, floor: Sequence, list: seq<nat>)
    requires DiskOk(d, H, floor) && Listing(d.logs, Counters(d).logNumber, list)
    ensures Check(Recovered(d), Batches(d.logs, list), Counters(d).nextFile + 1,
                  Replay([], [], [], Counters(d).nextFile + 1, Counters(d).lastSequence)) == OnTrack
  {
    assert forall i :: 0 <= i < |list| ==> list[i] in list;
    BatchesAscend(d.logs, Counters(d).logNumber, list);
    ListedEntries(d.logs, Counters(d).logNumber, list);
    assert LogSet([]) == {} && Union([]) == {} && Set([]) == {};
  }

  lemma {:induction false} BatchesPrefix(logs: map<nat, seq<Batch>>, list: seq<nat>, i: nat)
    requires i <= |list|
    ensures Batches(logs, list[..i]) <= Batches(logs, list)
    decreases |list| - i
  {
    if i < |list| {
      BatchesPrefix(logs, list, i + 1);
      assert list[..i + 1][..i] == list[..i];
    } else {
      assert list[..i] == list;
    }
  }

  /** Recover's loop over the logs. */
  method ReplayLogs(fileSize: seq<Entry> -> nat, tooBig: seq<Entry> -> bool, logs: map<nat, seq<Batch>>, list: seq<nat>,
                    start: Replay, ghost v: Version, ghost from: nat)
    returns (r: Replay)
    requires Check(v, Batches(logs, list), from, start) == OnTrack && start.mem == [] && start.done == []
    requires forall i :: 0 <= i < |list| ==> list[i] in logs
    ensures Check(v, Batches(logs, list), from, r) == OnTrack && r.mem == [] && r.done == Batches(logs, list)
    ensures (forall i :: 0 <= i < |list| ==> list[i] < r.next) && r.max == MaxLast(start.max, Batches(logs, list))
  {
    ghost var all := Batches(logs, list);
    r := start;
    for i := 0 to |list|
      invariant Check(v, all, from, r) == OnTrack && r.mem == [] && r.done == Batches(logs, list[..i])
      invariant (forall j :: 0 <= j < i ==> list[j] < r.next)
      invariant r.max == MaxLast(start.max, Batches(logs, list[..i]))
    {
      assert list[..i + 1][..i] == list[..i];
      BatchesPrefix(logs, list, i + 1);
      MaxLastJoins(start.max, Batches(logs, list[..i]), logs[list[i]]);
      r := RecoverOne(fileSize, tooBig, logs[list[i]], list[i], r, v, all, from);
    }
    assert list[..|list|] == list;
  }

  /** One log, and then its number counts as used. */
  method RecoverOne(fileSize: seq<Entry> -> nat, tooBig: seq<Entry> -> bool, log: seq<Batch>, number: nat, r: Replay,
                    ghost v: Version, ghost all: seq<Batch>, ghost from: nat)
    returns (r': Replay)
    requires Check(v, all, from, r) == OnTrack && r.mem == [] && r.done + log <= all
    ensures Check(v, all, from, r') == OnTrack && r'.mem == [] && r'.done == r.done + log
    ensures r'.max == MaxLast(r.max, log) && number < r'.next && r.next <= r'.next
  {
    r' := RecoverLogFile(fileSize, tooBig, log, r, v, all, from);
    if r'.next <= number {
      ReplayNoTable(v, all, from, r', number + 1);
      r' := r'.(next := number + 1);
    }
  }

  /** Whatever logs a crash has left, recovery finds tables that hold what was in them, a new log number after all
      of them, and the last sequence. */
  method RecoverLogs(fileSize: seq<Entry> -> nat, tooBig: seq<Entry> -> bool, d: Disk, list: seq<nat>, counters: Record,
                     ghost H: set<Entry>, ghost floor: Sequence)
    returns (files: Level, newLog: nat, lastSequence: Sequence)
    requires DiskOk(d, H, floor) && counters == Counters(d) && Listing(d.logs, counters.logNumber, list)
    ensures RecoversTo(d, files) && NewLog(d, files, newLog) && IsLast(d, lastSequence)
  {
    StartsOnTrack(d, H, floor, list);
    assert forall i :: 0 <= i < |list| ==> list[i] in list;
    var start := Replay([], [], [], counters.nextFile + 1, counters.lastSequence);
    var r := ReplayLogs(fileSize, tooBig, d.logs, list, start, Recovered(d), counters.nextFile + 1);
    EndsRecovered(d, H, floor, list, r);
    files, newLog, lastSequence := r.files, r.next, r.max;
  }

  lemma {:induction false} EndsRecovered(d: Disk, H: set<Entry>, floor: Sequence, list: seq<nat>, r: Replay)
    requires DiskOk(d, H, floor) && Listing(d.logs, Counters(d).logNumber, list)
    requires Check(Recovered(d), Batches(d.logs, list), Counters(d).nextFile + 1, r) == OnTrack
    requires r.mem == [] && r.done == Batches(d.logs, list) && (forall j :: 0 <= j < |list| ==> list[j] < r.next)
    requires r.max == MaxLast(Counters(d).lastSequence, Batches(d.logs, list))
    ensures RecoversTo(d, r.files) && NewLog(d, r.files, r.next) && r.max < MAX_SEQUENCE && IsLast(d, r.max)
  {
    ListedEntries(d.logs, Counters(d).logNumber, list);
    LastFound(d, list, r.max);
    assert Set(r.mem) == {};
    forall n | n in d.logs ensures n < r.next {
      if Counters(d).logNumber <= n { assert n in list; }
    }
  }
}
