/** The foreground steps of the store (db_impl): log a batch, put it into the memtable, switch memtables; and that each
    of them keeps the store's invariant, whatever the background thread is doing. */
module Writes {
  import opened Keys
  import opened Cursors
  import opened Reads
  import opened Versions
  import opened Disks
  import opened Store

  // ----- log a batch -----

  /** The writer at the front of the queue has numbered its group. */
  ghost predicate CanAppend(s: State, b: Batch) {
    s.pending.NoBatch? && BatchOk(b) && b.first == s.lastSequence + 1 && s.lastSequence + |b.entries| < MAX_SEQUENCE
  }

  function Append(s: State, b: Batch): State {
    s.(pending := Logging(b),
       disk := s.disk.(logs := s.disk.logs[s.logFile :=
           (if s.logFile in s.disk.logs then s.disk.logs[s.logFile] else []) + [b]]),
       history := s.history + Set(b.entries))
  }

  lemma {:induction false} BatchRange(b: Batch, e: Entry)
    requires BatchOk(b) && e in b.entries
    ensures b.first <= e.key.sequence < b.first + |b.entries|
  {
    var i :| 0 <= i < |b.entries| && b.entries[i] == e;
  }

  lemma {:induction false} BatchDistinct(b: Batch)
    requires BatchOk(b)
    ensures Distinct(Set(b.entries))
  {
    forall x, y | x in b.entries && y in b.entries && x.key.sequence == y.key.sequence ensures x == y {
      var i, j :| 0 <= i < |b.entries| && b.entries[i] == x && 0 <= j < |b.entries| && b.entries[j] == y;
    }
  }

  /** New writes on top of two stores that read alike. */
  lemma {:induction false} ReadsGrow(E: set<Entry>, H: set<Entry>, N: set<Entry>, floor: Sequence)
    requires Distinct(E) && Distinct(H) && Distinct(N) && OlderThan(E, N) && OlderThan(H, N) && ReadsLike(E, H, floor)
    ensures Distinct(N + E) && Distinct(N + H) && ReadsLike(N + E, N + H, floor)
  {
    forall user: UserKey, snapshot: Sequence | floor <= snapshot
      ensures ReadAt(N + E, user, snapshot) == ReadAt(N + H, user, snapshot)
    {
      ReadLayered(N, E, user, snapshot);
      ReadLayered(N, H, user, snapshot);
      assert ReadAt(E, user, snapshot) == ReadAt(H, user, snapshot);
    }
  }

  lemma {:induction false} AllOlder(s: State, b: Batch)
    requires Inv(s) && CanAppend(s, b)
    ensures OlderThan(s.View().All(), Set(b.entries)) && OlderThan(s.history, Set(b.entries))
  {
    forall e | e in b.entries ensures s.lastSequence < e.key.sequence {
      BatchRange(b, e);
    }
  }

  lemma {:induction false} AppendSequences(s: State, b: Batch)
    requires Inv(s) && CanAppend(s, b)
    ensures SequencesOk(Append(s, b)) && Set(Append(s, b).Full()) == Set(s.mem) + Set(b.entries)
    ensures Sorted(Append(s, b).Full())
  {
    forall e | e in b.entries ensures e.key.sequence <= Append(s, b).LastLogged() {
      BatchRange(b, e);
    }
    FullIs(Append(s, b));
  }

  lemma {:induction false} AppendMemory(s: State, b: Batch)
    requires Inv(s) && CanAppend(s, b)
    ensures MemoryOk(Append(s, b))
  {
    var s' := Append(s, b);
    AllOlder(s, b);
    AppendSequences(s, b);
    BatchDistinct(b);
    ReadsGrow(s.View().All(), s.history, Set(b.entries), s.floor);
    assert s'.View().All() == Set(b.entries) + s.View().All();
    assert s'.history == Set(b.entries) + s.history;
  }

  lemma {:induction false} AppendedEntries(logs: map<nat, seq<Batch>>, n: nat, b: Batch, from: nat)
    requires n in logs && from <= n
    ensures LogEntries(logs[n := logs[n] + [b]], from) == LogEntries(logs, from) + Set(b.entries)
  {
    LogSetSnoc(logs[n], b);
    var logs' := logs[n := logs[n] + [b]];
    forall e ensures e in LogEntries(logs', from) <==> e in LogEntries(logs, from) + Set(b.entries) {
      if e in LogEntries(logs, from) {
        var m :| m in logs && from <= m && e in LogSet(logs[m]);
        assert e in LogSet(logs'[m]);
      }
      if e in b.entries {
        assert e in LogSet(logs'[n]);
      }
    }
  }

  lemma {:induction false} AscendingSnoc(log: seq<Batch>, b: Batch)
    requires Ascending(log) && BatchOk(b) && OlderThan(LogSet(log), Set(b.entries))
    ensures Ascending(log + [b])
  {
    forall i, j | 0 <= i < j < |log + [b]| ensures BatchBefore((log + [b])[i], (log + [b])[j]) {
      if j < |log| {
        assert BatchBefore(log[i], log[j]);
      } else {
        assert log[i] in log;
        assert forall e :: e in log[i].entries ==> e in LogSet(log);
      }
    }
  }

  lemma {:induction false} AppendedOk(logs: map<nat, seq<Batch>>, n: nat, b: Batch, from: nat)
    requires LogsOk(logs, from) && n in logs && from <= n && (forall m :: m in logs ==> m <= n)
    requires BatchOk(b) && OlderThan(LogEntries(logs, from), Set(b.entries))
    ensures LogsOk(logs[n := logs[n] + [b]], from)
  {
    var logs' := logs[n := logs[n] + [b]];
    assert forall e :: e in LogSet(logs[n]) ==> e in LogEntries(logs, from);
    AscendingSnoc(logs[n], b);
    LogSetSnoc(logs[n], b);
    forall k, m | k in logs' && m in logs' && from <= k < m ensures LogBefore(logs', k, m) {
      assert LogBefore(logs, k, m);
      if m == n {
        assert forall e :: e in LogSet(logs[k]) ==> e in LogEntries(logs, from);
        OlderParts(LogEntries(logs, from), LogSet(logs[k]), Set(b.entries), Set(b.entries));
      }
    }
  }

  lemma {:induction false} AppendLogs(s: State, b: Batch)
    requires Inv(s) && CanAppend(s, b)
    ensures LogsHold(Append(s, b))
  {
    var s' := Append(s, b);
    var logs := s.disk.logs;
    AllOlder(s, b);
    AppendSequences(s, b);
    AppendedEntries(logs, s.logFile, b, s.logNumber);
    AppendedEntries(logs, s.logFile, b, s.logFile);
    AppendedOk(logs, s.logFile, b, s.logNumber);
    OlderParts(s.View().All(), Deep(s.version, 0), Set(b.entries), Set(b.entries));
    assert LogEntries(s'.disk.logs, s.logNumber) == Set(s'.Full()) + Set(s.ImmEntries());
  }

  lemma {:induction false} AppendCommitted(s: State, b: Batch)
    requires Inv(s) && CanAppend(s, b)
    ensures CommittedOk(Append(s, b))
  {
    AppendedEntries(s.disk.logs, s.logFile, b, s.LogStart());
  }

  lemma {:induction false} AppendWork(s: State, b: Batch)
    requires Inv(s) && CanAppend(s, b)
    ensures WorkOk(Append(s, b))
  {
    AppendSequences(s, b);
    assert s.View().All() <= Append(s, b).View().All();
    if !s.work.Idle? {
      HarmlessLater(s.View(), Append(s, b).View(), s.ImmEntries(), s.work.task);
    }
  }

  lemma {:induction false} AppendKeeps(s: State, b: Batch)
    requires Inv(s) && CanAppend(s, b)
    ensures Inv(Append(s, b))
  {
    AppendSequences(s, b);
    AppendMemory(s, b);
    AppendLogs(s, b);
    AppendCommitted(s, b);
    AppendWork(s, b);
  }

  // ----- put it into the memtable -----

  function Apply(s: State): State {
    if s.pending.Logging? && s.LastLogged() <= MAX_SEQUENCE
        then s.(mem := s.Full(), lastSequence := s.LastLogged(), pending := NoBatch) else s
  }

  lemma {:induction false} ApplyMemory(s: State)
    requires MemoryOk(s) && SequencesOk(s) && SnapshotsOk(s)
    ensures MemoryOk(Apply(s)) && SequencesOk(Apply(s)) && SnapshotsOk(Apply(s))
  {
    FullIs(s);
    if s.pending.Logging? {
      assert Apply(s).View() == s.View();
      forall e | e in s.pending.batch.entries ensures e.key.sequence <= s.LastLogged() {
        BatchRange(s.pending.batch, e);
      }
    }
  }

  lemma {:induction false} ApplyCommitted(s: State)
    requires MemoryOk(s) && SequencesOk(s) && CommittedOk(s) && LogsHold(s)
    ensures CommittedOk(Apply(s))
  {
    if s.pending.Logging? && s.pending.batch.entries != [] {
      var e := LastPending(s);
      assert Reaches(s.LastLogged(), Counters(s.disk).lastSequence, LogEntries(s.disk.logs, s.LogStart()));
    }
  }

  lemma {:induction false} ApplyLogs(s: State)
    requires LogsHold(s) && TablesOk(s) && WorkOk(s) && SequencesOk(s)
    ensures LogsHold(Apply(s)) && TablesOk(Apply(s)) && WorkOk(Apply(s))
  {
    assert Apply(s).View() == s.View();
  }

  lemma {:induction false} ApplyKeeps(s: State)
    requires Inv(s)
    ensures Inv(Apply(s))
  {
    ApplyMemory(s);
    ApplyCommitted(s);
    ApplyLogs(s);
  }

  // ----- switch memtables -----

  ghost predicate CanSwitch(s: State) {
    s.imm.NoImm? && s.pending.NoBatch?
  }

  /** MakeRoomForWrite: a new log for a new memtable; the full one is to be flushed. */
  function Switch(s: State): State {
    s.(mem := [], imm := Imm(s.mem), logFile := s.nextFile, nextFile := s.nextFile + 1,
       disk := s.disk.(logs := s.disk.logs[s.nextFile := []]))
  }

  lemma {:induction false} SwitchMemory(s: State)
    requires MemoryOk(s) && SequencesOk(s) && SnapshotsOk(s) && TablesOk(s) && CanSwitch(s)
    ensures MemoryOk(Switch(s)) && SequencesOk(Switch(s)) && SnapshotsOk(Switch(s)) && TablesOk(Switch(s))
  {
    assert Set(s.ImmEntries()) == {} && Set(Switch(s).Full()) == {};
    assert Switch(s).View().All() == s.View().All();
    assert Set(Switch(s).mem) + (Set(Switch(s).ImmEntries()) + Deep(s.version, 0)) ==
        Set(s.mem) + (Set(s.ImmEntries()) + Deep(s.version, 0));
  }

  /** A job under way is no flush, so it does not care about the immutable memtable. */
  lemma {:induction false} SwitchWork(s: State)
    requires WorkOk(s) && CanSwitch(s)
    ensures WorkOk(Switch(s)) && Switch(s).LogStart() == s.LogStart() && Switch(s).Committed() == s.Committed()
  {
    SwitchView(s);
    if !s.work.Idle? {
      HarmlessLater(s.View(), Switch(s).View(), s.ImmEntries(), s.work.task);
    }
  }

  lemma {:induction false} SwitchView(s: State)
    requires CanSwitch(s)
    ensures Switch(s).View().All() == s.View().All() && Switch(s).View().version == s.version
  {
    assert Set(s.ImmEntries()) == {} && Set(Switch(s).Full()) == {};
  }

  lemma {:induction false} SwitchCommitted(s: State)
    requires CommittedOk(s) && LogsHold(s) && WorkOk(s) && CanSwitch(s)
    ensures CommittedOk(Switch(s))
  {
    SwitchWork(s);
    CreatedLog(s.disk.logs, s.logNumber, s.nextFile);
  }

  lemma {:induction false} SwitchLogsHold(s: State)
    requires LogsHold(s) && CanSwitch(s)
    ensures LogsHold(Switch(s))
  {
    CreatedLog(s.disk.logs, s.logNumber, s.nextFile);
    assert Set(s.ImmEntries()) == {} && Set(Switch(s).Full()) == {} && Set(Switch(s).ImmEntries()) == Set(s.Full());
  }

  lemma {:induction false} SwitchKeeps(s: State)
    requires Inv(s) && CanSwitch(s)
    ensures Inv(Switch(s))
  {
    SwitchMemory(s);
    SwitchWork(s);
    SwitchCommitted(s);
    SwitchLogsHold(s);
  }
}
