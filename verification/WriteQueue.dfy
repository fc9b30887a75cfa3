/** Every run of the writer queue (DBImpl::Write): who commits when, under which sequence numbers, and what the log
    then holds. */
module WriteQueue {
  import opened WriteBatch
  import opened GroupCommit

  /** What became of a writer: turned away by MakeRoomForWrite, a null batch at the front, or in a group. */
  datatype Fate = Refused | Switched | Grouped(start: nat, logged: bool, ok: bool, record: nat)

  datatype Finished = Finished(writer: Writer, fate: Fate)

  /** A record as it was appended, or what a failed append has left of one. */
  datatype LogRecord = LogRecord(first: nat, ops: seq<Op>) | Fragment

  /** While the leader writes its group the lock is free, and others may queue up behind. */
  datatype Phase = Free | Writing(n: nat)

  /** `finished` and `synced` are for the specification: who has returned, and how many log records are durable. */
  datatype Queue = Queue(waiting: seq<Writer>, phase: Phase, lastSequence: nat, log: seq<LogRecord>, mem: seq<Numbered>,
                         broken: bool, finished: seq<Finished>, synced: nat)

  /** All went well, the log append failed, with or without a trace in the file, or the sync after it failed. */
  datatype Outcome = Committed | NotLogged | Torn | NotSynced {
    predicate Logs() {
      Committed? || NotSynced?
    }
  }

  datatype Action = Arrive(writer: Writer) | Refuse | SwitchOnly | Begin | Finish(outcome: Outcome) | Break

  predicate Can(q: Queue, a: Action) {
    match a
    case Arrive(_) => true
    case Refuse => q.phase.Free? && q.waiting != []
    case SwitchOnly => q.phase.Free? && q.waiting != [] && !q.broken && q.waiting[0].update.Null?
    case Begin => q.phase.Free? && q.waiting != [] && !q.broken && q.waiting[0].update.Batch?
    case Finish(outcome) =>
      && q.phase.Writing? && 1 <= q.phase.n <= |q.waiting| && q.waiting[0].update.Batch?
      && (outcome.NotSynced? ==> q.waiting[0].sync)
    case Break => true
  }

  /** The operations of the first n writers. */
  function Front(waiting: seq<Writer>, n: nat): seq<Op>
    requires n <= |waiting|
  {
    if n == 0 then [] else Front(waiting, n - 1) + OpsOf(waiting[n - 1])
  }

  function Member(waiting: seq<Writer>, k: nat, group: Fate): Finished
    requires k < |waiting| && group.Grouped?
  {
    Finished(waiting[k], group.(start := group.start + |Front(waiting, k)|))
  }

  /** The members of a group finish in order, each behind the numbers of the one before. */
  function Settle(finished: seq<Finished>, waiting: seq<Writer>, n: nat, group: Fate): seq<Finished>
    requires n <= |waiting| && group.Grouped?
  {
    if n == 0 then finished
    else Settle(finished, waiting, n - 1, group) + [Member(waiting, n - 1, group)]
  }

  /** The tail of Write: the log record, the memtable, the last sequence number and the queue. */
  function FinishGroup(q: Queue, outcome: Outcome): Queue
    requires Can(q, Finish(outcome))
  {
    var n, first := q.phase.n, q.lastSequence + 1;
    var ops := Joined(q.waiting, n).ops;
    var log := LogAfter(q.log, outcome, LogRecord(first, ops));
    Queue(q.waiting[n..], Free, q.lastSequence + |ops|, log, if outcome.Committed? then q.mem + Number(first, ops)
        else q.mem,
          q.broken || outcome.NotSynced?,
          Settle(q.finished, q.waiting, n, Grouped(first, outcome.Logs(), outcome.Committed?, |q.log|)),
          if outcome.Committed? && q.waiting[0].sync then |log| else q.synced)
  }

  function Do(q: Queue, a: Action): Queue
    requires Can(q, a)
  {
    match a
    case Arrive(w) => q.(waiting := q.waiting + [w])
    case Refuse => q.(waiting := q.waiting[1..], finished := q.finished + [Finished(q.waiting[0], Refused)])
    case SwitchOnly => q.(waiting := q.waiting[1..], finished := q.finished + [Finished(q.waiting[0], Switched)])
    case Begin => q.(phase := Writing(GroupLength(q.waiting)))
    case Finish(outcome) => FinishGroup(q, outcome)
    case Break => q.(broken := true)
  }

  // ----- what the finished writers add up to -----

  function Writers(f: seq<Finished>): seq<Writer> {
    if f == [] then [] else Writers(f[..|f| - 1]) + [f[|f| - 1].writer]
  }

  /** The operations of everybody who got as far as a group, logged or not. */
  function Count(f: seq<Finished>): nat {
    if f == [] then 0
    else var x := f[|f| - 1]; Count(f[..|f| - 1]) + (if x.fate.Grouped? then |OpsOf(x.writer)| else 0)
  }

  /** Each one's numbers start right behind those of the ones before. */
  ghost predicate Contiguous(base: nat, f: seq<Finished>) {
    f == [] || (var x := f[|f| - 1];
    Contiguous(base, f[..|f| - 1]) && (x.fate.Grouped? ==> x.fate.start == base + Count(f[..|f| - 1]) + 1))
  }

  datatype Place = Log | Mem

  predicate Reached(fate: Fate, place: Place) {
    fate.Grouped? && if place.Log? then fate.logged else fate.ok
  }

  function Part(fate: Fate, ops: seq<Op>, place: Place): seq<Numbered> {
    if Reached(fate, place) then Number(fate.start, ops) else []
  }

  function Share(x: Finished, place: Place): seq<Numbered> {
    Part(x.fate, OpsOf(x.writer), place)
  }

  /** What the finished writers have put into the log, or into the memtable. */
  function Sum(f: seq<Finished>, place: Place): seq<Numbered> {
    if f == [] then [] else Sum(f[..|f| - 1], place) + Share(f[|f| - 1], place)
  }

  function Whole(r: LogRecord): seq<Numbered> {
    if r.Fragment? then [] else Number(r.first, r.ops)
  }

  function Flat(log: seq<LogRecord>): seq<Numbered> {
    if log == [] then [] else Flat(log[..|log| - 1]) + Whole(log[|log| - 1])
  }

  lemma {:induction false} Snoc(base: nat, f: seq<Finished>, x: Finished)
    ensures Writers(f + [x]) == Writers(f) + [x.writer]
    ensures Count(f + [x]) == Count(f) + if x.fate.Grouped? then |OpsOf(x.writer)| else 0
    ensures Contiguous(base, f + [x]) <==>
            Contiguous(base, f) &&
            (x.fate.Grouped? ==> x.fate.start == base + Count(f) + 1)
  {
    assert (f + [x])[..|f|] == f;
  }

  lemma {:induction false} SumSnoc(f: seq<Finished>, x: Finished, place: Place)
    ensures Sum(f + [x], place) == Sum(f, place) + Share(x, place)
  {
    assert (f + [x])[..|f|] == f;
  }

  lemma {:induction false} NumberJoin(first: nat, a: seq<Op>, b: seq<Op>)
    ensures Number(first, a + b) == Number(first, a) + Number(first + |a|, b)
  {
    if b == [] {
      assert a + b == a;
    } else {
      var n := |b| - 1;
      assert (a + b)[..|a| + n] == a + b[..n];
      NumberJoin(first, a, b[..n]);
    }
  }

  lemma {:induction false} FrontIsJoined(waiting: seq<Writer>, n: nat)
    requires 1 <= n <= |waiting| && waiting[0].update.Batch?
    ensures Joined(waiting, n).ops == Front(waiting, n)
  {
    if n > 1 {
      FrontIsJoined(waiting, n - 1);
    } else {
      assert Front(waiting, 1) == Front(waiting, 0) + OpsOf(waiting[0]) == OpsOf(waiting[0]);
    }
  }

  lemma {:induction false} SettledNumbers(base: nat, f: seq<Finished>, waiting: seq<Writer>, n: nat, g: Fate)
    requires n <= |waiting| && g.Grouped? && Contiguous(base, f) && g.start == base + Count(f) + 1
    ensures Contiguous(base, Settle(f, waiting, n, g))
    ensures Count(Settle(f, waiting, n, g)) == Count(f) + |Front(waiting, n)|
  {
    if n > 0 {
      SettledNumbers(base, f, waiting, n - 1, g);
      Snoc(base, Settle(f, waiting, n - 1, g), Member(waiting, n - 1, g));
    }
  }

  lemma {:induction false} WritersJoin(x: seq<Writer>, waiting: seq<Writer>, n: nat)
    requires n < |waiting|
    ensures x + waiting[..n] + [waiting[n]] == x + waiting[..n + 1]
  {
  }

  lemma {:induction false} WritersStep(x: seq<Writer>, f: seq<Finished>, waiting: seq<Writer>, n: nat, g: Fate)
    requires n < |waiting| && g.Grouped? && Writers(f) == x + waiting[..n]
    ensures Writers(f + [Member(waiting, n, g)]) == x + waiting[..n + 1]
  {
    Snoc(0, f, Member(waiting, n, g));
    WritersJoin(x, waiting, n);
  }

  lemma {:induction false} SettledWriters(f: seq<Finished>, waiting: seq<Writer>, n: nat, g: Fate)
    requires n <= |waiting| && g.Grouped?
    ensures Writers(Settle(f, waiting, n, g)) == Writers(f) + waiting[..n]
  {
    if n > 0 {
      SettledWriters(f, waiting, n - 1, g);
      Next(f, waiting, n - 1, g);
      WritersStep(Writers(f), Settle(f, waiting, n - 1, g), waiting, n - 1, g);
    } else {
      assert Writers(f) + waiting[..0] == Writers(f);
    }
  }

  lemma {:induction false} NoPart(x: seq<Numbered>, g: Fate, place: Place)
    ensures x + Part(g, [], place) == x
  {
  }

  lemma {:induction false} NumbersJoin(x: seq<Numbered>, first: nat, a: seq<Op>, b: seq<Op>)
    ensures x + Number(first, a) + Number(first + |a|, b) == x + Number(first, a + b)
  {
    NumberJoin(first, a, b);
    Join3(x, Number(first, a), Number(first + |a|, b));
  }

  lemma {:induction false} Join3(x: seq<Numbered>, y: seq<Numbered>, z: seq<Numbered>)
    ensures x + y + z == x + (y + z)
  {
  }

  lemma {:induction false} PartsJoin(x: seq<Numbered>, g: Fate, a: seq<Op>, b: seq<Op>, place: Place)
    requires g.Grouped?
    ensures x + Part(g, a, place) + Part(g.(start := g.start + |a|), b, place) == x + Part(g, a + b, place)
  {
    NumbersJoin(x, g.start, a, b);
  }

  lemma {:induction false} SumStep(s: seq<Numbered>, f: seq<Finished>, f': seq<Finished>, waiting: seq<Writer>,
                                   k: nat, front: seq<Op>, g: Fate, place: Place)
    requires k < |waiting| && g.Grouped? && Sum(f, place) == s + Part(g, Front(waiting, k), place)
    requires f' == f + [Member(waiting, k, g)] && front == Front(waiting, k) + OpsOf(waiting[k])
    ensures Sum(f', place) == s + Part(g, front, place)
  {
    SumSnoc(f, Member(waiting, k, g), place);
    PartsJoin(s, g, Front(waiting, k), OpsOf(waiting[k]), place);
  }

  lemma {:induction false} Next(f: seq<Finished>, waiting: seq<Writer>, k: nat, g: Fate)
    requires k < |waiting| && g.Grouped?
    ensures Settle(f, waiting, k + 1, g) == Settle(f, waiting, k, g) + [Member(waiting, k, g)]
    ensures Front(waiting, k + 1) == Front(waiting, k) + OpsOf(waiting[k])
  {
  }

  lemma {:induction false} SettledOne(s: seq<Numbered>, f: seq<Finished>, waiting: seq<Writer>, k: nat, g: Fate,
                                      place: Place)
    requires k < |waiting| && g.Grouped?
    requires Sum(Settle(f, waiting, k, g), place) == s + Part(g, Front(waiting, k), place)
    ensures Sum(Settle(f, waiting, k + 1, g), place) == s + Part(g, Front(waiting, k + 1), place)
  {
    Next(f, waiting, k, g);
    SumStep(s, Settle(f, waiting, k, g), Settle(f, waiting, k + 1, g), waiting, k, Front(waiting, k + 1), g, place);
  }

  /** A group adds its operations once, in its order, under consecutive numbers. */
  lemma {:induction false} SettledSum(s: seq<Numbered>, f: seq<Finished>, waiting: seq<Writer>, n: nat, g: Fate,
                                      place: Place)
    requires n <= |waiting| && g.Grouped? && Sum(f, place) == s
    ensures Sum(Settle(f, waiting, n, g), place) == s + Part(g, Front(waiting, n), place)
  {
    if n > 0 {
      SettledSum(s, f, waiting, n - 1, g, place);
      SettledOne(s, f, waiting, n - 1, g, place);
    } else {
      NoPart(s, g, place);
    }
  }

  // ----- what every run keeps -----

  datatype Piece = Outside | Piece(ops: seq<Op>)

  /** What a record holds under n numbers from `start` on. */
  function PieceAt(r: LogRecord, start: nat, n: nat): Piece {
    if r.LogRecord? && r.first <= start && start - r.first + n <= |r.ops|
    then Piece(r.ops[start - r.first..start - r.first + n]) else Outside
  }

  /** Success means logged; for a sync write it means that the record is durable. */
  ghost predicate Kept(x: Finished, log: seq<LogRecord>, synced: nat) {
    x.fate.Grouped? ==>
      && (x.fate.ok ==> x.fate.logged)
      && (x.fate.logged ==> x.fate.record < |log|)
      && (x.fate.logged ==> PieceAt(log[x.fate.record], x.fate.start, |OpsOf(x.writer)|) == Piece(OpsOf(x.writer)))
      && (x.fate.ok && x.writer.sync ==> x.fate.record < synced)
  }

  ghost predicate AllKept(f: seq<Finished>, log: seq<LogRecord>, synced: nat) {
    forall i :: 0 <= i < |f| ==> Kept(f[i], log, synced)
  }

  ghost predicate PhaseOk(q: Queue) {
    q.phase.Writing? ==>
      && 1 <= q.phase.n <= |q.waiting| && q.waiting[0].update.Batch?
      && forall i :: 0 <= i < q.phase.n && q.waiting[i].sync ==> q.waiting[0].sync
  }

  /** Everybody finishes in the order of arrival; numbers run on without a gap or a repetition; log and memtable hold
      the operations of exactly those who got there, in that order. */
  ghost predicate Inv(q: Queue, base: nat, arrived: seq<Writer>) {
    && arrived == Writers(q.finished) + q.waiting
    && Contiguous(base, q.finished) && q.lastSequence == base + Count(q.finished)
    && Flat(q.log) == Sum(q.finished, Log) && q.mem == Sum(q.finished, Mem)
    && AllKept(q.finished, q.log, q.synced) && q.synced <= |q.log| && PhaseOk(q)
  }

  lemma {:induction false} FrontPrefix(waiting: seq<Writer>, k: nat, n: nat)
    requires k <= n <= |waiting|
    ensures Front(waiting, k) <= Front(waiting, n)
  {
    if k < n {
      FrontPrefix(waiting, k, n - 1);
    }
  }

  lemma {:induction false} Inside(a: seq<Op>, b: seq<Op>, both: seq<Op>, all: seq<Op>, first: nat)
    requires both == a + b && both <= all
    ensures PieceAt(LogRecord(first, all), first + |a|, |b|) == Piece(b)
  {
    assert all == both + all[|both|..];
    assert (a + b + all[|both|..])[|a|..|a| + |b|] == b;
  }

  lemma {:induction false} StandsInFront(waiting: seq<Writer>, k: nat, n: nat, first: nat)
    requires k < n <= |waiting|
    ensures PieceAt(LogRecord(first, Front(waiting, n)), first + |Front(waiting, k)|, |OpsOf(waiting[k])|) ==
            Piece(OpsOf(waiting[k]))
  {
    FrontPrefix(waiting, k + 1, n);
    Inside(Front(waiting, k), OpsOf(waiting[k]), Front(waiting, k + 1), Front(waiting, n), first);
  }

  lemma {:induction false} MoreLogged(f: seq<Finished>, log: seq<LogRecord>, synced: nat, log': seq<LogRecord>,
                                      synced': nat)
    requires AllKept(f, log, synced) && log <= log' && synced <= synced'
    ensures AllKept(f, log', synced')
  {
    forall i | 0 <= i < |f| ensures Kept(f[i], log', synced') {
      assert Kept(f[i], log, synced);
    }
  }

  lemma {:induction false} OneKept(f: seq<Finished>, x: Finished, log: seq<LogRecord>, synced: nat)
    requires AllKept(f, log, synced) && Kept(x, log, synced)
    ensures AllKept(f + [x], log, synced)
  {
  }

  lemma {:induction false} MemberKept(waiting: seq<Writer>, k: nat, n: nat, g: Fate, log: seq<LogRecord>, synced: nat)
    requires k < n <= |waiting| && g.Grouped? && (g.ok ==> g.logged)
    requires g.logged ==> g.record < |log| && log[g.record] == LogRecord(g.start, Front(waiting, n))
    requires g.ok && waiting[k].sync ==> g.record < synced
    ensures Kept(Member(waiting, k, g), log, synced)
  {
    StandsInFront(waiting, k, n, g.start);
  }

  lemma {:induction false} SettledKept(f: seq<Finished>, waiting: seq<Writer>, k: nat, n: nat, g: Fate,
                                       log: seq<LogRecord>, synced: nat)
    requires k <= n <= |waiting| && g.Grouped? && AllKept(f, log, synced)
    requires g.ok ==> g.logged
    requires g.logged ==> g.record < |log| && log[g.record] == LogRecord(g.start, Front(waiting, n))
    requires g.ok ==> forall i :: 0 <= i < n && waiting[i].sync ==> g.record < synced
    ensures AllKept(Settle(f, waiting, k, g), log, synced)
  {
    if k > 0 {
      SettledKept(f, waiting, k - 1, n, g, log, synced);
      MemberKept(waiting, k - 1, n, g, log, synced);
      OneKept(Settle(f, waiting, k - 1, g), Member(waiting, k - 1, g), log, synced);
    }
  }

  lemma {:induction false} FlatSnoc(log: seq<LogRecord>, r: LogRecord)
    ensures Flat(log + [r]) == Flat(log) + Whole(r)
  {
    assert (log + [r])[..|log|] == log;
  }

  lemma {:induction false} FinishCounts(base: nat, f: seq<Finished>, waiting: seq<Writer>, n: nat, g: Fate)
    requires n <= |waiting| && g.Grouped? && Contiguous(base, f) && g.start == base + Count(f) + 1
    ensures var f' := Settle(f, waiting, n, g);
            && Writers(f') + waiting[n..] == Writers(f) + waiting
            && Contiguous(base, f') && base + Count(f) + |Front(waiting, n)| == base + Count(f')
  {
    SettledNumbers(base, f, waiting, n, g);
    SettledWriters(f, waiting, n, g);
    SplitWriters(Writers(f), waiting, n);
  }

  lemma {:induction false} SplitWriters(x: seq<Writer>, waiting: seq<Writer>, n: nat)
    requires n <= |waiting|
    ensures x + waiting[..n] + waiting[n..] == x + waiting
  {
  }

  /** What an attempt to append a record leaves in the log. */
  function LogAfter(log: seq<LogRecord>, outcome: Outcome, r: LogRecord): seq<LogRecord> {
    log + (if outcome.Logs() then [r] else if outcome.Torn? then [Fragment] else [])
  }

  lemma {:induction false} LogAfterHolds(log: seq<LogRecord>, outcome: Outcome, r: LogRecord)
    ensures Flat(LogAfter(log, outcome, r)) == Flat(log) + if outcome.Logs() then Whole(r) else []
    ensures log <= LogAfter(log, outcome, r)
    ensures outcome.Logs() ==> LogAfter(log, outcome, r) == log + [r]
  {
    if outcome.Logs() {
      FlatSnoc(log, r);
    } else if outcome.Torn? {
      FlatSnoc(log, Fragment);
    } else {
      assert log + [] == log;
    }
  }

  lemma {:induction false} FinishLog(s: seq<Numbered>, f: seq<Finished>, waiting: seq<Writer>, n: nat, g: Fate,
                                     log: seq<LogRecord>, outcome: Outcome)
    requires n <= |waiting| && g.Grouped? && Flat(log) == s == Sum(f, Log) && g.logged == outcome.Logs()
    ensures Sum(Settle(f, waiting, n, g), Log) ==
            Flat(LogAfter(log, outcome, LogRecord(g.start, Front(waiting, n))))
  {
    SettledSum(s, f, waiting, n, g, Log);
    LogAfterHolds(log, outcome, LogRecord(g.start, Front(waiting, n)));
  }

  lemma {:induction false} FinishMem(f: seq<Finished>, waiting: seq<Writer>, n: nat, g: Fate, mem: seq<Numbered>)
    requires n <= |waiting| && g.Grouped? && mem == Sum(f, Mem)
    ensures Sum(Settle(f, waiting, n, g), Mem) == if g.ok then mem + Number(g.start, Front(waiting, n)) else mem
  {
    SettledSum(mem, f, waiting, n, g, Mem);
    Neither(mem);
  }

  lemma {:induction false} Neither(x: seq<Numbered>)
    ensures x + [] == x
  {
  }

  lemma {:induction false} FinishKept(q: Queue, n: nat, g: Fate, outcome: Outcome, log': seq<LogRecord>,
                                      synced': nat)
    requires AllKept(q.finished, q.log, q.synced) && q.synced <= |q.log| && PhaseOk(q) && n <= |q.waiting|
    requires q.phase.Writing? && q.phase.n == n && g.Grouped? && g.record == |q.log|
    requires g.logged == outcome.Logs() && g.ok == outcome.Committed?
    requires log' == LogAfter(q.log, outcome, LogRecord(g.start, Front(q.waiting, n)))
    requires synced' == if outcome.Committed? && q.waiting[0].sync then |log'| else q.synced
    ensures AllKept(Settle(q.finished, q.waiting, n, g), log', synced') && synced' <= |log'|
  {
    LogAfterHolds(q.log, outcome, LogRecord(g.start, Front(q.waiting, n)));
    MoreLogged(q.finished, q.log, q.synced, log', synced');
    SettledKept(q.finished, q.waiting, n, n, g, log', synced');
  }

  lemma {:induction false} FinishKeeps(q: Queue, base: nat, arrived: seq<Writer>, outcome: Outcome)
    requires Inv(q, base, arrived) && Can(q, Finish(outcome))
    ensures Inv(FinishGroup(q, outcome), base, arrived)
  {
    var n, q' := q.phase.n, FinishGroup(q, outcome);
    var g := Grouped(q.lastSequence + 1, outcome.Logs(), outcome.Committed?, |q.log|);
    FrontIsJoined(q.waiting, n);
    FinishCounts(base, q.finished, q.waiting, n, g);
    FinishLog(Flat(q.log), q.finished, q.waiting, n, g, q.log, outcome);
    FinishMem(q.finished, q.waiting, n, g, q.mem);
    FinishKept(q, n, g, outcome, q'.log, q'.synced);
  }

  function Arrived(arrived: seq<Writer>, a: Action): seq<Writer> {
    if a.Arrive? then arrived + [a.writer] else arrived
  }

  lemma {:induction false} PoppedCounts(base: nat, f: seq<Finished>, waiting: seq<Writer>, fate: Fate)
    requires waiting != [] && !fate.Grouped? && Contiguous(base, f)
    ensures var f' := f + [Finished(waiting[0], fate)];
            Writers(f') + waiting[1..] == Writers(f) + waiting && Contiguous(base, f') && Count(f') == Count(f)
  {
    Snoc(base, f, Finished(waiting[0], fate));
    assert waiting == [waiting[0]] + waiting[1..];
  }

  lemma {:induction false} PoppedSum(f: seq<Finished>, x: Finished, place: Place)
    requires !x.fate.Grouped?
    ensures Sum(f + [x], place) == Sum(f, place)
  {
    SumSnoc(f, x, place);
    Neither(Sum(f, place));
  }

  lemma {:induction false} PopKeeps(q: Queue, base: nat, arrived: seq<Writer>, fate: Fate)
    requires Inv(q, base, arrived) && q.phase.Free? && q.waiting != [] && !fate.Grouped?
    ensures Inv(q.(waiting := q.waiting[1..], finished := q.finished + [Finished(q.waiting[0], fate)]), base, arrived)
  {
    var x := Finished(q.waiting[0], fate);
    PoppedCounts(base, q.finished, q.waiting, fate);
    PoppedSum(q.finished, x, Log);
    PoppedSum(q.finished, x, Mem);
    OneKept(q.finished, x, q.log, q.synced);
  }

  lemma {:induction false} StepKeeps(q: Queue, base: nat, arrived: seq<Writer>, a: Action)
    requires Inv(q, base, arrived) && Can(q, a)
    ensures Inv(Do(q, a), base, Arrived(arrived, a))
  {
    match a
    case Arrive(w) =>
    case Refuse => PopKeeps(q, base, arrived, Refused);
    case SwitchOnly => PopKeeps(q, base, arrived, Switched);
    case Begin => GroupIsFit(q.waiting);
    case Finish(outcome) =>
      FinishKeeps(q, base, arrived, outcome);
    case Break =>
  }

  function Start(base: nat): Queue {
    Queue([], Free, base, [], [], false, [], 0)
  }

  /** Some state a run can reach, with everybody who has arrived on the way. */
  ghost predicate Reaches(base: nat, actions: seq<Action>, q: Queue, arrived: seq<Writer>) {
    if actions == [] then q == Start(base) && arrived == []
    else
      var n := |actions| - 1;
      exists p, before :: Reaches(base, actions[..n], p, before) && Can(p, actions[n]) && q == Do(p, actions[n]) &&
                          arrived == Arrived(before, actions[n])
  }

  lemma {:induction false} EveryRun(base: nat, actions: seq<Action>, q: Queue, arrived: seq<Writer>)
    requires Reaches(base, actions, q, arrived)
    ensures Inv(q, base, arrived)
  {
    if actions != [] {
      var n := |actions| - 1;
      var p, before :| Reaches(base, actions[..n], p, before) && Can(p, actions[n]) && q == Do(p, actions[n]) &&
                       arrived == Arrived(before, actions[n]);
      EveryRun(base, actions[..n], p, before);
      StepKeeps(p, base, before, actions[n]);
    }
  }

  // ----- consequences -----

  /** A sync that fails stops all writing: the log may end in a record that is not durable. */
  lemma {:induction false} FailedSyncBreaks(q: Queue)
    requires Can(q, Finish(NotSynced))
    ensures Do(q, Finish(NotSynced)).broken
  {
  }

  /** Once the queue is broken and nobody is writing, log and memtable stay as they are, and nobody succeeds. */
  lemma {:induction false} BrokenStays(q: Queue, a: Action)
    requires q.broken && q.phase.Free? && Can(q, a)
    ensures var r := Do(q, a);
            && r.broken && r.phase.Free? && r.log == q.log && r.mem == q.mem && r.synced == q.synced
            && forall x :: x in r.finished ==> x in q.finished || x.fate.Refused?
  {
  }

  ghost predicate Between(s: seq<Numbered>, low: nat, high: nat) {
    forall i :: 0 <= i < |s| ==> low < s[i].sequence <= high
  }

  ghost predicate Rising(s: seq<Numbered>) {
    forall i, j :: 0 <= i < j < |s| ==> s[i].sequence < s[j].sequence
  }

  lemma {:induction false} NumberRises(first: nat, ops: seq<Op>)
    ensures |Number(first, ops)| == |ops|
    ensures forall i :: 0 <= i < |ops| ==> Number(first, ops)[i] == Numbered(first + i, ops[i])
  {
    if ops != [] {
      NumberRises(first, ops[..|ops| - 1]);
    }
  }

  lemma {:induction false} SumRises(base: nat, f: seq<Finished>, place: Place)
    requires Contiguous(base, f)
    ensures Rising(Sum(f, place)) && Between(Sum(f, place), base, base + Count(f))
  {
    if f != [] {
      var x := f[|f| - 1];
      SumRises(base, f[..|f| - 1], place);
      if Reached(x.fate, place) {
        NumberRises(x.fate.start, OpsOf(x.writer));
      }
    }
  }

  /** No sequence number is used twice, in the log or in the memtable, in any run: what the skip list asks for. */
  lemma {:induction false} NoNumberTwice(base: nat, actions: seq<Action>, q: Queue, arrived: seq<Writer>)
    requires Reaches(base, actions, q, arrived)
    ensures Rising(q.mem) && Rising(Flat(q.log))
    ensures Between(q.mem, base, q.lastSequence) && Between(Flat(q.log), base, q.lastSequence)
  {
    EveryRun(base, actions, q, arrived);
    SumRises(base, q.finished, Log);
    SumRises(base, q.finished, Mem);
  }
}
