/** The jobs of the background thread (db_impl): flush the immutable memtable, compact, or move one file down; where
    each file of the new version comes from, and that the record of a finished job leads the manifest there. */
module Tasks {
  import opened Keys
  import opened Cursors
  import opened Reads
  import opened Versions
  import opened Inputs
  import opened Builders
  import opened Installs
  import opened Manifests
  import opened Reorganise

  datatype Task =
    | FlushNothing // an empty memtable makes no table
    | FlushTo(level: nat, file: File)
    | Compact(level: nat, sel: Selection, outputs: Level, smallestSnapshot: Sequence)
    | Move(level: nat, sel: Selection)
  {
    predicate IsFlush() {
      FlushNothing? || FlushTo?
    }

    function Files(): Level {
      match this
      case FlushTo(_, f) => [f]
      case Compact(_, _, outputs, _) => outputs
      case _ => []
    }
  }

  function EditOf(task: Task): Edit {
    match task
    case FlushNothing => Edit({}, [])
    case FlushTo(level, f) => FlushEdit(level, f)
    case Compact(level, sel, outputs, _) => ReplaceEdit(level, sel, outputs)
    case Move(level, sel) => ReplaceEdit(level, sel, sel.inputs0)
  }

  ghost function Outcome(v: Version, task: Task): Version {
    Applied(v, EditOf(task))
  }

  /** What the job was built from still stands: the version and the immutable memtable. */
  ghost predicate TaskOk(v: Version, imm: seq<Entry>, task: Task) {
    && VersionOk(v) && UniqueNumbers(v)
    && match task
       case FlushNothing => imm == []
       case FlushTo(level, f) => CanFlush(v, level, f) && f.entries == imm
       case Compact(level, sel, outputs, smallestSnapshot) =>
         && CanReplace(v, level, sel, outputs) && Compacted(v, level, sel, smallestSnapshot, outputs)
         && smallestSnapshot < MAX_SEQUENCE
         && forall f :: f in outputs ==> NumbersBelow(v, f.number)
       case Move(level, sel) => CanReplace(v, level, sel, sel.inputs0) && sel.inputs1 == []
  }

  lemma {:induction false} NothingDone(v: Version)
    requires Shaped(v)
    ensures Outcome(v, FlushNothing) == v
  {
    forall l | 0 <= l < NUM_LEVELS ensures Applied(v, Edit({}, []))[l] == v[l] {
      UntouchedLevel(v, Edit({}, []), l);
    }
  }

  lemma {:induction false} MovesNothingElse(v: Version, level: nat, sel: Selection)
    requires CanReplace(v, level, sel, sel.inputs0) && sel.inputs1 == []
    ensures Deep(Replaced(v, level, sel, sel.inputs0), 0) == Deep(v, 0)
  {
    SplitBefore(v, level, sel);
    SplitAfter(v, level, sel, sel.inputs0);
    assert InputEntries(sel) == Union(sel.inputs0);
  }

  /** The new version is in order. */
  lemma {:induction false} TaskKeepsOrder(v: Version, imm: seq<Entry>, task: Task)
    requires TaskOk(v, imm, task)
    ensures VersionOk(Outcome(v, task))
    ensures task.FlushNothing? ==> Outcome(v, task) == v
    ensures task.IsFlush() ==> Deep(Outcome(v, task), 0) == Set(imm) + Deep(v, 0)
    ensures task.Move? ==> Deep(Outcome(v, task), 0) == Deep(v, 0)
    ensures !task.IsFlush() ==> Deep(Outcome(v, task), 0) <= Deep(v, 0)
  {
    match task
    case FlushNothing =>
      NothingDone(v);
      assert Set(imm) == {};
    case FlushTo(level, f) =>
      Flushed(v, level, f);
    case Compact(level, sel, outputs, _) =>
      ReplacedOk(v, level, sel, outputs);
      SplitBefore(v, level, sel);
      SplitAfter(v, level, sel, outputs);
    case Move(level, sel) =>
      ReplacedOk(v, level, sel, sel.inputs0);
      MovesNothingElse(v, level, sel);
  }

  // ----- file numbers -----

  datatype Origin = Stayed | Built | Moved

  /** The level that the job adds files to. */
  function Target(task: Task): nat {
    if task.FlushNothing? then 0 else if task.FlushTo? then task.level else task.level + 1
  }

  ghost predicate Comes(v: Version, task: Task, l: nat, f: File, from: Origin)
    requires l < NUM_LEVELS
  {
    match from
    case Stayed => Placed(v, l, f)
    case Built => l == Target(task) && f in task.Files() && NumbersBelow(v, f.number)
    case Moved =>
      && task.Move? && l == Target(task)
      && task.level < NUM_LEVELS && Placed(v, task.level, f) && f in task.sel.inputs0
  }

  /** Where a file of the new version comes from. */
  lemma {:induction false} PlacedAfter(v: Version, imm: seq<Entry>, task: Task, l: nat, f: File) returns (from: Origin)
    requires TaskOk(v, imm, task) && l < NUM_LEVELS && Placed(Outcome(v, task), l, f)
    ensures Comes(v, task, l, f, from)
  {
    from := Stayed;
    match task
    case FlushNothing =>
      NothingDone(v);
    case FlushTo(level, file) =>
      FlushedLevels(v, level, file);
      from := if f in v[l] then Stayed else Built;
    case Compact(level, sel, outputs, _) =>
      FileAfter(v, level, sel, outputs, l, f);
      from := if f in v[l] then Stayed else Built;
    case Move(level, sel) =>
      FileAfter(v, level, sel, sel.inputs0, l, f);
      InputsAreFiles(v, level, sel, f);
      from := if f in v[l] then Stayed else Moved;
  }

  /** A file that has moved is no longer where it was. */
  lemma {:induction false} MovedAway(v: Version, imm: seq<Entry>, task: Task, f: File)
    requires TaskOk(v, imm, task) && task.Move? && f in task.sel.inputs0
    ensures !Placed(Outcome(v, task), task.level, f)
  {
    FileAfter(v, task.level, task.sel, task.sel.inputs0, task.level, f);
  }

  lemma {:induction false} FilesNumbered(v: Version, imm: seq<Entry>, task: Task, f: File, g: File)
    requires TaskOk(v, imm, task) && f in task.Files() && g in task.Files() && f.number == g.number
    ensures f == g
  {
  }

  lemma {:induction false} SameNumber(v: Version, imm: seq<Entry>, task: Task, k: nat, f: File, from: Origin, l: nat,
                                      g: File, origin: Origin)
    requires TaskOk(v, imm, task) && k < NUM_LEVELS && l < NUM_LEVELS && f.number == g.number
    requires Placed(Outcome(v, task), k, f) && Placed(Outcome(v, task), l, g)
    requires Comes(v, task, k, f, from) && Comes(v, task, l, g, origin)
    ensures k == l && f == g
  {
    match (from, origin)
    case (Stayed, Stayed) =>
    case (Stayed, Moved) => MovedAway(v, imm, task, g);
    case (Moved, Stayed) => MovedAway(v, imm, task, f);
    case (Moved, Moved) =>
    case (Built, Built) => FilesNumbered(v, imm, task, f, g);
    case (_, _) =>
  }

  lemma {:induction false} TaskKeepsNumbers(v: Version, imm: seq<Entry>, task: Task)
    requires TaskOk(v, imm, task)
    ensures UniqueNumbers(Outcome(v, task))
  {
    forall k, l, f, g | 0 <= k < NUM_LEVELS && 0 <= l < NUM_LEVELS && Placed(Outcome(v, task), k, f)
                        && Placed(Outcome(v, task), l, g) && f.number == g.number
      ensures k == l && f == g
    {
      var from := PlacedAfter(v, imm, task, k, f);
      var origin := PlacedAfter(v, imm, task, l, g);
      SameNumber(v, imm, task, k, f, from, l, g, origin);
    }
  }

  /** The numbers of the job's new files have been given out since the manifest's last record. */
  ghost predicate Fresh(records: seq<Record>, task: Task, next: nat) {
    forall f :: f in task.Files() ==> f.number < next && AddedBelow(records, f.number)
  }

  lemma {:induction false} TaskNumbersBelow(v: Version, imm: seq<Entry>, task: Task, next: nat)
    requires TaskOk(v, imm, task) && NumbersBelow(v, next) && forall f :: f in task.Files() ==> f.number < next
    ensures NumbersBelow(Outcome(v, task), next)
  {
    forall l, f | 0 <= l < NUM_LEVELS && f in Outcome(v, task)[l] ensures f.number < next {
      assert Placed(Outcome(v, task), l, f);
      var from := PlacedAfter(v, imm, task, l, f);
      assert from.Moved? ==> f in v[task.level];
    }
  }

  /** The files that the job's edit adds to a level. */
  lemma {:induction false} Adds(task: Task, l: nat)
    ensures AddedAt(EditOf(task).added, l) ==
            if l != Target(task) then [] else if task.Move? then task.sel.inputs0 else task.Files()
  {
    match task
    case FlushNothing =>
    case FlushTo(level, f) => AddedOne(level, f, l);
    case Compact(level, sel, outputs, _) => EditParts(level, sel, outputs, l);
    case Move(level, sel) => EditParts(level, sel, sel.inputs0, l);
  }

  ghost predicate Recordable(records: seq<Record>, v: Version, imm: seq<Entry>, task: Task, next: nat) {
    TaskOk(v, imm, task) && Fresh(records, task, next) && Sinking(records, v)
  }

  lemma {:induction false} Admitted(records: seq<Record>, v: Version, imm: seq<Entry>, task: Task, next: nat)
    requires Recordable(records, v, imm, task, next)
    ensures Admissible(records, EditOf(task))
  {
    forall l | 0 <= l < NUM_LEVELS
      ensures Numbered(AddedAt(EditOf(task).added, l))
      ensures Foreign(AllAdded(Edits(records), l), AddedAt(EditOf(task).added, l))
    {
      Adds(task, l);
      if task.Move? && l == Target(task) {
        MovedIsNumbered(v, imm, task);
        forall g, f | g in AllAdded(Edits(records), l) && f in task.sel.inputs0 ensures g.number != f.number {
          InputsAreFiles(v, task.level, task.sel, f);
          assert Placed(v, task.level, f);
        }
      }
    }
  }

  lemma {:induction false} MovedIsNumbered(v: Version, imm: seq<Entry>, task: Task)
    requires TaskOk(v, imm, task) && task.Move?
    ensures Numbered(task.sel.inputs0)
  {
  }

  /** Every file of the new version keeps clear of the numbers that deeper levels have had. */
  lemma {:induction false} KeepsSinking(records: seq<Record>, v: Version, imm: seq<Entry>, task: Task, next: nat,
                                        r: Record)
    requires Recordable(records, v, imm, task, next) && r.edit == EditOf(task)
    ensures Sinking(records + [r], Outcome(v, task))
  {
    var v' := Outcome(v, task);
    forall l, f | 0 <= l < NUM_LEVELS && Placed(v', l, f) ensures Placed(v, l, f) || NewAt(records, r.edit, l, f) {
      var from := PlacedAfter(v, imm, task, l, f);
      if !from.Stayed? {
        NewlyPlaced(records, v, imm, task, next, l, f, from);
      }
    }
    TaskKeepsNumbers(v, imm, task);
    forall l, k, f, g | 0 <= l < k < NUM_LEVELS && Placed(v', l, f) && g in AddedAt(r.edit.added, k)
      ensures f.number != g.number
    {
      OffDeeperNumbers(v, imm, task, l, k, f, g);
    }
    SinkingAppended(records, v, r, v');
  }

  lemma {:induction false} OffDeeperNumbers(v: Version, imm: seq<Entry>, task: Task, l: nat, k: nat, f: File, g: File)
    requires TaskOk(v, imm, task) && UniqueNumbers(Outcome(v, task)) && l < k < NUM_LEVELS
    requires Placed(Outcome(v, task), l, f) && g in AddedAt(EditOf(task).added, k)
    ensures f.number != g.number
  {
    AddedArePlaced(v, imm, task, k, g);
    assert Placed(Outcome(v, task), k, g);
  }

  lemma {:induction false} NewlyPlaced(records: seq<Record>, v: Version, imm: seq<Entry>, task: Task, next: nat,
                                       l: nat, f: File, from: Origin)
    requires Recordable(records, v, imm, task, next) && l < NUM_LEVELS && Comes(v, task, l, f, from) && !from.Stayed?
    ensures NewAt(records, EditOf(task), l, f)
  {
    Adds(task, l);
  }

  lemma {:induction false} AddedArePlaced(v: Version, imm: seq<Entry>, task: Task, k: nat, g: File)
    requires TaskOk(v, imm, task) && k < NUM_LEVELS && g in AddedAt(EditOf(task).added, k)
    ensures g in Outcome(v, task)[k]
  {
    Adds(task, k);
    DoneIs(v, task);
    if task.FlushTo? {
      FlushedLevels(v, task.level, task.file);
    } else if task.Compact? {
      FileAfter(v, task.level, task.sel, task.outputs, k, g);
    } else if task.Move? {
      FileAfter(v, task.level, task.sel, task.sel.inputs0, k, g);
    }
  }

  lemma {:induction false} DoneIs(v: Version, task: Task)
    ensures task.FlushTo? ==> Outcome(v, task) == Applied(v, FlushEdit(task.level, task.file))
    ensures task.Compact? ==> Outcome(v, task) == Replaced(v, task.level, task.sel, task.outputs)
    ensures task.Move? ==> Outcome(v, task) == Replaced(v, task.level, task.sel, task.sel.inputs0)
  {
  }

  lemma {:induction false} KeepsAddedBelow(records: seq<Record>, v: Version, imm: seq<Entry>, task: Task, next: nat,
                                           r: Record)
    requires Recordable(records, v, imm, task, next) && r.edit == EditOf(task)
    requires AddedBelow(records, next) && NumbersBelow(v, next)
    ensures AddedBelow(records + [r], next)
  {
    forall l, f | 0 <= l < NUM_LEVELS && f in AddedAt(r.edit.added, l) ensures f.number < next {
      Adds(task, l);
      if task.Move? {
        InputsAreFiles(v, task.level, task.sel, f);
      }
    }
    AddedBelowAppended(records, r, next, next);
  }

  /** Recording a finished job: the manifest leads to the new version. */
  lemma {:induction false} TaskRecorded(records: seq<Record>, v: Version, imm: seq<Entry>, task: Task, next: nat,
                                        r: Record)
    requires Recordable(records, v, imm, task, next) && r.edit == EditOf(task)
    requires LeadsTo(records, v) && AddedBelow(records, next) && NumbersBelow(v, next)
    ensures LeadsTo(records + [r], Outcome(v, task)) && Sinking(records + [r], Outcome(v, task))
    ensures AddedBelow(records + [r], next)
  {
    Admitted(records, v, imm, task, next);
    RecordAppended(records, v, r);
    KeepsSinking(records, v, imm, task, next, r);
    KeepsAddedBelow(records, v, imm, task, next, r);
  }
}
