/** Write-behind persistence.  Writers change memory and then mark the key dirty;
    one flusher drains the marks, reads the current values, and commits them in
    one transaction or merges the marks back.  Writers and the flusher interleave
    step by step. */
module WriteBehind {
  import opened Types

  datatype DirtyOp = OpUpsert | OpDelete

  const TABLES: nat := 5

  /** Keys of five tables; each table has its own dirty set. */
  datatype Key = Key(table: nat, id: int)

  type Value = int

  datatype Phase = Resting | Draining(next: nat) | Reading | Merging(next: nat)

  /** owed: keys a writer has changed in memory and not yet marked. */
  datatype State = State(
    mem: map<Key, Value>,
    db: map<Key, Value>,
    dirty: map<Key, DirtyOp>,
    owed: map<Key, DirtyOp>,
    phase: Phase,
    drained: map<Key, DirtyOp>,
    seen: map<Key, Option<Value>>)

  datatype Step =
    | Mutate(key: Key, value: Option<Value>)
    | Mark(key: Key)
    | Touch(key: Key)
    | StartFlush
    | Drain
    | Read(key: Key)
    | Commit
    | Fail
    | Merge

  function Lookup(m: map<Key, Value>, k: Key): Option<Value> {
    if k in m then Some(m[k]) else None
  }

  function OfTable(m: map<Key, DirtyOp>, t: nat): map<Key, DirtyOp> {
    map k | k in m && k.table == t :: m[k]
  }

  function Without(m: map<Key, DirtyOp>, t: nat): map<Key, DirtyOp> {
    map k | k in m && k.table != t :: m[k]
  }

  /** Merging back keeps the marks made since the drain. */
  function MergeBack(newer: map<Key, DirtyOp>, older: map<Key, DirtyOp>): map<Key, DirtyOp> {
    older + newer
  }

  /** What one transaction writes: deletions and missing values remove the row. */
  function Written(db: map<Key, Value>, drained: map<Key, DirtyOp>, seen: map<Key, Option<Value>>): map<Key, Value>
    requires forall k :: k in drained && drained[k].OpUpsert? ==> k in seen
  {
    map k | k in db.Keys + drained.Keys &&
            (if k !in drained then k in db else drained[k].OpUpsert? && seen[k].Some?)
         :: if k in drained then seen[k].value else db[k]
  }

  ghost predicate Enabled(s: State, step: Step) {
    match step
    case Mutate(k, v) => k.table < TABLES && k !in s.owed && (v.None? ==> k in s.mem)
    case Mark(k) => k in s.owed
    case Touch(k) => k.table < TABLES && k !in s.owed
    case StartFlush => s.phase.Resting?
    case Drain => s.phase.Draining?
    case Read(k) => s.phase.Reading? && k in s.drained && s.drained[k].OpUpsert? && k !in s.seen
    case Commit => s.phase.Reading? && forall k :: k in s.drained && s.drained[k].OpUpsert? ==> k in s.seen
    case Fail => s.phase.Reading?
    case Merge => s.phase.Merging?
  }

  function After(s: State, step: Step): State
    requires Enabled(s, step)
  {
    match step
    case Mutate(k, v) =>
      s.(mem := if v.Some? then s.mem[k := v.value] else s.mem - {k},
         owed := s.owed[k := if v.Some? then OpUpsert else OpDelete])
    case Mark(k) => s.(dirty := s.dirty[k := s.owed[k]], owed := s.owed - {k})
    case Touch(k) => s.(dirty := s.dirty[k := OpUpsert])
    case StartFlush => s.(phase := Draining(0), drained := map[], seen := map[])
    case Drain =>
      s.(drained := s.drained + OfTable(s.dirty, s.phase.next), dirty := Without(s.dirty, s.phase.next),
         phase := if s.phase.next + 1 < TABLES then Draining(s.phase.next + 1) else Reading)
    case Read(k) => s.(seen := s.seen[k := Lookup(s.mem, k)])
    case Commit => s.(db := Written(s.db, s.drained, s.seen), phase := Resting, drained := map[], seen := map[])
    case Fail => s.(phase := Merging(0), seen := map[])
    case Merge =>
      s.(dirty := MergeBack(s.dirty, OfTable(s.drained, s.phase.next)), drained := Without(s.drained, s.phase.next),
         phase := if s.phase.next + 1 < TABLES then Merging(s.phase.next + 1) else Resting)
  }

  // ------------------------------------------------------------------
  // Agreement
  // ------------------------------------------------------------------

  predicate Agrees(s: State, k: Key) {
    Lookup(s.mem, k) == Lookup(s.db, k)
  }

  /** Somebody will still write the key: it is marked, or a mark is owed. */
  predicate Remarked(s: State, k: Key) {
    k in s.dirty || k in s.owed
  }

  /** One key is safe: memory and database agree on it, or its mark is pending
      somewhere; a deletion mark stands for an absent key or is superseded; a
      value read for the flush is current or superseded. */
  predicate Safe(s: State, k: Key) {
    && (Agrees(s, k) || Remarked(s, k) || k in s.drained)
    && (k in s.owed ==> (s.owed[k].OpDelete? <==> k !in s.mem))
    && (k in s.dirty && s.dirty[k].OpDelete? ==> k !in s.mem || k in s.owed)
    && (k in s.drained && s.drained[k].OpDelete? ==> k !in s.mem || Remarked(s, k))
    && (k in s.seen ==> k in s.drained && (s.seen[k] == Lookup(s.mem, k) || Remarked(s, k)))
    && (k in s.dirty || k in s.owed || k in s.drained ==> k.table < TABLES)
  }

  /** Which tables' marks the flusher holds at each phase. */
  ghost predicate PhaseFits(s: State) {
    && (s.phase.Resting? ==> s.drained == map[] && s.seen == map[])
    && (s.phase.Draining? ==> s.phase.next < TABLES && s.seen == map[] && forall k :: k in s.drained ==> k.table < s.phase.next)
    && (s.phase.Merging? ==> s.phase.next < TABLES && s.seen == map[] && forall k :: k in s.drained ==> k.table >= s.phase.next)
  }

  ghost predicate Inv(s: State) {
    PhaseFits(s) && forall k :: Safe(s, k)
  }

  lemma CommitSafe(s: State, k: Key)
    requires PhaseFits(s) && Safe(s, k) && Enabled(s, Commit)
    ensures Safe(After(s, Commit), k)
  {
  }

  lemma DrainSafe(s: State, k: Key)
    requires PhaseFits(s) && Safe(s, k) && Enabled(s, Drain)
    ensures Safe(After(s, Drain), k)
  {
  }

  lemma MergeSafe(s: State, k: Key)
    requires PhaseFits(s) && Safe(s, k) && Enabled(s, Merge)
    ensures Safe(After(s, Merge), k)
  {
    MergeLooksUp(s.dirty, OfTable(s.drained, s.phase.next), k);
    hide MergeBack;
  }

  lemma WriterSafe(s: State, step: Step, k: Key)
    requires Safe(s, k) && Enabled(s, step) && (step.Mutate? || step.Mark? || step.Touch?)
    ensures Safe(After(s, step), k)
  {
    hide Written, OfTable, Without, MergeBack;
  }

  lemma StepSafe(s: State, step: Step, k: Key)
    requires PhaseFits(s) && Safe(s, k) && Enabled(s, step)
    ensures Safe(After(s, step), k)
  {
    if step.Commit? {
      CommitSafe(s, k);
    } else if step.Drain? {
      DrainSafe(s, k);
    } else if step.Merge? {
      MergeSafe(s, k);
    } else if step.Mutate? || step.Mark? || step.Touch? {
      WriterSafe(s, step, k);
    } else {
      hide Written, OfTable, Without, MergeBack;
    }
  }

  lemma MergeLooksUp(newer: map<Key, DirtyOp>, older: map<Key, DirtyOp>, k: Key)
    ensures k in MergeBack(newer, older) <==> k in newer || k in older
    ensures k in newer ==> MergeBack(newer, older)[k] == newer[k]
    ensures k !in newer && k in older ==> MergeBack(newer, older)[k] == older[k]
  {
  }

  lemma DrainedFits(s: State)
    requires Inv(s)
    ensures forall k :: k in s.drained ==> k.table < TABLES
  {
    forall k | k in s.drained ensures k.table < TABLES {
      assert Safe(s, k);
    }
  }

  lemma StepPhase(s: State, step: Step)
    requires PhaseFits(s) && Enabled(s, step) && forall k :: k in s.drained ==> k.table < TABLES
    ensures PhaseFits(After(s, step))
  {
    var s' := After(s, step);
    if step.Merge? && s.phase.next + 1 == TABLES {
      assert s'.drained.Keys == {};
    }
  }

  lemma StepInv(s: State, step: Step)
    requires Inv(s) && Enabled(s, step)
    ensures Inv(After(s, step))
  {
    DrainedFits(s);
    StepPhase(s, step);
    forall k ensures Safe(After(s, step), k) {
      StepSafe(s, step, k);
    }
  }

  ghost predicate ValidRun(s: State, run: seq<Step>)
    decreases |run|, 0
  {
    run == [] || (ValidRun(s, run[..|run| - 1]) && Enabled(Run(s, run[..|run| - 1]), run[|run| - 1]))
  }

  function Run(s: State, run: seq<Step>): State
    requires ValidRun(s, run)
    decreases |run|, 1
  {
    if run == [] then s else After(Run(s, run[..|run| - 1]), run[|run| - 1])
  }

  /** At start-up memory is what the database held. */
  function Loaded(db: map<Key, Value>): State {
    State(db, db, map[], map[], Resting, map[], map[])
  }

  /** Write-behind agreement: at every step of every run each key agrees, is
      marked, is in the drained snapshot or is owed a mark, and so on. */
  lemma {:induction false} AlwaysSafe(db: map<Key, Value>, run: seq<Step>)
    requires ValidRun(Loaded(db), run)
    ensures Inv(Run(Loaded(db), run))
  {
    if run != [] {
      AlwaysSafe(db, run[..|run| - 1]);
      hide After, Inv, Enabled;
      StepInv(Run(Loaded(db), run[..|run| - 1]), run[|run| - 1]);
    }
  }

  /** Nothing pending means memory and database are equal: a successful flush
      that no writer interfered with has synchronised everything. */
  lemma SettledMeansEqual(db: map<Key, Value>, run: seq<Step>)
    requires ValidRun(Loaded(db), run)
    requires var s := Run(Loaded(db), run); s.phase.Resting? && s.dirty == map[] && s.owed == map[]
    ensures Run(Loaded(db), run).mem == Run(Loaded(db), run).db
  {
    AlwaysSafe(db, run);
    SafeMeansEqual(Run(Loaded(db), run));
  }

  // ------------------------------------------------------------------
  // One flush nobody interferes with
  // ------------------------------------------------------------------

  predicate FlushStep(step: Step) {
    step.StartFlush? || step.Drain? || step.Read? || step.Fail? || step.Merge?
  }

  /** Between start and commit the marks are only split between the dirty set and
      the snapshot, table by table, and the tables themselves are untouched. */
  ghost predicate MidFlush(before: State, s: State) {
    && s.db == before.db && s.mem == before.mem && s.owed == before.owed
    && MergeBack(s.dirty, s.drained) == before.dirty
    && (s.phase.Resting? ==> s.dirty == before.dirty)
    && (s.phase.Draining? ==> forall k :: k in s.dirty ==> k.table >= s.phase.next)
    && (s.phase.Reading? ==> s.dirty == map[])
  }

  lemma DrainMidFlush(before: State, s: State)
    requires Inv(s) && s.phase.Draining? && MidFlush(before, s)
    ensures MidFlush(before, After(s, Drain))
  {
    var s' := After(s, Drain);
    MovesOver(s.dirty, s.drained, s.phase.next);
    if s'.phase.Reading? {
      forall k ensures k !in s'.dirty {
        assert Safe(s, k);
      }
      assert s'.dirty.Keys == {};
    }
  }

  /** Taking one table's marks over to the older side changes no sum. */
  lemma MovesOver(newer: map<Key, DirtyOp>, older: map<Key, DirtyOp>, t: nat)
    ensures MergeBack(Without(newer, t), older + OfTable(newer, t)) == MergeBack(newer, older)
    ensures MergeBack(MergeBack(newer, OfTable(older, t)), Without(older, t)) == MergeBack(newer, older)
  {
    var sum := older + newer;
    assert (older + OfTable(newer, t)) + Without(newer, t) == sum;
    assert Without(older, t) + (OfTable(older, t) + newer) == sum;
  }

  lemma MergeMidFlush(before: State, s: State)
    requires Inv(s) && s.phase.Merging? && MidFlush(before, s)
    ensures MidFlush(before, After(s, Merge))
  {
    var s' := After(s, Merge);
    assert MergeBack(s'.dirty, s'.drained) == before.dirty by {
      hide Inv;
      MovesOver(s.dirty, s.drained, s.phase.next);
      hide OfTable, Without, MergeBack;
    }
    assert s'.phase.Resting? ==> s'.drained == map[] by {
      DrainedFits(s);
      hide MergeBack;
      StepPhase(s, Merge);
      hide Inv, OfTable, Without;
    }
    hide Inv, OfTable, Without, PhaseFits;
    NothingOlder(s'.dirty);
    hide MergeBack;
  }

  lemma NothingOlder(m: map<Key, DirtyOp>)
    ensures MergeBack(m, map[]) == m
  {
  }

  lemma StepMidFlush(before: State, s: State, step: Step)
    requires Inv(s) && Enabled(s, step) && FlushStep(step) && MidFlush(before, s)
    ensures MidFlush(before, After(s, step))
  {
    if step.Drain? {
      DrainMidFlush(before, s);
    } else if step.Merge? {
      MergeMidFlush(before, s);
    }
  }

  lemma {:induction false} RunMidFlush(before: State, run: seq<Step>)
    requires Inv(before) && before.phase.Resting? && ValidRun(before, run)
    requires forall i :: 0 <= i < |run| ==> FlushStep(run[i])
    ensures Inv(Run(before, run)) && MidFlush(before, Run(before, run))
  {
    if run == [] {
      assert map[] + before.dirty == before.dirty;
    } else {
      var earlier := run[..|run| - 1];
      RunMidFlush(before, earlier);
      hide After, Inv, Enabled, MidFlush;
      StepInv(Run(before, earlier), run[|run| - 1]);
      StepMidFlush(before, Run(before, earlier), run[|run| - 1]);
    }
  }

  /** A failed flush loses nothing: when it has merged back, the database and the
      marks are as if it had never been tried. */
  lemma FailedFlushUndone(before: State, run: seq<Step>)
    requires Inv(before) && before.phase.Resting? && ValidRun(before, run)
    requires forall i :: 0 <= i < |run| ==> FlushStep(run[i])
    requires Run(before, run).phase.Resting?
    ensures Run(before, run).db == before.db && Run(before, run).dirty == before.dirty
  {
    RunMidFlush(before, run);
  }

  /** A successful flush that no writer interferes with makes the database equal
      to memory and leaves no mark. */
  lemma SuccessfulFlushSynchronises(before: State, run: seq<Step>)
    requires Inv(before) && before.phase.Resting? && before.owed == map[] && ValidRun(before, run)
    requires forall i :: 0 <= i < |run| ==> FlushStep(run[i])
    requires Enabled(Run(before, run), Commit)
    ensures var s := After(Run(before, run), Commit);
            s.db == s.mem == before.mem && s.dirty == map[]
  {
    RunMidFlush(before, run);
    StepInv(Run(before, run), Commit);
    hide Run, ValidRun;
    SafeMeansEqual(After(Run(before, run), Commit));
  }

  lemma SafeMeansEqual(s: State)
    requires Inv(s) && s.phase.Resting? && s.dirty == map[] && s.owed == map[]
    ensures s.mem == s.db
  {
    forall k ensures Agrees(s, k) {
      assert Safe(s, k);
    }
    AgreeMeansEqual(s);
  }

  lemma AgreeMeansEqual(s: State)
    requires forall k :: Agrees(s, k)
    ensures s.mem == s.db
  {
    forall k ensures (k in s.mem <==> k in s.db) && (k in s.mem ==> s.mem[k] == s.db[k]) {
      assert Agrees(s, k);
    }
  }

  // ------------------------------------------------------------------
  // Deletions marked ahead
  // ------------------------------------------------------------------

  /** A writer that marks the deletion first and changes memory afterwards, as a
      lease event emitted from inside the table update does. */
  function LateDelete(s: State, k: Key): State {
    s.(mem := s.mem - {k})
  }

  /** No writer owes the key a mark; nothing was read of it that was not drained. */
  predicate Unowed(s: State, k: Key) {
    k.table < TABLES && k !in s.owed && (k in s.seen ==> k in s.drained)
  }

  /** A late deletion is safe exactly when a mark is waiting, or drained and no
      value read for it, or there is no row. */
  lemma DeleteMarkFirstSafeIff(s: State, k: Key)
    requires Unowed(s, k)
    ensures Safe(LateDelete(s, k), k) <==>
              || k in s.dirty
              || (k in s.drained && (k !in s.seen || s.seen[k].None?))
              || (k !in s.drained && k !in s.db)
  {
  }

  predicate Writes(step: Step, k: Key) {
    (step.Mutate? || step.Mark? || step.Touch?) && step.key == k
  }

  /** The key was marked deleted ahead of its deletion: the mark is waiting, or is
      drained, or has removed the row. */
  predicate GoingAway(s: State, k: Key) {
    && Unowed(s, k)
    && (|| (k in s.dirty && s.dirty[k].OpDelete?)
        || (k !in s.dirty && k !in s.seen && k in s.drained && s.drained[k].OpDelete?)
        || (k !in s.dirty && k !in s.drained && k !in s.db))
  }

  ghost predicate InvBut(s: State, k: Key) {
    PhaseFits(s) && GoingAway(s, k) && (forall j :: j != k ==> Safe(s, j))
  }

  lemma StepGoingAway(s: State, step: Step, k: Key)
    requires InvBut(s, k) && Enabled(s, step) && !Writes(step, k)
    ensures InvBut(After(s, step), k)
  {
    forall j | j in s.drained ensures j.table < TABLES {
      assert j != k ==> Safe(s, j);
    }
    StepPhase(s, step);
    forall j | j != k ensures Safe(After(s, step), j) {
      StepSafe(s, step, j);
    }
    if step.Merge? {
      MergeLooksUp(s.dirty, OfTable(s.drained, s.phase.next), k);
    }
    hide MergeBack, Safe;
  }

  lemma {:induction false} RunGoingAway(s: State, run: seq<Step>, k: Key)
    requires InvBut(s, k) && ValidRun(s, run) && forall i :: 0 <= i < |run| ==> !Writes(run[i], k)
    ensures InvBut(Run(s, run), k)
    decreases |run|
  {
    if run != [] {
      RunGoingAway(s, run[..|run| - 1], k);
      hide After, InvBut, Enabled;
      StepGoingAway(Run(s, run[..|run| - 1]), run[|run| - 1], k);
    }
  }

  /** Marking a deletion ahead of it loses nothing: whatever is flushed, or fails to
      be, in between, once the key is gone from memory everything is safe. */
  lemma LateDeletionSafe(s: State, run: seq<Step>, k: Key)
    requires Inv(s) && Unowed(s, k)
    requires var marked := s.(dirty := s.dirty[k := OpDelete]);
             ValidRun(marked, run) && forall i :: 0 <= i < |run| ==> !Writes(run[i], k)
    ensures Inv(LateDelete(Run(s.(dirty := s.dirty[k := OpDelete]), run), k))
  {
    hide Run, ValidRun;
    var marked := s.(dirty := s.dirty[k := OpDelete]);
    forall j | j != k ensures Safe(marked, j) {
      assert Safe(s, j);
    }
    RunGoingAway(marked, run, k);
    hide InvBut, Inv;
    GoneIsSafe(Run(marked, run), k);
  }

  lemma GoneIsSafe(s: State, k: Key)
    requires InvBut(s, k)
    ensures Inv(LateDelete(s, k))
  {
    DeleteMarkFirstSafeIff(s, k);
    forall j ensures Safe(LateDelete(s, k), j) {
      assert j != k ==> Safe(s, j);
    }
  }
}
