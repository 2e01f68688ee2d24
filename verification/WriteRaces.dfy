/** Write-behind persistence without its discipline: any number of writers change
    keys and mark them in any order, one step at a time.  When exactly memory and
    database part, and for how long. */
module WriteRaces {
  import opened Types
  import opened WriteBehind

  /** A change leaves marking to a step of its own, and a mark does not look at
      memory. */
  datatype Action = Change(key: Key, value: Option<Value>) | MarkAs(key: Key, op: DirtyOp) | Flush(step: Step)

  ghost predicate CanAct(s: State, a: Action) {
    match a
    case Change(k, _) => k.table < TABLES
    case MarkAs(k, _) => k.table < TABLES
    case Flush(step) => (FlushStep(step) || step.Commit?) && Enabled(s, step)
  }

  function Acted(s: State, a: Action): State
    requires CanAct(s, a)
  {
    match a
    case Change(k, v) => s.(mem := if v.Some? then s.mem[k := v.value] else s.mem - {k})
    case MarkAs(k, op) => s.(dirty := s.dirty[k := op])
    case Flush(step) => After(s, step)
  }

  ghost predicate ValidTrace(db: map<Key, Value>, trace: seq<Action>)
    decreases |trace|, 0
  {
    trace == [] || (ValidTrace(db, trace[..|trace| - 1]) && CanAct(Trace(db, trace[..|trace| - 1]), trace[|trace| - 1]))
  }

  function Trace(db: map<Key, Value>, trace: seq<Action>): State
    requires ValidTrace(db, trace)
    decreases |trace|, 1
  {
    if trace == [] then Loaded(db) else Acted(Trace(db, trace[..|trace| - 1]), trace[|trace| - 1])
  }

  // ------------------------------------------------------------------
  // Astray
  // ------------------------------------------------------------------

  predicate Marked(s: State, k: Key) {
    k in s.dirty || k in s.drained
  }

  /** Memory and database differ, and nobody is going to write the key. */
  predicate Astray(s: State, k: Key) {
    !Marked(s, k) && !Agrees(s, k)
  }

  ghost predicate Fits(s: State) {
    && PhaseFits(s)
    && (forall k :: k in s.dirty || k in s.drained ==> k.table < TABLES)
    && (forall k :: k in s.seen ==> k in s.drained)
  }

  /** What the transaction is about to write for a drained key. */
  function Writing(s: State, k: Key): Option<Value> {
    if k in s.drained && s.drained[k].OpUpsert? && k in s.seen then s.seen[k] else None
  }

  /** An unmarked key is moved away from its row, or the transaction writes a value
      memory no longer has and no newer mark is waiting. */
  predicate Strikes(s: State, a: Action, k: Key) {
    || (a.Change? && a.key == k && !Marked(s, k) && a.value != Lookup(s.db, k))
    || (a == Flush(Commit) && k in s.drained && k !in s.dirty && Writing(s, k) != Lookup(s.mem, k))
  }

  /** The key is changed, marked or written again. */
  predicate Renews(s: State, a: Action, k: Key) {
    ((a.Change? || a.MarkAs?) && a.key == k) || (a == Flush(Commit) && k in s.drained)
  }

  /** The key was struck, and neither changed, marked nor written since. */
  predicate Struck(db: map<Key, Value>, trace: seq<Action>, k: Key)
    requires ValidTrace(db, trace)
    decreases |trace|
  {
    trace != [] &&
    var before, a := trace[..|trace| - 1], trace[|trace| - 1];
    var s := Trace(db, before);
    Strikes(s, a, k) || (Struck(db, before, k) && !Renews(s, a, k))
  }

  ghost predicate NothingStruck(db: map<Key, Value>, trace: seq<Action>)
    requires ValidTrace(db, trace)
  {
    forall k :: !Struck(db, trace, k)
  }

  lemma WriterAstray(s: State, a: Action, k: Key)
    requires Fits(s) && CanAct(s, a) && !a.Flush?
    ensures Fits(Acted(s, a))
    ensures Astray(Acted(s, a), k) <==> Strikes(s, a, k) || (Astray(s, k) && !Renews(s, a, k))
  {
  }

  lemma FlushFits(s: State, step: Step)
    requires Fits(s) && (FlushStep(step) || step.Commit?) && Enabled(s, step)
    ensures Fits(After(s, step))
  {
    StepPhase(s, step);
    hide PhaseFits;
  }

  lemma FlushAstray(s: State, step: Step, k: Key)
    requires Fits(s) && FlushStep(step) && Enabled(s, step)
    ensures Astray(After(s, step), k) <==> Astray(s, k)
  {
    if step.Merge? {
      MergeLooksUp(s.dirty, OfTable(s.drained, s.phase.next), k);
    }
    hide MergeBack;
  }

  lemma CommitAstray(s: State, k: Key)
    requires Fits(s) && Enabled(s, Commit)
    ensures Astray(After(s, Commit), k) <==> Strikes(s, Flush(Commit), k) || (Astray(s, k) && k !in s.drained)
  {
  }

  lemma StepAstray(s: State, a: Action, k: Key)
    requires Fits(s) && CanAct(s, a)
    ensures Fits(Acted(s, a))
    ensures Astray(Acted(s, a), k) <==> Strikes(s, a, k) || (Astray(s, k) && !Renews(s, a, k))
  {
    if !a.Flush? {
      WriterAstray(s, a, k);
    } else {
      FlushFits(s, a.step);
      if a.step.Commit? {
        CommitAstray(s, k);
      } else {
        FlushAstray(s, a.step, k);
      }
      hide Fits, Astray, After, Enabled;
    }
  }

  /** In every interleaving of any writers and the flusher: an unmarked key differs
      between memory and database if and only if it was struck and not renewed
      since. */
  lemma {:induction false} AstrayIff(db: map<Key, Value>, trace: seq<Action>, k: Key)
    requires ValidTrace(db, trace)
    ensures Fits(Trace(db, trace))
    ensures Astray(Trace(db, trace), k) <==> Struck(db, trace, k)
  {
    if trace != [] {
      AstrayIff(db, trace[..|trace| - 1], k);
      hide Acted, Fits, CanAct, Astray, Strikes, Renews;
      StepAstray(Trace(db, trace[..|trace| - 1]), trace[|trace| - 1], k);
    }
  }

  /** So with nothing left to flush an update is lost if and only if some key was
      struck and not renewed since. */
  lemma NothingLostIff(db: map<Key, Value>, trace: seq<Action>)
    requires ValidTrace(db, trace) && Trace(db, trace).phase.Resting? && Trace(db, trace).dirty == map[]
    ensures Trace(db, trace).mem == Trace(db, trace).db <==> NothingStruck(db, trace)
  {
    hide Struck, Trace, ValidTrace;
    var s := Trace(db, trace);
    forall k ensures Struck(db, trace, k) <==> !Agrees(s, k) {
      AstrayIff(db, trace, k);
    }
    if NothingStruck(db, trace) {
      forall k ensures Agrees(s, k) {
        assert !Struck(db, trace, k);
      }
      AgreeMeansEqual(s);
    } else {
      var k :| Struck(db, trace, k);
      assert Lookup(s.mem, k) != Lookup(s.db, k);
    }
  }

  // ------------------------------------------------------------------
  // Two runs that lose an update
  // ------------------------------------------------------------------

  lemma Extend(db: map<Key, Value>, trace: seq<Action>, s: State, a: Action) returns (trace': seq<Action>, s': State)
    requires ValidTrace(db, trace) && Trace(db, trace) == s && CanAct(s, a)
    ensures s' == Acted(s, a) && ValidTrace(db, trace') && Trace(db, trace') == s'
  {
    trace', s' := trace + [a], Acted(s, a);
    assert trace'[..|trace'| - 1] == trace;
  }

  /** A flush with a single mark, n tables drained. */
  function Halfway(s: State, k: Key, op: DirtyOp, n: nat): State {
    s.(dirty := if k.table < n then map[] else map[k := op],
       drained := if k.table < n then map[k := op] else map[],
       seen := map[],
       phase := if n < TABLES then Draining(n) else Reading)
  }

  lemma DrainHalfway(s: State, k: Key, op: DirtyOp, n: nat)
    requires n < TABLES
    ensures Enabled(Halfway(s, k, op, n), Drain) && After(Halfway(s, k, op, n), Drain) == Halfway(s, k, op, n + 1)
  {
    var m := map[k := op];
    assert OfTable(m, n) == if k.table == n then m else map[];
    assert Without(m, n) == if k.table == n then map[] else m;
    assert OfTable(map[], n) == map[] && Without(map[], n) == map[];
    assert map[] + m == m && m + map[] == m;
  }

  /** A whole flush of a single mark that nobody interferes with. */
  lemma FlushOne(db: map<Key, Value>, trace: seq<Action>, s: State, k: Key, op: DirtyOp) returns (trace': seq<Action>, s': State)
    requires ValidTrace(db, trace) && Trace(db, trace) == s
    requires s.phase.Resting? && s.dirty == map[k := op] && s.drained == map[] && s.seen == map[] && k.table < TABLES
    ensures ValidTrace(db, trace') && Trace(db, trace') == s'
    ensures s' == s.(dirty := map[], db := if op.OpUpsert? && k in s.mem then s.db[k := s.mem[k]] else s.db - {k})
  {
    hide Trace, ValidTrace;
    trace', s' := Extend(db, trace, s, Flush(StartFlush));
    var n := 0;
    assert s' == Halfway(s, k, op, n);
    while n < TABLES
      invariant n <= TABLES && ValidTrace(db, trace') && Trace(db, trace') == s'
      invariant s' == Halfway(s, k, op, n)
    {
      hide Halfway, After, Enabled;
      DrainHalfway(s, k, op, n);
      trace', s' := Extend(db, trace', s', Flush(Drain));
      n := n + 1;
    }
    trace', s' := CommitOne(db, trace', s', s, k, op);
  }

  lemma CommitOne(db: map<Key, Value>, trace: seq<Action>, m: State, s: State, k: Key, op: DirtyOp) returns (trace': seq<Action>, s': State)
    requires ValidTrace(db, trace) && Trace(db, trace) == m && m == Halfway(s, k, op, TABLES) && k.table < TABLES
    requires s.phase.Resting? && s.drained == map[] && s.seen == map[]
    ensures ValidTrace(db, trace') && Trace(db, trace') == s'
    ensures s' == s.(dirty := map[], db := if op.OpUpsert? && k in s.mem then s.db[k := s.mem[k]] else s.db - {k})
  {
    hide Trace, ValidTrace;
    WrittenOne(s.db, k, op, if op.OpUpsert? then map[k := Lookup(s.mem, k)] else map[]);
    trace', s' := trace, m;
    hide Written;
    if op.OpUpsert? {
      trace', s' := Extend(db, trace, m, Flush(Read(k)));
      assert s'.seen == map[k := Lookup(s.mem, k)];
    }
    trace', s' := Extend(db, trace', s', Flush(Commit));
  }

  lemma WrittenOne(db: map<Key, Value>, k: Key, op: DirtyOp, seen: map<Key, Option<Value>>)
    requires op.OpUpsert? ==> k in seen
    ensures Written(db, map[k := op], seen) == if op.OpUpsert? && seen[k].Some? then db[k := seen[k].value] else db - {k}
  {
  }

  /** Marked, flushed, then changed, as a lease event emitted from inside the table
      update allows: the new lease never reaches the database. */
  lemma MarkFirstLosesUpdate(k: Key, v: Value) returns (trace: seq<Action>)
    requires k.table < TABLES
    ensures ValidTrace(map[], trace)
    ensures var s := Trace(map[], trace); s.phase.Resting? && s.dirty == map[] && s.mem == map[k := v] && s.db == map[]
  {
    hide Trace, ValidTrace;
    var s := Loaded(map[]);
    Nothing(map[]);
    trace, s := Extend(map[], [], s, MarkAs(k, OpUpsert));
    trace, s := FlushOne(map[], trace, s, k, OpUpsert);
    trace, s := Extend(map[], trace, s, Change(k, Some(v)));
  }

  /** A deletion's mark comes after the next writer's: the lease is removed, another
      request creates it anew and marks it, and only then is it marked deleted - its
      row goes, although it is there. */
  lemma LateDeleteMarkLosesUpdate(k: Key, v: Value, w: Value) returns (trace: seq<Action>)
    requires k.table < TABLES
    ensures ValidTrace(map[k := v], trace)
    ensures var s := Trace(map[k := v], trace); s.phase.Resting? && s.dirty == map[] && s.mem == map[k := w] && s.db == map[]
  {
    hide Trace, ValidTrace;
    var db := map[k := v];
    var s := Loaded(db);
    Nothing(db);
    trace, s := Extend(db, [], s, Change(k, None));
    trace, s := Extend(db, trace, s, MarkAs(k, OpUpsert));
    trace, s := Extend(db, trace, s, Change(k, Some(w)));
    trace, s := Extend(db, trace, s, MarkAs(k, OpDelete));
    assert s.dirty == map[k := OpDelete] && s.mem == map[k := w];
    trace, s := FlushOne(db, trace, s, k, OpDelete);
    assert s.db == map[];
  }

  lemma Nothing(db: map<Key, Value>)
    ensures ValidTrace(db, []) && Trace(db, []) == Loaded(db)
  {
  }
}
