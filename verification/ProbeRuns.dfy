/** Whole runs of the probe task protocol: what every interleaving keeps, and when
    exactly a request is lost. */
module ProbeRuns {
  import opened Types
  import opened ProbeProtocol

  datatype Action = Act(t: Tid, ch: Choice) | StopAll

  const START := State(map[], map[], map[], [], [], false, map[], {}, {})

  ghost predicate CanDo(s: State, a: Action) {
    Located(s) && (a.Act? ==> Enabled(s, a.t, a.ch))
  }

  function Do(c: Caps, s: State, a: Action): State
    requires CanDo(s, a)
  {
    match a
    case Act(t, ch) => After(c, s, t, ch)
    case StopAll => Stop(s)
  }

  ghost predicate ValidRun(c: Caps, s: State, run: seq<Action>)
    decreases |run|, 0
  {
    run == [] ||
    (ValidRun(c, s, run[..|run| - 1]) && CanDo(Run(c, s, run[..|run| - 1]), run[|run| - 1]))
  }

  function Run(c: Caps, s: State, run: seq<Action>): State
    requires ValidRun(c, s, run)
    decreases |run|, 1
  {
    if run == [] then s else Do(c, Run(c, s, run[..|run| - 1]), run[|run| - 1])
  }

  // ------------------------------------------------------------------
  // Every interleaving, refusals and stopping included
  // ------------------------------------------------------------------

  lemma DoInv(c: Caps, s: State, a: Action)
    requires Inv(s) && CanDo(s, a)
    ensures Inv(Do(c, s, a))
  {
    hide Located, AllFit, SingleOwner, NoLeak, Shape, After;
    match a
    case Act(t, ch) =>
      var s' := After(c, s, t, ch);
      StepShape(c, s, t, ch);
      StepLocated(s, s', t, ch);
      StepFit(s, s', t, ch);
      StepOwner(s, s', t, ch);
      StepNoLeak(s, s', t, ch);
    case StopAll =>
      StopInv(s);
  }

  lemma StopInv(s: State)
    requires Inv(s)
    ensures Inv(Stop(s))
  {
    var s' := Stop(s);
    forall t ensures PcOf(s', t) == PcOf(s, t) {
    }
    forall o, t ensures Owned(s', o, t) == Owned(s, o, t) {
    }
    forall o | o in s'.flags && Mapped(s', o) && s'.flags[o] == IDLE_FLAGS ensures exists t :: Due(PcOf(s', t), o) {
      assert Mapped(s, o);
      var t :| Due(PcOf(s, t), o);
      assert Due(PcOf(s', t), o);
    }
    forall o | o in s'.flags && s'.flags[o].running ensures exists t :: Owned(s', o, t) {
      var t :| Owned(s, o, t);
      assert Owned(s', o, t);
    }
  }

  /** In every interleaving of enqueuers and workers: no object is queued and
      running at once, the high bits follow their low ones, a dirty object is
      queued or running, every running object has exactly one owning worker, and
      an idle object is in the map only while a thread is still due to it. */
  lemma {:induction false} EveryInterleaving(c: Caps, run: seq<Action>)
    requires ValidRun(c, START, run)
    ensures Inv(Run(c, START, run))
  {
    if run != [] {
      EveryInterleaving(c, run[..|run| - 1]);
      hide Inv, Do;
      DoInv(c, Run(c, START, run[..|run| - 1]), run[|run| - 1]);
    }
  }

  // ------------------------------------------------------------------
  // Requests and tokens, when no queue refuses
  // ------------------------------------------------------------------

  predicate Refused(c: Caps, s: State, a: Action) {
    a.StopAll? ||
    (PcOf(s, a.t).EnqPush? && Refuses(c, s, PcOf(s, a.t).prio)) ||
    (PcOf(s, a.t).UpgradePush? && Refuses(c, s, High)) ||
    (PcOf(s, a.t).FinishPush? && Refuses(c, s, PcOf(s, a.t).prio))
  }

  predicate Accepted(c: Caps, s: State, run: seq<Action>)
    requires ValidRun(c, s, run)
    decreases |run|
  {
    run == [] || (Accepted(c, s, run[..|run| - 1]) && !Refused(c, Run(c, s, run[..|run| - 1]), run[|run| - 1]))
  }

  predicate InQueue(s: State, k: Key) {
    k in s.high || k in s.normal
  }

  /** The thread holds the token, or is about to push one, that will serve the object. */
  predicate Carries(pc: Pc, k: Key, o: Obj) {
    pc == MarkLookup(k) || ((pc.MarkLoad? || pc.MarkCas? || pc.EnqPush? || pc.FinishPush?) && pc.obj == o)
  }

  ghost predicate Backed(s: State)
    requires Located(s)
  {
    forall o :: o in s.flags && Mapped(s, o) && s.flags[o].queued ==>
      InQueue(s, s.keyOf[o]) || exists t :: Carries(PcOf(s, t), s.keyOf[o], o)
  }

  predicate Represented(s: State, o: Obj) {
    o in s.flags && (s.flags[o].queued || (s.flags[o].running && s.flags[o].dirty))
  }

  /** A request recorded since the last start is queued, or marks a run dirty. */
  ghost predicate Remembered(s: State)
    requires Located(s)
  {
    && (forall o :: o in s.pending ==> Represented(s, o))
    && (forall k :: k in s.wanted ==> exists o :: o in s.pending && o in s.keyOf && s.keyOf[o] == k)
    && (forall t :: !PcOf(s, t).ClearLoad? && !PcOf(s, t).ClearCas?)
    && !s.stopped
  }

  /** How a step that is not refused moves tokens. */
  ghost predicate TokensMove(s: State, s': State, t: Tid) {
    var pc, pc' := PcOf(s, t), PcOf(s', t);
    && s'.stopped == s.stopped
    && (forall k :: InQueue(s, k) ==> InQueue(s', k) || pc' == MarkLookup(k))
    && (pc.EnqPush? || pc.FinishPush? ==> InQueue(s', pc.key))
    && !pc'.ClearLoad? && (pc'.ClearCas? ==> pc.ClearLoad?)
  }

  lemma PushTokens(c: Caps, s: State, t: Tid, key: Key, prio: Priority, taken: Pc, refused: Pc)
    requires !Refuses(c, s, prio)
    ensures var s' := Push(c, s, t, key, prio, taken, refused);
            && InQueue(s', key) && (forall k :: InQueue(s, k) ==> InQueue(s', k))
            && PcOf(s', t) == taken && s'.stopped == s.stopped
  {
    var s' := Push(c, s, t, key, prio, taken, refused);
    var grown := if prio.High? then s'.high else s'.normal;
    assert grown[|grown| - 1] == key;
  }

  lemma PopTokens(s: State, t: Tid, ch: Choice)
    requires Enabled(s, t, ch) && PcOf(s, t).Idle?
    ensures TokensMove(s, AfterIdle(s, t, ch), t)
  {
    if ch.PopHigh? {
      assert s.high == [s.high[0]] + s.high[1..];
    } else if ch.PopNormal? {
      assert s.normal == [s.normal[0]] + s.normal[1..];
    }
  }

  lemma StepTokens(c: Caps, s: State, t: Tid, ch: Choice)
    requires Located(s) && Enabled(s, t, ch) && !Refused(c, s, Act(t, ch))
    requires !PcOf(s, t).ClearLoad? && !PcOf(s, t).ClearCas?
    ensures TokensMove(s, After(c, s, t, ch), t)
  {
    var pc := PcOf(s, t);
    if pc.Idle? {
      PopTokens(s, t, ch);
    } else if pc.EnqPush? {
      PushTokens(c, s, t, pc.key, pc.prio, Idle, ClearLoad(pc.key, pc.obj));
    } else if pc.UpgradePush? {
      PushTokens(c, s, t, pc.key, High, Idle, RevertLoad(pc.key, pc.obj, pc.prio));
    } else if pc.FinishPush? {
      PushTokens(c, s, t, pc.key, pc.prio, DeleteCheck(pc.key, pc.obj), ClearLoad(pc.key, pc.obj));
    } else {
      QuietTokens(c, s, t, ch);
    }
  }

  lemma QuietQueues(c: Caps, s: State, t: Tid, ch: Choice)
    requires Located(s) && Enabled(s, t, ch)
    requires !PcOf(s, t).Idle? && !Pushes(PcOf(s, t))
    ensures var s' := After(c, s, t, ch); s'.high == s.high && s'.normal == s.normal && s'.stopped == s.stopped
  {
    hide Push, AfterIdle, Mapped, Mark, Queue, Start, Finish, Drop;
    assert HasObj(PcOf(s, t)) ==> PcOf(s, t).obj in s.flags;
    if Swaps(PcOf(s, t)) {
      hide Located, AfterLookup;
    } else {
      hide Located, AfterEnqCas, AfterMarkCas, Cas;
    }
  }

  lemma QuietTokens(c: Caps, s: State, t: Tid, ch: Choice)
    requires Located(s) && Enabled(s, t, ch)
    requires !PcOf(s, t).Idle? && !PcOf(s, t).EnqPush? && !PcOf(s, t).UpgradePush? && !PcOf(s, t).FinishPush?
    requires !PcOf(s, t).ClearCas?
    ensures TokensMove(s, After(c, s, t, ch), t)
  {
    QuietQueues(c, s, t, ch);
    StepShape(c, s, t, ch);
    hide After, Located, Enabled, Mapped, OnlyMoves, Swapped, SameObjects;
  }

  /** A mapped object queued now was so before, or the thread carries its token. */
  lemma QueuedBefore(s: State, s': State, t: Tid, ch: Choice, o: Obj)
    requires Located(s) && AllFit(s) && Shape(s, s', t, ch)
    requires o in s'.flags && o in s'.keyOf && Mapped(s', o) && s'.flags[o].queued && !Carries(PcOf(s', t), s'.keyOf[o], o)
    ensures o in s.flags && Mapped(s, o) && s.keyOf[o] == s'.keyOf[o] && s.flags[o].queued
  {
    var pc := PcOf(s, t);
    assert HasObj(pc) ==> pc.obj in s.flags && FlagsFit(s.flags[pc.obj]);
    hide Located, AllFit, OnlyMoves, FlagsFit;
    if Swaps(pc) {
    } else {
      hide Swapped, Quiet;
    }
  }

  /** A token leaves the thread's hand for a queue, with its run, or as there is
      nothing left to run. */
  lemma TokenGoes(s: State, s': State, t: Tid, ch: Choice, o: Obj)
    requires Located(s) && Shape(s, s', t, ch) && TokensMove(s, s', t)
    requires o in s.flags && Mapped(s, o) && s.flags[o].queued
    requires o in s'.flags && Mapped(s', o) && s'.flags[o].queued && s'.keyOf[o] == s.keyOf[o]
    requires Carries(PcOf(s, t), s.keyOf[o], o)
    ensures InQueue(s', s.keyOf[o]) || Carries(PcOf(s', t), s.keyOf[o], o)
  {
    var pc := PcOf(s, t);
    assert HasObj(pc) ==> pc.obj in s.flags && s.keyOf[pc.obj] == pc.key;
    hide Located, OnlyMoves, InQueue;
  }

  lemma StepBacked(s: State, s': State, t: Tid, ch: Choice)
    requires Located(s) && Located(s') && AllFit(s) && Backed(s) && Shape(s, s', t, ch) && TokensMove(s, s', t)
    ensures Backed(s')
  {
    forall o | o in s'.flags && Mapped(s', o) && s'.flags[o].queued
      ensures InQueue(s', s'.keyOf[o]) || exists u :: Carries(PcOf(s', u), s'.keyOf[o], o)
    {
      var k := s'.keyOf[o];
      if !Carries(PcOf(s', t), k, o) && !InQueue(s', k) {
        QueuedBefore(s, s', t, ch, o);
        BackedStays(s, s', t, ch, o);
      }
    }
  }

  lemma BackedStays(s: State, s': State, t: Tid, ch: Choice, o: Obj)
    requires Located(s) && Backed(s) && Shape(s, s', t, ch) && TokensMove(s, s', t)
    requires o in s.flags && Mapped(s, o) && s.flags[o].queued
    requires o in s'.flags && Mapped(s', o) && s'.flags[o].queued && s'.keyOf[o] == s.keyOf[o]
    ensures InQueue(s', s.keyOf[o]) || exists u :: Carries(PcOf(s', u), s.keyOf[o], o)
  {
    hide Shape, Carries, InQueue;
    var k := s.keyOf[o];
    if InQueue(s, k) {
      if !InQueue(s', k) {
        MarkingCarries(k, o);
        assert Carries(PcOf(s', t), k, o);
      }
    } else {
      var u :| Carries(PcOf(s, u), k, o);
      if u == t {
        TokenGoes(s, s', t, ch, o);
      } else {
        ShapeMoves(s, s', t, ch, u);
      }
    }
  }

  lemma MarkingCarries(k: Key, o: Obj)
    ensures Carries(MarkLookup(k), k, o)
  {
  }

  lemma ShapeMoves(s: State, s': State, t: Tid, ch: Choice, u: Tid)
    requires Located(s) && Shape(s, s', t, ch) && u != t
    ensures PcOf(s', u) == PcOf(s, u)
  {
    hide Swapped, SameObjects, Quiet, PcOf;
  }

  /** How a step changes what is outstanding. */
  predicate Notes(s: State, s': State, t: Tid)
    requires HasObj(PcOf(s, t)) ==> PcOf(s, t).obj in s.flags
  {
    var pc := PcOf(s, t);
    if pc.EnqCas? && s.flags[pc.obj] == pc.seen then
      s'.pending == s.pending + {pc.obj} && s'.wanted == s.wanted + {pc.key}
    else if pc.MarkCas? && s.flags[pc.obj] == pc.seen then
      s'.pending == s.pending - {pc.obj} && s'.wanted == s.wanted - {pc.key}
    else
      s'.pending == s.pending && s'.wanted == s.wanted
  }

  lemma StepNotes(c: Caps, s: State, t: Tid, ch: Choice)
    requires Located(s) && Enabled(s, t, ch)
    ensures HasObj(PcOf(s, t)) ==> PcOf(s, t).obj in s.flags
    ensures Notes(s, After(c, s, t, ch), t)
  {
    var pc := PcOf(s, t);
    assert HasObj(pc) ==> pc.obj in s.flags;
    hide Located, Mapped, Mark, Queue, Start, Finish, Drop, Refuses, PcOf;
    if pc.EnqCas? {
      EnqCasNotes(c, s, t, ch);
      hide After;
    } else if Swaps(pc) {
      hide AfterIdle, AfterLookup, AfterEnqCas, Push;
    } else {
      hide AfterEnqCas, AfterMarkCas, Cas;
    }
  }

  lemma EnqCasNotes(c: Caps, s: State, t: Tid, ch: Choice)
    requires Located(s) && Enabled(s, t, ch) && PcOf(s, t).EnqCas?
    requires PcOf(s, t).obj in s.flags
    ensures Notes(s, After(c, s, t, ch), t)
  {
    hide Located, Mapped, Mark, Queue, Start, Finish, Drop, Refuses, AfterIdle, AfterLookup, AfterMarkCas, Push, PcOf;
  }

  lemma StepPending(s: State, s': State, t: Tid, ch: Choice, o: Obj)
    requires Located(s) && AllFit(s) && Shape(s, s', t, ch)
    requires !PcOf(s, t).ClearLoad? && !PcOf(s, t).ClearCas?
    requires HasObj(PcOf(s, t)) ==> PcOf(s, t).obj in s.flags
    requires Notes(s, s', t) && o in s'.pending && (o in s.pending ==> Represented(s, o))
    ensures Represented(s', o)
  {
    var pc := PcOf(s, t);
    assert HasObj(pc) ==> FlagsFit(s.flags[pc.obj]);
    hide Located, AllFit, OnlyMoves, Mapped;
    if !Swaps(pc) {
      hide Swapped, Quiet;
    }
  }

  lemma StepWanted(s: State, s': State, t: Tid, ch: Choice, k: Key)
    requires Located(s) && Located(s') && Remembered(s) && Shape(s, s', t, ch)
    requires HasObj(PcOf(s, t)) ==> PcOf(s, t).obj in s.flags
    requires Notes(s, s', t) && k in s'.wanted
    ensures exists o :: o in s'.pending && o in s'.keyOf && s'.keyOf[o] == k
  {
    var pc := PcOf(s, t);
    KeysStay(s, s', t, ch);
    hide Shape;
    if pc.EnqCas? && s.flags[pc.obj] == pc.seen && pc.key == k {
      assert pc.obj in s'.pending && pc.obj in s'.keyOf;
    } else {
      var o :| o in s.pending && o in s.keyOf && s.keyOf[o] == k;
      assert o in s'.pending && o in s'.keyOf && s'.keyOf[o] == k;
    }
  }

  lemma KeysStay(s: State, s': State, t: Tid, ch: Choice)
    requires Located(s) && Shape(s, s', t, ch)
    ensures forall o :: o in s.keyOf ==> o in s'.keyOf && s'.keyOf[o] == s.keyOf[o]
  {
    hide Quiet, OnlyMoves, Mapped;
  }

  lemma StepRemembered(s: State, s': State, t: Tid, ch: Choice)
    requires Located(s) && Located(s') && AllFit(s) && Remembered(s) && Shape(s, s', t, ch) && TokensMove(s, s', t)
    requires HasObj(PcOf(s, t)) ==> PcOf(s, t).obj in s.flags
    requires Notes(s, s', t)
    ensures Remembered(s')
  {
    hide AllFit, Notes, Shape, Represented;
    forall o | o in s'.pending ensures Represented(s', o) {
      StepPending(s, s', t, ch, o);
    }
    forall k | k in s'.wanted ensures exists o :: o in s'.pending && o in s'.keyOf && s'.keyOf[o] == k {
      StepWanted(s, s', t, ch, k);
    }
    forall u ensures !PcOf(s', u).ClearLoad? && !PcOf(s', u).ClearCas? {
      if u != t {
        ShapeMoves(s, s', t, ch, u);
      }
    }
  }

  ghost predicate Kept(s: State) {
    Inv(s) && Backed(s) && Remembered(s)
  }

  lemma DoKept(c: Caps, s: State, a: Action)
    requires Kept(s) && CanDo(s, a) && !Refused(c, s, a)
    ensures Kept(Do(c, s, a))
  {
    var s' := Do(c, s, a);
    DoInv(c, s, a);
    StepShape(c, s, a.t, a.ch);
    assert !PcOf(s, a.t).ClearLoad? && !PcOf(s, a.t).ClearCas?;
    StepTokens(c, s, a.t, a.ch);
    StepNotes(c, s, a.t, a.ch);
    hide Located, AllFit, SingleOwner, NoLeak, Shape, After, Backed, Remembered, TokensMove, Notes;
    StepBacked(s, s', a.t, a.ch);
    StepRemembered(s, s', a.t, a.ch);
  }

  lemma {:induction false} RunKept(c: Caps, run: seq<Action>)
    requires ValidRun(c, START, run) && Accepted(c, START, run)
    ensures Kept(Run(c, START, run))
  {
    if run != [] {
      RunKept(c, run[..|run| - 1]);
      hide Kept, Do, Refused;
      DoKept(c, Run(c, START, run[..|run| - 1]), run[|run| - 1]);
    }
  }

  // ------------------------------------------------------------------
  // Everything idle
  // ------------------------------------------------------------------

  ghost predicate Quiescent(s: State) {
    s.high == [] && s.normal == [] && forall t :: PcOf(s, t).Idle?
  }

  lemma RestsEmpty(s: State)
    requires Kept(s) && Quiescent(s)
    ensures s.table == map[]
  {
    forall o | o in s.flags ensures !Mapped(s, o) {
      if s.flags[o].running {
        var t :| Owned(s, o, t);
        assert false;
      }
      assert FlagsFit(s.flags[o]);
    }
    forall k | k in s.table ensures false {
      assert Mapped(s, s.table[k]);
    }
    assert s.table.Keys == {};
  }

  // ------------------------------------------------------------------
  // When exactly a request is lost
  // ------------------------------------------------------------------

  /** The two racy steps: recording a request of the key on an object that already
      left the map, and deleting the key's object, with a request outstanding,
      after its flags changed since they were checked. */
  predicate Races(s: State, a: Action, k: Key)
    requires CanDo(s, a)
  {
    a.Act? &&
    var pc := PcOf(s, a.t);
    || (pc.EnqCas? && pc.key == k && s.flags[pc.obj] == pc.seen && !Mapped(s, pc.obj))
    || (pc.DeleteCommit? && pc.key == k && Mapped(s, pc.obj) && s.flags[pc.obj] != IDLE_FLAGS && k in s.wanted)
  }

  /** A worker wins the swap that starts a run of the key. */
  predicate Starts(s: State, a: Action, k: Key)
    requires CanDo(s, a)
  {
    a.Act? && var pc := PcOf(s, a.t); pc.MarkCas? && pc.key == k && s.flags[pc.obj] == pc.seen
  }

  /** The key raced, and no run of it has started since. */
  predicate Stranded(c: Caps, run: seq<Action>, k: Key)
    requires ValidRun(c, START, run)
    decreases |run|
  {
    run != [] &&
    var before, a := run[..|run| - 1], run[|run| - 1];
    var s := Run(c, START, before);
    Races(s, a, k) || (Stranded(c, before, k) && !Starts(s, a, k))
  }

  /** The key's object in the map holds its outstanding request. */
  predicate Awaits(s: State, k: Key) {
    k in s.table && s.table[k] in s.pending
  }

  /** What a step does to one key's outstanding request. */
  lemma StepAwaits(c: Caps, s: State, a: Action, k: Key)
    requires Kept(s) && CanDo(s, a) && !Refused(c, s, a)
    ensures var s' := Do(c, s, a);
            && (Races(s, a, k) ==> k in s'.wanted)
            && (!Starts(s, a, k) && k in s.wanted ==> k in s'.wanted)
            && (k in s'.wanted ==> Races(s, a, k) || Awaits(s', k) || (k in s.wanted && !Starts(s, a, k) && !Awaits(s, k)))
  {
    var s' := Do(c, s, a);
    StepShape(c, s, a.t, a.ch);
    StepNotes(c, s, a.t, a.ch);
    hide After;
    NoteAwaits(s, s', a, k);
  }

  lemma NoteAwaits(s: State, s': State, a: Action, k: Key)
    requires Kept(s) && CanDo(s, a) && a.Act? && Shape(s, s', a.t, a.ch)
    requires HasObj(PcOf(s, a.t)) ==> PcOf(s, a.t).obj in s.flags
    requires Notes(s, s', a.t)
    ensures Races(s, a, k) ==> k in s'.wanted
    ensures !Starts(s, a, k) && k in s.wanted ==> k in s'.wanted
    ensures k in s'.wanted ==> Races(s, a, k) || Awaits(s', k) || (k in s.wanted && !Starts(s, a, k) && !Awaits(s, k))
  {
    var pc := PcOf(s, a.t);
    assert k in s.table ==> s.keyOf[s.table[k]] == k;
    assert HasObj(pc) ==> s.keyOf[pc.obj] == pc.key;
    if Awaits(s, k) {
      assert Represented(s, s.table[k]);
    }
    hide Kept, Represented, OnlyMoves, Quiet, Enabled, Located, Mark, Queue, Start, Finish, Drop;
  }

  lemma {:induction false} WantedIff(c: Caps, run: seq<Action>, k: Key)
    requires ValidRun(c, START, run) && Accepted(c, START, run)
    ensures var s := Run(c, START, run);
            && (Stranded(c, run, k) ==> k in s.wanted)
            && (k in s.wanted ==> Stranded(c, run, k) || Awaits(s, k))
  {
    if run != [] {
      var before, a := run[..|run| - 1], run[|run| - 1];
      WantedIff(c, before, k);
      RunKept(c, before);
      hide Do, Kept, Refused, Races, Starts, Awaits, CanDo;
      StepAwaits(c, Run(c, START, before), a, k);
    }
  }

  /** At rest, with no queue ever having refused, the map is empty, and a request
      of a key is lost if and only if the key raced and no run of it has started
      since. */
  lemma AtRest(c: Caps, run: seq<Action>)
    requires ValidRun(c, START, run) && Accepted(c, START, run)
    requires Quiescent(Run(c, START, run))
    ensures Run(c, START, run).table == map[]
    ensures forall k :: k in Run(c, START, run).wanted <==> Stranded(c, run, k)
  {
    hide Run, ValidRun, Accepted, Kept, Stranded, Quiescent;
    RunKept(c, run);
    RestsEmpty(Run(c, START, run));
    forall k ensures k in Run(c, START, run).wanted <==> Stranded(c, run, k) {
      WantedIff(c, run, k);
    }
  }

  /** A key waiting for a run is waited for by the object in the map, and a queued
      object's token is in a queue or in some thread's hands. */
  ghost predicate Served(s: State, k: Key)
    requires Located(s)
  {
    && k in s.table
    && Represented(s, s.table[k])
    && (s.flags[s.table[k]].queued ==> InQueue(s, k) || exists t :: Carries(PcOf(s, t), k, s.table[k]))
    && (s.flags[s.table[k]].running ==> exists t :: Owned(s, s.table[k], t))
  }

  /** No lost probe: in every interleaving without refusals, a request not yet
      followed by a run of its key is served by a token or a running worker,
      unless the key is stranded by a race. */
  lemma NoRequestLost(c: Caps, run: seq<Action>, k: Key)
    requires ValidRun(c, START, run) && Accepted(c, START, run)
    requires k in Run(c, START, run).wanted && !Stranded(c, run, k)
    ensures Located(Run(c, START, run)) && Served(Run(c, START, run), k)
  {
    hide Run, ValidRun, Accepted, Stranded;
    RunKept(c, run);
    WantedIff(c, run, k);
    var s := Run(c, START, run);
    assert Represented(s, s.table[k]);
    assert Mapped(s, s.table[k]);
    hide NoLeak, AllFit;
  }

  // ------------------------------------------------------------------
  // The race
  // ------------------------------------------------------------------

  lemma Extend(c: Caps, run: seq<Action>, s: State, t: Tid, ch: Choice) returns (run': seq<Action>, s': State)
    requires ValidRun(c, START, run) && Accepted(c, START, run) && Run(c, START, run) == s
    requires Enabled(s, t, ch) && !Refused(c, s, Act(t, ch))
    ensures Located(s) && s' == After(c, s, t, ch)
    ensures ValidRun(c, START, run') && Accepted(c, START, run') && Run(c, START, run') == s'
  {
    EveryInterleaving(c, run);
    hide AllFit, SingleOwner, NoLeak, After;
    run' := run + [Act(t, ch)];
    assert run'[..|run'| - 1] == run;
    s' := After(c, s, t, ch);
  }

  /** An enqueuer that found an idle object queues it and pushes its token. */
  lemma QueueIdle(c: Caps, run: seq<Action>, s: State, t: Tid, key: Key, o: Obj) returns (run': seq<Action>, s': State)
    requires ValidRun(c, START, run) && Accepted(c, START, run) && Run(c, START, run) == s
    requires PcOf(s, t) == EnqLoad(key, o, Normal, false) && o in s.flags && s.flags[o] == IDLE_FLAGS
    requires !Refuses(c, s, Normal)
    ensures ValidRun(c, START, run') && Accepted(c, START, run') && Run(c, START, run') == s'
    ensures s' == s.(flags := s.flags[o := Queue(IDLE_FLAGS, Normal)], normal := s.normal + [key],
                     threads := s.threads[t := Idle], pending := s.pending + {o}, wanted := s.wanted + {key})
  {
    hide Run, ValidRun, Accepted;
    run', s' := Extend(c, run, s, t, Go);
    assert s' == Move(s, t, EnqCas(key, o, Normal, false, IDLE_FLAGS));
    run', s' := Extend(c, run', s', t, Go);
    ghost var s2 := s.(flags := s.flags[o := Queue(IDLE_FLAGS, Normal)], pending := s.pending + {o}, wanted := s.wanted + {key});
    assert s' == Move(s2, t, EnqPush(key, o, Normal)) by {
      assert s.threads[t := EnqCas(key, o, Normal, false, IDLE_FLAGS)][t := EnqPush(key, o, Normal)] == s.threads[t := EnqPush(key, o, Normal)];
    }
    run', s' := Extend(c, run', s', t, Go);
    assert s.threads[t := EnqPush(key, o, Normal)][t := Idle] == s.threads[t := Idle];
  }

  /** A worker takes the only token, starts the object and comes to its last swap. */
  lemma RunToken(c: Caps, run: seq<Action>, s: State, t: Tid, key: Key, o: Obj) returns (run': seq<Action>, s': State)
    requires ValidRun(c, START, run) && Accepted(c, START, run) && Run(c, START, run) == s
    requires PcOf(s, t).Idle? && s.normal == [key] && key in s.table && s.table[key] == o && !s.stopped
    requires o in s.flags && s.flags[o] == Queue(IDLE_FLAGS, Normal)
    ensures ValidRun(c, START, run') && Accepted(c, START, run') && Run(c, START, run') == s'
    ensures s' == s.(flags := s.flags[o := Start(Queue(IDLE_FLAGS, Normal))], normal := [],
                     threads := s.threads[t := FinishLoad(key, o)], pending := s.pending - {o}, wanted := s.wanted - {key})
  {
    hide Run, ValidRun, Accepted;
    run', s' := Extend(c, run, s, t, PopNormal);
    ghost var s1 := s.(normal := []);
    assert s' == Move(s1, t, MarkLookup(key));
    run', s' := Extend(c, run', s', t, Go);
    assert s' == Move(s1, t, MarkLoad(key, o)) by {
      assert s1.threads[t := MarkLookup(key)][t := MarkLoad(key, o)] == s1.threads[t := MarkLoad(key, o)];
    }
    run', s' := StartLoaded(c, run', s', t, key, o);
    assert s1.threads[t := MarkLoad(key, o)][t := FinishLoad(key, o)] == s.threads[t := FinishLoad(key, o)];
  }

  lemma StartLoaded(c: Caps, run: seq<Action>, s: State, t: Tid, key: Key, o: Obj) returns (run': seq<Action>, s': State)
    requires ValidRun(c, START, run) && Accepted(c, START, run) && Run(c, START, run) == s
    requires PcOf(s, t) == MarkLoad(key, o) && o in s.flags && s.flags[o] == Queue(IDLE_FLAGS, Normal)
    ensures ValidRun(c, START, run') && Accepted(c, START, run') && Run(c, START, run') == s'
    ensures s' == s.(flags := s.flags[o := Start(Queue(IDLE_FLAGS, Normal))],
                     threads := s.threads[t := FinishLoad(key, o)], pending := s.pending - {o}, wanted := s.wanted - {key})
  {
    hide Run, ValidRun, Accepted;
    run', s' := Extend(c, run, s, t, Go);
    ghost var f := Queue(IDLE_FLAGS, Normal);
    assert s' == Move(s, t, MarkCas(key, o, f));
    run', s' := Extend(c, run', s', t, Go);
    ghost var s2 := s.(flags := s.flags[o := Start(f)], pending := s.pending - {o}, wanted := s.wanted - {key});
    assert s' == Move(s2, t, Probing(key, o)) by {
      assert s.threads[t := MarkCas(key, o, f)][t := Probing(key, o)] == s.threads[t := Probing(key, o)];
    }
    run', s' := Extend(c, run', s', t, Go);
    assert s.threads[t := Probing(key, o)][t := FinishLoad(key, o)] == s.threads[t := FinishLoad(key, o)];
  }

  /** The worker finishes a clean run and deletes the object it made idle. */
  lemma FinishClean(c: Caps, run: seq<Action>, s: State, t: Tid, key: Key, o: Obj) returns (run': seq<Action>, s': State)
    requires ValidRun(c, START, run) && Accepted(c, START, run) && Run(c, START, run) == s
    requires PcOf(s, t) == FinishLoad(key, o) && o in s.flags && s.flags[o] == Start(Queue(IDLE_FLAGS, Normal))
    requires Mapped(s, o) && s.keyOf[o] == key
    ensures ValidRun(c, START, run') && Accepted(c, START, run') && Run(c, START, run') == s'
    ensures s' == s.(flags := s.flags[o := IDLE_FLAGS], table := s.table - {key}, threads := s.threads[t := Idle])
  {
    hide Run, ValidRun, Accepted;
    run', s' := FinishIdle(c, run, s, t, key, o);
    run', s' := DeleteIdle(c, run', s', t, key, o);
    assert s.threads[t := DeleteCheck(key, o)][t := Idle] == s.threads[t := Idle];
  }

  lemma FinishIdle(c: Caps, run: seq<Action>, s: State, t: Tid, key: Key, o: Obj) returns (run': seq<Action>, s': State)
    requires ValidRun(c, START, run) && Accepted(c, START, run) && Run(c, START, run) == s
    requires PcOf(s, t) == FinishLoad(key, o) && o in s.flags && s.flags[o] == Start(Queue(IDLE_FLAGS, Normal))
    ensures ValidRun(c, START, run') && Accepted(c, START, run') && Run(c, START, run') == s'
    ensures s' == s.(flags := s.flags[o := IDLE_FLAGS], threads := s.threads[t := DeleteCheck(key, o)])
  {
    hide Run, ValidRun, Accepted;
    var f := Start(Queue(IDLE_FLAGS, Normal));
    run', s' := Extend(c, run, s, t, Go);
    assert s' == Move(s, t, FinishCas(key, o, f));
    run', s' := Extend(c, run', s', t, Go);
    assert s.threads[t := FinishCas(key, o, f)][t := DeleteCheck(key, o)] == s.threads[t := DeleteCheck(key, o)];
  }

  lemma DeleteIdle(c: Caps, run: seq<Action>, s: State, t: Tid, key: Key, o: Obj) returns (run': seq<Action>, s': State)
    requires ValidRun(c, START, run) && Accepted(c, START, run) && Run(c, START, run) == s
    requires PcOf(s, t) == DeleteCheck(key, o) && o in s.flags && s.flags[o] == IDLE_FLAGS
    requires Mapped(s, o) && s.keyOf[o] == key
    ensures ValidRun(c, START, run') && Accepted(c, START, run') && Run(c, START, run') == s'
    ensures s' == s.(table := s.table - {key}, threads := s.threads[t := Idle])
  {
    hide Run, ValidRun, Accepted;
    run', s' := CheckIdle(c, run, s, t, key, o);
    run', s' := Commit(c, run', s', t, key, o);
    assert s.threads[t := DeleteCommit(key, o)][t := Idle] == s.threads[t := Idle];
  }

  lemma CheckIdle(c: Caps, run: seq<Action>, s: State, t: Tid, key: Key, o: Obj) returns (run': seq<Action>, s': State)
    requires ValidRun(c, START, run) && Accepted(c, START, run) && Run(c, START, run) == s
    requires PcOf(s, t) == DeleteCheck(key, o) && o in s.flags && s.flags[o] == IDLE_FLAGS && Mapped(s, o)
    ensures ValidRun(c, START, run') && Accepted(c, START, run') && Run(c, START, run') == s'
    ensures s' == s.(threads := s.threads[t := DeleteCommit(key, o)])
  {
    hide Run, ValidRun, Accepted;
    run', s' := Extend(c, run, s, t, Go);
  }

  lemma Commit(c: Caps, run: seq<Action>, s: State, t: Tid, key: Key, o: Obj) returns (run': seq<Action>, s': State)
    requires ValidRun(c, START, run) && Accepted(c, START, run) && Run(c, START, run) == s
    requires PcOf(s, t) == DeleteCommit(key, o) && Mapped(s, o)
    ensures ValidRun(c, START, run') && Accepted(c, START, run') && Run(c, START, run') == s'
    ensures s' == s.(table := s.table - {key}, threads := s.threads[t := Idle])
  {
    hide Run, ValidRun, Accepted;
    run', s' := Extend(c, run, s, t, Go);
  }

  /** A first request is queued and a worker starts it, while another enqueuer
      looks the object up. */
  lemma RaceSetUp(c: Caps, key: Key, o: Obj) returns (run: seq<Action>, s: State)
    requires c.normal > 0
    ensures ValidRun(c, START, run) && Accepted(c, START, run) && Run(c, START, run) == s
    ensures s.flags == map[o := Start(Queue(IDLE_FLAGS, Normal))] && s.keyOf == map[o := key] && s.table == map[key := o]
    ensures s.high == [] && s.normal == [] && !s.stopped && s.wanted == {} && s.pending == {}
    ensures s.threads == map[1 := Idle, 2 := FinishLoad(key, o), 3 := EnqLoad(key, o, Normal, false)]
  {
    hide Run, ValidRun, Accepted, Refused;
    run, s := Begin(c, key, o);
    run, s := QueueIdle(c, run, s, 1, key, o);
    run, s := RunToken(c, run, s, 2, key, o);
    assert s.threads == map[1 := Idle, 2 := FinishLoad(key, o)];
    run, s := LookUp(c, run, s, 3, key, o);
  }

  lemma Begin(c: Caps, key: Key, o: Obj) returns (run: seq<Action>, s: State)
    ensures ValidRun(c, START, run) && Accepted(c, START, run) && Run(c, START, run) == s
    ensures s == State(map[o := IDLE_FLAGS], map[o := key], map[key := o], [], [], false,
                       map[1 := EnqLoad(key, o, Normal, false)], {}, {})
  {
    run, s := Extend(c, [], START, 1, Enqueue(key, Normal));
    assert s == START.(threads := map[1 := EnqLookup(key, Normal)]);
    hide Run, ValidRun, Accepted;
    run, s := Extend(c, run, s, 1, Fresh(o));
  }

  lemma LookUp(c: Caps, run: seq<Action>, s: State, t: Tid, key: Key, o: Obj) returns (run': seq<Action>, s': State)
    requires ValidRun(c, START, run) && Accepted(c, START, run) && Run(c, START, run) == s
    requires PcOf(s, t).Idle? && key in s.table && s.table[key] == o
    ensures ValidRun(c, START, run') && Accepted(c, START, run') && Run(c, START, run') == s'
    ensures s' == s.(threads := s.threads[t := EnqLoad(key, o, Normal, false)])
  {
    hide Run, ValidRun, Accepted;
    run', s' := Extend(c, run, s, t, Enqueue(key, Normal));
    assert s' == Move(s, t, EnqLookup(key, Normal));
    run', s' := Extend(c, run', s', t, Go);
    assert s.threads[t := EnqLookup(key, Normal)][t := EnqLoad(key, o, Normal, false)] == s.threads[t := EnqLoad(key, o, Normal, false)];
  }

  /** The first race, for every key: the worker finishes and deletes the object,
      the third thread queues its request on it and pushes a token, and the token
      finds no object.  Nothing was refused, everything is at rest, and the
      request is never run. */
  lemma RequestLost(c: Caps, key: Key, o: Obj) returns (run: seq<Action>)
    requires c.normal > 0
    ensures ValidRun(c, START, run) && Accepted(c, START, run)
    ensures Quiescent(Run(c, START, run)) && Run(c, START, run).wanted == {key}
  {
    hide Run, ValidRun, Accepted;
    var s;
    run, s := RaceSetUp(c, key, o);
    run, s := FinishClean(c, run, s, 2, key, o);
    assert s.table == map[];
    run, s := QueueIdle(c, run, s, 3, key, o);
    assert s.normal == [key] && s.wanted == {key};
    run, s := DropToken(c, run, s, 2, key);
    assert s.threads == map[1 := Idle, 2 := Idle, 3 := Idle];
  }

  /** The second race, for every key: the worker has found the object idle and is
      about to delete it when the third thread queues its request there. */
  lemma RequestLostInDelete(c: Caps, key: Key, o: Obj) returns (run: seq<Action>)
    requires c.normal > 0
    ensures ValidRun(c, START, run) && Accepted(c, START, run)
    ensures Quiescent(Run(c, START, run)) && Run(c, START, run).wanted == {key}
  {
    hide Run, ValidRun, Accepted;
    var s;
    run, s := RaceSetUp(c, key, o);
    run, s := FinishIdle(c, run, s, 2, key, o);
    run, s := CheckIdle(c, run, s, 2, key, o);
    assert s.threads == map[1 := Idle, 2 := DeleteCommit(key, o), 3 := EnqLoad(key, o, Normal, false)];
    run, s := QueueIdle(c, run, s, 3, key, o);
    assert s.normal == [key] && s.wanted == {key};
    run, s := Commit(c, run, s, 2, key, o);
    assert s.table == map[];
    run, s := DropToken(c, run, s, 2, key);
    assert s.threads == map[1 := Idle, 2 := Idle, 3 := Idle];
  }

  lemma DropToken(c: Caps, run: seq<Action>, s: State, t: Tid, key: Key) returns (run': seq<Action>, s': State)
    requires ValidRun(c, START, run) && Accepted(c, START, run) && Run(c, START, run) == s
    requires PcOf(s, t).Idle? && s.normal == [key] && key !in s.table && !s.stopped
    ensures ValidRun(c, START, run') && Accepted(c, START, run') && Run(c, START, run') == s'
    ensures s' == s.(normal := [], threads := s.threads[t := Idle])
  {
    hide Run, ValidRun, Accepted;
    run', s' := Extend(c, run, s, t, PopNormal);
    assert s' == Move(s.(normal := []), t, MarkLookup(key));
    run', s' := Extend(c, run', s', t, Go);
    assert s.threads[t := MarkLookup(key)][t := Idle] == s.threads[t := Idle];
  }
}
