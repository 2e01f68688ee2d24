/** The lock-free probe task protocol: one flag word per state object, changed by
    compare-and-swap from any number of threads, two bounded token queues, and a
    map from keys to state objects that delete themselves when idle.  Each step
    below is one load, one compare-and-swap, one map access or one queue
    operation of one thread. */
module ProbeProtocol {
  import opened Types

  type Key = int
  type Obj = int
  type Tid = int

  datatype Flags = Flags(queued: bool, running: bool, dirty: bool, dirtyHigh: bool, queuedHigh: bool)

  const IDLE_FLAGS := Flags(false, false, false, false, false)

  /** Where a thread is.  Seen flags are the value it loaded last. */
  datatype Pc =
    | Idle
      // enqueueing a request
    | EnqLookup(key: Key, prio: Priority)
    | EnqLoad(key: Key, obj: Obj, prio: Priority, mayUpgrade: bool)
    | EnqCas(key: Key, obj: Obj, prio: Priority, mayUpgrade: bool, seen: Flags)
    | EnqPush(key: Key, obj: Obj, prio: Priority)
    | UpgradePush(key: Key, obj: Obj, prio: Priority)
    | RevertLoad(key: Key, obj: Obj, prio: Priority)
    | RevertCas(key: Key, obj: Obj, prio: Priority, seen: Flags)
      // running a token
    | MarkLookup(key: Key)
    | MarkLoad(key: Key, obj: Obj)
    | MarkCas(key: Key, obj: Obj, seen: Flags)
    | Probing(key: Key, obj: Obj)
    | FinishLoad(key: Key, obj: Obj)
    | FinishCas(key: Key, obj: Obj, seen: Flags)
    | FinishPush(key: Key, obj: Obj, prio: Priority)
      // cleaning up
    | ClearLoad(key: Key, obj: Obj)
    | ClearCas(key: Key, obj: Obj, seen: Flags)
    | DeleteCheck(key: Key, obj: Obj)
    | DeleteCommit(key: Key, obj: Obj)

  /** pending: objects holding a request recorded since they last started a run;
      wanted: keys with a request recorded since some run of the key started. */
  datatype State = State(
    flags: map<Obj, Flags>,
    keyOf: map<Obj, Key>,
    table: map<Key, Obj>,
    high: seq<Key>,
    normal: seq<Key>,
    stopped: bool,
    threads: map<Tid, Pc>,
    pending: set<Obj>,
    wanted: set<Key>)

  datatype Caps = Caps(high: nat, normal: nat)

  /** What the outside decides at a step: idle threads start something, a lookup
      that misses takes a new object. */
  datatype Choice = Enqueue(key: Key, prio: Priority) | PopHigh | PopNormal | Fresh(obj: Obj) | Go

  // ------------------------------------------------------------------
  // Flag arithmetic
  // ------------------------------------------------------------------

  function Mark(f: Flags, prio: Priority): Flags {
    f.(dirty := true, dirtyHigh := f.dirtyHigh || prio.High?)
  }

  function Queue(f: Flags, prio: Priority): Flags {
    f.(queued := true, queuedHigh := prio.High?)
  }

  function Start(f: Flags): Flags {
    f.(running := true, queued := false, queuedHigh := false)
  }

  function Finish(f: Flags): Flags {
    if f.dirty then Flags(true, false, false, false, f.dirtyHigh)
    else Flags(f.queued, false, false, false, false)
  }

  function Drop(f: Flags): Flags {
    f.(queued := false, queuedHigh := false, dirty := false, dirtyHigh := false)
  }

  // ------------------------------------------------------------------
  // Steps
  // ------------------------------------------------------------------

  predicate HasObj(pc: Pc) {
    !pc.Idle? && !pc.EnqLookup? && !pc.MarkLookup?
  }

  function PcOf(s: State, t: Tid): Pc {
    if t in s.threads then s.threads[t] else Idle
  }

  /** Threads and the map only hold objects that exist, under their own key. */
  ghost predicate Located(s: State) {
    && s.keyOf.Keys == s.flags.Keys
    && (forall t :: HasObj(PcOf(s, t)) ==> PcOf(s, t).obj in s.flags && s.keyOf[PcOf(s, t).obj] == PcOf(s, t).key)
    && (forall k :: k in s.table ==> s.table[k] in s.flags && s.keyOf[s.table[k]] == k)
  }

  predicate Mapped(s: State, o: Obj) {
    o in s.keyOf && s.keyOf[o] in s.table && s.table[s.keyOf[o]] == o
  }

  predicate Enabled(s: State, t: Tid, ch: Choice) {
    match PcOf(s, t)
    case Idle => ch.Enqueue? || (!s.stopped && ((ch.PopHigh? && s.high != []) || (ch.PopNormal? && s.normal != [])))
    case EnqLookup(key, _) => if key in s.table then ch.Go? else ch.Fresh? && ch.obj !in s.flags
    case _ => ch.Go?
  }

  function Move(s: State, t: Tid, pc: Pc): State {
    s.(threads := s.threads[t := pc])
  }

  function Cas(s: State, t: Tid, o: Obj, seen: Flags, next: Flags, won: Pc, lost: Pc): State
    requires o in s.flags
  {
    if s.flags[o] == seen then Move(s.(flags := s.flags[o := next]), t, won) else Move(s, t, lost)
  }

  predicate Refuses(c: Caps, s: State, prio: Priority) {
    s.stopped || (if prio.High? then |s.high| >= c.high else |s.normal| >= c.normal)
  }

  function Push(c: Caps, s: State, t: Tid, key: Key, prio: Priority, taken: Pc, refused: Pc): State {
    if Refuses(c, s, prio) then Move(s, t, refused)
    else Move(if prio.High? then s.(high := s.high + [key]) else s.(normal := s.normal + [key]), t, taken)
  }

  function Recorded(s: State, key: Key, o: Obj): State {
    s.(pending := s.pending + {o}, wanted := s.wanted + {key})
  }

  /** The enqueuer's compare-and-swap: mark a running or queued object dirty, ask
      for an upgrade, or queue it.  Whichever wins has recorded the request. */
  function AfterEnqCas(s: State, t: Tid): State
    requires PcOf(s, t).EnqCas? && PcOf(s, t).obj in s.flags
  {
    var pc := PcOf(s, t);
    var lost := EnqLoad(pc.key, pc.obj, pc.prio, pc.mayUpgrade);
    var noted := if s.flags[pc.obj] == pc.seen then Recorded(s, pc.key, pc.obj) else s;
    if pc.seen.running then
      Cas(noted, t, pc.obj, pc.seen, Mark(pc.seen, pc.prio), Idle, lost)
    else if pc.seen.queued && pc.mayUpgrade && !pc.seen.queuedHigh then
      Cas(noted, t, pc.obj, pc.seen, pc.seen.(queuedHigh := true), UpgradePush(pc.key, pc.obj, pc.prio), lost)
    else if pc.seen.queued then
      Cas(noted, t, pc.obj, pc.seen, Mark(pc.seen, pc.prio), Idle, lost)
    else
      Cas(noted, t, pc.obj, pc.seen, Queue(pc.seen, pc.prio), EnqPush(pc.key, pc.obj, pc.prio), lost)
  }

  function AfterMarkCas(s: State, t: Tid): State
    requires PcOf(s, t).MarkCas? && PcOf(s, t).obj in s.flags
  {
    var pc := PcOf(s, t);
    var started := if s.flags[pc.obj] == pc.seen
                   then s.(pending := s.pending - {pc.obj}, wanted := s.wanted - {pc.key}) else s;
    Cas(started, t, pc.obj, pc.seen, Start(pc.seen), Probing(pc.key, pc.obj), MarkLoad(pc.key, pc.obj))
  }

  function AfterIdle(s: State, t: Tid, ch: Choice): State
    requires Enabled(s, t, ch) && PcOf(s, t).Idle?
  {
    if ch.Enqueue? then Move(s, t, EnqLookup(ch.key, ch.prio))
    else if ch.PopHigh? then Move(s.(high := s.high[1..]), t, MarkLookup(s.high[0]))
    else Move(s.(normal := s.normal[1..]), t, MarkLookup(s.normal[0]))
  }

  function AfterLookup(s: State, t: Tid, ch: Choice): State
    requires Enabled(s, t, ch) && PcOf(s, t).EnqLookup?
  {
    var pc := PcOf(s, t);
    if pc.key in s.table then Move(s, t, EnqLoad(pc.key, s.table[pc.key], pc.prio, pc.prio.High?))
    else Move(s.(flags := s.flags[ch.obj := IDLE_FLAGS], keyOf := s.keyOf[ch.obj := pc.key], table := s.table[pc.key := ch.obj]),
              t, EnqLoad(pc.key, ch.obj, pc.prio, pc.prio.High?))
  }

  function After(c: Caps, s: State, t: Tid, ch: Choice): State
    requires Located(s) && Enabled(s, t, ch)
  {
    match PcOf(s, t)
    case Idle => AfterIdle(s, t, ch)
    case EnqLookup(_, _) => AfterLookup(s, t, ch)
    case EnqLoad(key, o, prio, up) => Move(s, t, EnqCas(key, o, prio, up, s.flags[o]))
    case EnqCas(_, _, _, _, _) => AfterEnqCas(s, t)
    case EnqPush(key, o, prio) => Push(c, s, t, key, prio, Idle, ClearLoad(key, o))
    case UpgradePush(key, o, prio) => Push(c, s, t, key, High, Idle, RevertLoad(key, o, prio))
    case RevertLoad(key, o, prio) => Move(s, t, RevertCas(key, o, prio, s.flags[o]))
    case RevertCas(key, o, prio, seen) =>
      Cas(s, t, o, seen, seen.(queuedHigh := false), EnqLoad(key, o, prio, false), RevertLoad(key, o, prio))
    case MarkLookup(key) => Move(s, t, if key in s.table then MarkLoad(key, s.table[key]) else Idle)
    case MarkLoad(key, o) =>
      Move(s, t, if s.flags[o].queued then MarkCas(key, o, s.flags[o]) else DeleteCheck(key, o))
    case MarkCas(_, _, _) => AfterMarkCas(s, t)
    case Probing(key, o) => Move(s, t, FinishLoad(key, o))
    case FinishLoad(key, o) => Move(s, t, FinishCas(key, o, s.flags[o]))
    case FinishCas(key, o, seen) =>
      Cas(s, t, o, seen, Finish(seen),
          if seen.dirty then FinishPush(key, o, if seen.dirtyHigh then High else Normal) else DeleteCheck(key, o),
          FinishLoad(key, o))
    case FinishPush(key, o, prio) => Push(c, s, t, key, prio, DeleteCheck(key, o), ClearLoad(key, o))
    case ClearLoad(key, o) => Move(s, t, ClearCas(key, o, s.flags[o]))
    case ClearCas(key, o, seen) => Cas(s, t, o, seen, Drop(seen), DeleteCheck(key, o), ClearLoad(key, o))
    case DeleteCheck(key, o) =>
      Move(s, t, if Mapped(s, o) && s.flags[o] == IDLE_FLAGS then DeleteCommit(key, o) else Idle)
    case DeleteCommit(key, o) =>
      Move(if Mapped(s, o) then s.(table := s.table - {key}) else s, t, Idle)
  }

  /** Stopping drops every queued token and refuses later ones. */
  function Stop(s: State): State {
    s.(stopped := true, high := [], normal := [])
  }

  // ------------------------------------------------------------------
  // Invariants of every interleaving
  // ------------------------------------------------------------------

  predicate FlagsFit(f: Flags) {
    && !(f.queued && f.running)
    && (f.queuedHigh ==> f.queued)
    && (f.dirtyHigh ==> f.dirty)
    && (f.dirty ==> f.queued || f.running)
  }

  predicate Owns(pc: Pc, o: Obj) {
    (pc.Probing? || pc.FinishLoad? || pc.FinishCas?) && pc.obj == o
  }

  /** Still due to swap or delete the object. */
  predicate Due(pc: Pc, o: Obj) {
    (pc.EnqLoad? || pc.EnqCas? || pc.RevertLoad? || pc.RevertCas? || pc.DeleteCheck? || pc.DeleteCommit?) && pc.obj == o
  }

  predicate Owned(s: State, o: Obj, t: Tid) {
    Owns(PcOf(s, t), o)
  }

  ghost predicate AllFit(s: State) {
    && (forall o :: o in s.flags ==> FlagsFit(s.flags[o]))
    && (forall t :: PcOf(s, t).EnqCas? ==> FlagsFit(PcOf(s, t).seen))
    && (forall t :: PcOf(s, t).MarkCas? ==> PcOf(s, t).seen.queued)
  }

  /** A running object has exactly one owning worker, and only owners' objects run. */
  ghost predicate SingleOwner(s: State) {
    && (forall o, t :: Owned(s, o, t) ==> o in s.flags && s.flags[o].running)
    && (forall o :: o in s.flags && s.flags[o].running ==> exists t :: Owned(s, o, t))
    && (forall o, t, u :: Owned(s, o, t) && Owned(s, o, u) ==> t == u)
  }

  ghost predicate NoLeak(s: State) {
    forall o :: o in s.flags && Mapped(s, o) && s.flags[o] == IDLE_FLAGS ==> exists t :: Due(PcOf(s, t), o)
  }

  ghost predicate Inv(s: State) {
    Located(s) && AllFit(s) && SingleOwner(s) && NoLeak(s)
  }

  /** The other threads stay where they are. */
  ghost predicate OnlyMoves(s: State, s': State, t: Tid) {
    forall u :: u != t ==> PcOf(s', u) == PcOf(s, u)
  }

  /** The objects, their keys and the map are as before. */
  predicate SameObjects(s: State, s': State) {
    s'.flags == s.flags && s'.keyOf == s.keyOf && s'.table == s.table
  }

  /** One object's flags were swapped; nothing else about the objects changed. */
  predicate Swapped(s: State, s': State, o: Obj, next: Flags) {
    && o in s.flags && s'.flags == s.flags[o := next]
    && s'.keyOf == s.keyOf && s'.table == s.table
  }

  /** The four shapes of a step: nothing but a move (and a queue), a won swap by
      a thread that loaded exactly the current flags, a new object, a deletion. */
  ghost predicate Shape(s: State, s': State, t: Tid, ch: Choice)
    requires Located(s)
  {
    var pc, pc' := PcOf(s, t), PcOf(s', t);
    && OnlyMoves(s, s', t)
    && (if pc.EnqLookup? && pc.key !in s.table then
          && ch.Fresh? && ch.obj !in s.flags
          && s'.flags == s.flags[ch.obj := IDLE_FLAGS] && s'.keyOf == s.keyOf[ch.obj := pc.key]
          && s'.table == s.table[pc.key := ch.obj]
          && pc' == EnqLoad(pc.key, ch.obj, pc.prio, pc.prio.High?)
        else if pc.DeleteCommit? then
          && s'.flags == s.flags && s'.keyOf == s.keyOf && pc'.Idle?
          && s'.table == (if Mapped(s, pc.obj) then s.table - {pc.key} else s.table)
        else if pc.EnqCas? && s.flags[pc.obj] == pc.seen then
          if pc.seen.running || (pc.seen.queued && !(pc.mayUpgrade && !pc.seen.queuedHigh)) then
            Swapped(s, s', pc.obj, Mark(pc.seen, pc.prio)) && pc' == Idle
          else if pc.seen.queued then
            Swapped(s, s', pc.obj, pc.seen.(queuedHigh := true)) && pc' == UpgradePush(pc.key, pc.obj, pc.prio)
          else
            Swapped(s, s', pc.obj, Queue(pc.seen, pc.prio)) && pc' == EnqPush(pc.key, pc.obj, pc.prio)
        else if pc.RevertCas? && s.flags[pc.obj] == pc.seen then
          Swapped(s, s', pc.obj, pc.seen.(queuedHigh := false)) && pc' == EnqLoad(pc.key, pc.obj, pc.prio, false)
        else if pc.MarkCas? && s.flags[pc.obj] == pc.seen then
          Swapped(s, s', pc.obj, Start(pc.seen)) && pc' == Probing(pc.key, pc.obj)
        else if pc.FinishCas? && s.flags[pc.obj] == pc.seen then
          && Swapped(s, s', pc.obj, Finish(pc.seen))
          && pc' == if pc.seen.dirty then FinishPush(pc.key, pc.obj, if pc.seen.dirtyHigh then High else Normal)
                    else DeleteCheck(pc.key, pc.obj)
        else if pc.ClearCas? && s.flags[pc.obj] == pc.seen then
          Swapped(s, s', pc.obj, Drop(pc.seen)) && pc' == DeleteCheck(pc.key, pc.obj)
        else
          SameObjects(s, s') && Quiet(s, pc, pc'))
  }

  /** The moves that change no object. */
  predicate Quiet(s: State, pc: Pc, pc': Pc)
    requires HasObj(pc) ==> pc.obj in s.flags
    requires forall k :: k in s.table ==> s.table[k] in s.flags
  {
    match pc
    case Idle => pc'.EnqLookup? || pc'.MarkLookup?
    case EnqLookup(key, prio) => key in s.table && pc' == EnqLoad(key, s.table[key], prio, prio.High?)
    case EnqLoad(key, o, prio, up) => pc' == EnqCas(key, o, prio, up, s.flags[o])
    case EnqCas(key, o, prio, up, _) => pc' == EnqLoad(key, o, prio, up)
    case EnqPush(key, o, _) => pc' == Idle || pc' == ClearLoad(key, o)
    case UpgradePush(key, o, prio) => pc' == Idle || pc' == RevertLoad(key, o, prio)
    case RevertLoad(key, o, prio) => pc' == RevertCas(key, o, prio, s.flags[o])
    case RevertCas(key, o, prio, _) => pc' == RevertLoad(key, o, prio)
    case MarkLookup(key) => pc' == if key in s.table then MarkLoad(key, s.table[key]) else Idle
    case MarkLoad(key, o) => pc' == if s.flags[o].queued then MarkCas(key, o, s.flags[o]) else DeleteCheck(key, o)
    case MarkCas(key, o, _) => pc' == MarkLoad(key, o)
    case Probing(key, o) => pc' == FinishLoad(key, o)
    case FinishLoad(key, o) => pc' == FinishCas(key, o, s.flags[o])
    case FinishCas(key, o, _) => pc' == FinishLoad(key, o)
    case FinishPush(key, o, _) => pc' == DeleteCheck(key, o) || pc' == ClearLoad(key, o)
    case ClearLoad(key, o) => pc' == ClearCas(key, o, s.flags[o])
    case ClearCas(key, o, _) => pc' == ClearLoad(key, o)
    case DeleteCheck(key, o) =>
      pc' == if Mapped(s, o) && s.flags[o] == IDLE_FLAGS then DeleteCommit(key, o) else Idle
    case DeleteCommit(_, _) => pc' == Idle
  }

  predicate Swaps(pc: Pc) {
    pc.EnqCas? || pc.RevertCas? || pc.MarkCas? || pc.FinishCas? || pc.ClearCas?
  }

  lemma MoveMoves(s: State, t: Tid, pc: Pc)
    ensures OnlyMoves(s, Move(s, t, pc), t) && SameObjects(s, Move(s, t, pc)) && PcOf(Move(s, t, pc), t) == pc
  {
  }

  lemma CasMoves(s: State, t: Tid, o: Obj, seen: Flags, next: Flags, won: Pc, lost: Pc)
    requires o in s.flags
    ensures var s' := Cas(s, t, o, seen, next, won, lost);
            && OnlyMoves(s, s', t)
            && if s.flags[o] == seen then Swapped(s, s', o, next) && PcOf(s', t) == won else SameObjects(s, s') && PcOf(s', t) == lost
  {
    var s' := Cas(s, t, o, seen, next, won, lost);
    if s.flags[o] == seen {
      var swapped := s.(flags := s.flags[o := next]);
      MoveMoves(swapped, t, won);
      assert s' == Move(swapped, t, won);
      hide Move, Cas;
      assert OnlyMoves(s, s', t) by {
        OnlyMovesFrom(s, swapped, s', t);
      }
      hide OnlyMoves, PcOf;
    } else {
      MoveMoves(s, t, lost);
      assert s' == Move(s, t, lost);
      hide Move, Cas, OnlyMoves, PcOf;
    }
  }

  lemma OnlyMovesFrom(s: State, s1: State, s': State, t: Tid)
    requires s1.threads == s.threads && OnlyMoves(s1, s', t)
    ensures OnlyMoves(s, s', t)
  {
    forall u | u != t ensures PcOf(s', u) == PcOf(s, u) {
      assert PcOf(s1, u) == PcOf(s, u);
    }
  }

  lemma EnqCasShape(c: Caps, s: State, t: Tid, ch: Choice)
    requires Located(s) && PcOf(s, t).EnqCas? && ch.Go?
    ensures Shape(s, After(c, s, t, ch), t, ch)
  {
    hide Push, AfterIdle, AfterLookup, AfterMarkCas, Mapped, Mark, Queue, Start, Finish, Drop, Cas;
    var pc := PcOf(s, t);
    assert pc.obj in s.flags;
    var lost := EnqLoad(pc.key, pc.obj, pc.prio, pc.mayUpgrade);
    var noted := if s.flags[pc.obj] == pc.seen then Recorded(s, pc.key, pc.obj) else s;
    CasMoves(noted, t, pc.obj, pc.seen, Mark(pc.seen, pc.prio), Idle, lost);
    CasMoves(noted, t, pc.obj, pc.seen, pc.seen.(queuedHigh := true), UpgradePush(pc.key, pc.obj, pc.prio), lost);
    CasMoves(noted, t, pc.obj, pc.seen, Queue(pc.seen, pc.prio), EnqPush(pc.key, pc.obj, pc.prio), lost);
    hide Located;
  }

  lemma SwapShape(c: Caps, s: State, t: Tid, ch: Choice)
    requires Located(s) && Enabled(s, t, ch) && Swaps(PcOf(s, t)) && !PcOf(s, t).EnqCas?
    ensures Shape(s, After(c, s, t, ch), t, ch)
  {
    var pc := PcOf(s, t);
    assert pc.obj in s.flags;
    hide Located, Push, AfterIdle, AfterLookup, AfterEnqCas, Mapped, Start, Finish, Drop;
  }

  predicate Pushes(pc: Pc) {
    pc.EnqPush? || pc.UpgradePush? || pc.FinishPush?
  }

  lemma PushShape(c: Caps, s: State, t: Tid, ch: Choice)
    requires Located(s) && Enabled(s, t, ch) && Pushes(PcOf(s, t))
    ensures Shape(s, After(c, s, t, ch), t, ch)
  {
    hide AfterEnqCas, AfterMarkCas, AfterLookup, AfterIdle, Cas, Mapped, Refuses, Mark, Queue, Start, Finish, Drop, Swapped;
    PushMoves(c, s, t);
    hide Located, Push;
  }

  lemma PushMoves(c: Caps, s: State, t: Tid)
    ensures forall key, prio, taken, refused ::
              var s' := Push(c, s, t, key, prio, taken, refused);
              OnlyMoves(s, s', t) && SameObjects(s, s') && PcOf(s', t) == if Refuses(c, s, prio) then refused else taken
  {
  }

  lemma IdleShape(c: Caps, s: State, t: Tid, ch: Choice)
    requires Located(s) && Enabled(s, t, ch) && PcOf(s, t).Idle?
    ensures Shape(s, After(c, s, t, ch), t, ch)
  {
    hide Located, AfterEnqCas, AfterMarkCas, AfterLookup, Push, Cas, Mapped, Mark, Queue, Start, Finish, Drop, Swapped;
  }

  lemma MoveShape(c: Caps, s: State, t: Tid, ch: Choice)
    requires Located(s) && Enabled(s, t, ch)
    requires !Swaps(PcOf(s, t)) && !Pushes(PcOf(s, t)) && !PcOf(s, t).EnqLookup? && !PcOf(s, t).Idle?
    ensures Shape(s, After(c, s, t, ch), t, ch)
  {
    var pc := PcOf(s, t);
    assert HasObj(pc) ==> pc.obj in s.flags;
    assert forall k :: k in s.table ==> s.table[k] in s.flags;
    hide Located, AfterEnqCas, AfterMarkCas, AfterLookup, AfterIdle, Push, Cas, Mapped, Mark, Queue, Start, Finish, Drop, Swapped;
  }

  lemma StepShape(c: Caps, s: State, t: Tid, ch: Choice)
    requires Located(s) && Enabled(s, t, ch)
    ensures Shape(s, After(c, s, t, ch), t, ch)
  {
    var pc := PcOf(s, t);
    if pc.EnqCas? {
      EnqCasShape(c, s, t, ch);
    } else if Swaps(pc) {
      SwapShape(c, s, t, ch);
    } else if pc.EnqLookup? {
      hide AfterEnqCas, AfterMarkCas, Cas, Push, AfterIdle;
    } else if Pushes(pc) {
      PushShape(c, s, t, ch);
    } else if pc.Idle? {
      IdleShape(c, s, t, ch);
    } else {
      MoveShape(c, s, t, ch);
    }
  }

  lemma StepLocated(s: State, s': State, t: Tid, ch: Choice)
    requires Located(s) && Shape(s, s', t, ch)
    ensures Located(s')
  {
    var pc, pc' := PcOf(s, t), PcOf(s', t);
    assert HasObj(pc) ==> pc.obj in s.flags && s.keyOf[pc.obj] == pc.key;
    MoverLocated(s, s', t, ch);
    MapLocated(s, s', t, ch);
    forall u | HasObj(PcOf(s', u))
      ensures PcOf(s', u).obj in s'.flags && s'.keyOf[PcOf(s', u).obj] == PcOf(s', u).key
    {
      if u != t {
        assert PcOf(s', u) == PcOf(s, u);
      }
      hide Shape;
    }
    hide Shape;
  }

  /** The thread that moved holds an object that exists, under its key. */
  lemma MoverLocated(s: State, s': State, t: Tid, ch: Choice)
    requires Located(s) && Shape(s, s', t, ch)
    ensures HasObj(PcOf(s', t)) ==> PcOf(s', t).obj in s'.flags && PcOf(s', t).obj in s'.keyOf && s'.keyOf[PcOf(s', t).obj] == PcOf(s', t).key
  {
    var pc := PcOf(s, t);
    assert HasObj(pc) ==> pc.obj in s.flags && s.keyOf[pc.obj] == pc.key;
    assert pc.EnqLookup? && pc.key in s.table ==> s.table[pc.key] in s.flags && s.keyOf[s.table[pc.key]] == pc.key;
    assert pc.MarkLookup? && pc.key in s.table ==> s.table[pc.key] in s.flags && s.keyOf[s.table[pc.key]] == pc.key;
    assert s.keyOf.Keys == s.flags.Keys;
    hide Located, OnlyMoves, Mark, Queue, Start, Finish, Drop, Mapped;
  }

  /** Objects stay, with their keys, and the map stays in order. */
  lemma MapLocated(s: State, s': State, t: Tid, ch: Choice)
    requires Located(s) && Shape(s, s', t, ch)
    ensures s'.keyOf.Keys == s'.flags.Keys
    ensures forall o :: o in s.flags ==> o in s'.flags && s'.keyOf[o] == s.keyOf[o]
    ensures forall k :: k in s'.table ==> s'.table[k] in s'.flags && s'.keyOf[s'.table[k]] == k
  {
    hide OnlyMoves, Quiet, Mark, Queue, Start, Finish, Drop, Mapped;
  }

  lemma StepFit(s: State, s': State, t: Tid, ch: Choice)
    requires Located(s) && AllFit(s) && Shape(s, s', t, ch)
    ensures AllFit(s')
  {
    assert HasObj(PcOf(s, t)) ==> PcOf(s, t).obj in s.flags;
    FlagsStayFit(s, s', t, ch);
    SeenFit(s, s', t, ch);
    assert OnlyMoves(s, s', t);
    hide Shape, Located, FlagsFit;
    forall u ensures (PcOf(s', u).EnqCas? ==> FlagsFit(PcOf(s', u).seen)) && (PcOf(s', u).MarkCas? ==> PcOf(s', u).seen.queued) {
      if u != t {
        assert PcOf(s', u) == PcOf(s, u);
      }
    }
  }

  /** What a won swap writes. */
  function Next(pc: Pc): Flags
    requires Swaps(pc)
  {
    match pc
    case EnqCas(_, _, prio, up, seen) =>
      if seen.running || (seen.queued && !(up && !seen.queuedHigh)) then Mark(seen, prio)
      else if seen.queued then seen.(queuedHigh := true)
      else Queue(seen, prio)
    case RevertCas(_, _, _, seen) => seen.(queuedHigh := false)
    case MarkCas(_, _, seen) => Start(seen)
    case FinishCas(_, _, seen) => Finish(seen)
    case ClearCas(_, _, seen) => Drop(seen)
  }

  predicate Wins(s: State, pc: Pc) {
    Swaps(pc) && pc.obj in s.flags && s.flags[pc.obj] == pc.seen
  }

  /** A step changes no flags but those of a won swap, and a new object's. */
  lemma ShapeFlags(s: State, s': State, t: Tid, ch: Choice)
    requires Located(s) && Shape(s, s', t, ch)
    ensures var pc := PcOf(s, t);
            && (Wins(s, pc) ==> s'.flags == s.flags[pc.obj := Next(pc)])
            && (!Wins(s, pc) ==> s'.flags == s.flags || (ch.Fresh? && ch.obj !in s.flags && s'.flags == s.flags[ch.obj := IDLE_FLAGS]))
  {
    var pc := PcOf(s, t);
    assert HasObj(pc) ==> pc.obj in s.flags;
    hide Located, OnlyMoves, Quiet, Mapped, Mark, Queue, Start, Finish, Drop;
  }

  lemma NextFits(pc: Pc)
    requires Swaps(pc) && FlagsFit(pc.seen)
    requires pc.MarkCas? ==> pc.seen.queued
    ensures FlagsFit(Next(pc))
    ensures Next(pc).running <==> pc.MarkCas? || (pc.seen.running && !pc.FinishCas?)
  {
  }

  lemma FlagsStayFit(s: State, s': State, t: Tid, ch: Choice)
    requires Located(s) && AllFit(s) && Shape(s, s', t, ch)
    ensures forall o :: o in s'.flags ==> FlagsFit(s'.flags[o])
  {
    var pc := PcOf(s, t);
    ShapeFlags(s, s', t, ch);
    if Wins(s, pc) {
      assert FlagsFit(s.flags[pc.obj]);
      NextFits(pc);
    }
    hide Shape, Located, Next;
  }

  lemma SeenFit(s: State, s': State, t: Tid, ch: Choice)
    requires Located(s) && AllFit(s) && Shape(s, s', t, ch)
    ensures PcOf(s', t).EnqCas? ==> FlagsFit(PcOf(s', t).seen)
    ensures PcOf(s', t).MarkCas? ==> PcOf(s', t).seen.queued
  {
    var pc := PcOf(s, t);
    assert HasObj(pc) ==> pc.obj in s.flags && FlagsFit(s.flags[pc.obj]);
    hide Located, AllFit, OnlyMoves, Mapped, FlagsFit;
  }

  /** A thread comes to own an object by starting it, and gives it up by finishing. */
  lemma ShapeOwns(s: State, s': State, t: Tid, ch: Choice, o: Obj)
    requires Located(s) && Shape(s, s', t, ch)
    ensures var pc, pc' := PcOf(s, t), PcOf(s', t);
            && (Owns(pc', o) && !Owns(pc, o) <==> pc.MarkCas? && Wins(s, pc) && pc.obj == o)
            && (Owns(pc, o) && !Owns(pc', o) <==> pc.FinishCas? && Wins(s, pc) && pc.obj == o)
  {
    var pc := PcOf(s, t);
    assert HasObj(pc) ==> pc.obj in s.flags;
    hide Located, OnlyMoves, Mapped, Mark, Queue, Start, Finish, Drop, Swapped, SameObjects;
  }

  /** A step only makes an idle object run by becoming its owner, and only stops
      one by giving it up. */
  lemma StepRuns(s: State, s': State, t: Tid, ch: Choice)
    requires Located(s) && AllFit(s) && Shape(s, s', t, ch)
    requires forall o :: Owned(s, o, t) ==> o in s.flags && s.flags[o].running
    ensures s.flags.Keys <= s'.flags.Keys
    ensures forall o :: Owned(s', o, t) && !Owned(s, o, t) ==> o in s.flags && !s.flags[o].running && s'.flags[o].running
    ensures forall o :: Owned(s, o, t) && !Owned(s', o, t) ==> !s'.flags[o].running
    ensures forall o :: o in s'.flags && (Owned(s', o, t) <==> Owned(s, o, t)) ==>
              (s'.flags[o].running <==> o in s.flags && s.flags[o].running)
  {
    var pc := PcOf(s, t);
    ShapeFlags(s, s', t, ch);
    forall o ensures (Owned(s', o, t) && !Owned(s, o, t) <==> pc.MarkCas? && Wins(s, pc) && pc.obj == o)
                     && (Owned(s, o, t) && !Owned(s', o, t) <==> pc.FinishCas? && Wins(s, pc) && pc.obj == o)
    {
      ShapeOwns(s, s', t, ch, o);
    }
    if Wins(s, pc) {
      assert FlagsFit(s.flags[pc.obj]);
      NextFits(pc);
    }
    hide Shape, Located, AllFit, Next, Owned;
  }

  lemma StepOwner(s: State, s': State, t: Tid, ch: Choice)
    requires Located(s) && AllFit(s) && SingleOwner(s) && Shape(s, s', t, ch)
    ensures SingleOwner(s')
  {
    hide Located, AllFit;
    StepRuns(s, s', t, ch);
    assert OnlyMoves(s, s', t);
    hide Shape;
    forall o, u | u != t ensures Owned(s', o, u) <==> Owned(s, o, u) {
      assert PcOf(s', u) == PcOf(s, u);
    }
    hide Owned, OnlyMoves;
    forall o | o in s'.flags && s'.flags[o].running ensures exists u :: Owned(s', o, u) {
      if !Owned(s', o, t) {
        var u :| Owned(s, o, u);
        assert u != t;
        assert Owned(s', o, u);
      }
    }
  }

  /** A mapped idle object was one before, or the thread has to see to it. */
  lemma IdleBefore(s: State, s': State, t: Tid, ch: Choice, o: Obj)
    requires Located(s) && AllFit(s) && Shape(s, s', t, ch)
    requires o in s'.flags && Mapped(s', o) && s'.flags[o] == IDLE_FLAGS && !Due(PcOf(s', t), o)
    ensures o in s.flags && Mapped(s, o) && s.flags[o] == IDLE_FLAGS && !Due(PcOf(s, t), o)
  {
    var pc := PcOf(s, t);
    assert HasObj(pc) ==> pc.obj in s.flags && FlagsFit(s.flags[pc.obj]);
    hide Located, AllFit, OnlyMoves;
  }

  lemma StepNoLeak(s: State, s': State, t: Tid, ch: Choice)
    requires Located(s) && AllFit(s) && NoLeak(s) && Shape(s, s', t, ch)
    ensures NoLeak(s')
  {
    assert OnlyMoves(s, s', t);
    forall o | o in s'.flags && Mapped(s', o) && s'.flags[o] == IDLE_FLAGS
      ensures exists u :: Due(PcOf(s', u), o)
    {
      if !Due(PcOf(s', t), o) {
        IdleBefore(s, s', t, ch, o);
        hide Shape, Located, AllFit;
        var u :| Due(PcOf(s, u), o);
        assert PcOf(s', u) == PcOf(s, u);
      }
    }
  }
}
