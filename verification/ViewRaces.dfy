/** One platform's view under concurrency: threads change nodes first and only then
    take the view's lock, look at the nodes field by field, and write. */
module ViewRaces {
  import opened Types

  type Tid = int

  /** The filter asks this many questions about a node, one after the other. */
  const QUESTIONS: nat := 6

  type Facts = f: seq<bool> | |f| == QUESTIONS witness [false, false, false, false, false, false]

  /** Where a thread is.  rest: the nodes a rebuild still has to visit; none for
      the notification of a single node. */
  datatype Pc =
    | Idle
    | Owes(h: Hash)
    | OwesAll
      // holding the lock
    | Clearing
    | Looking(h: Hash, rest: Option<set<Hash>>)
    | Reading(h: Hash, next: nat, rest: Option<set<Hash>>)
    | Decided(h: Hash, ok: bool, rest: Option<set<Hash>>)
    | Between(todo: set<Hash>)

  datatype State = State(nodes: map<Hash, Facts>, view: set<Hash>, lock: Option<Tid>, threads: map<Tid, Pc>)

  datatype Step =
    | Change(h: Hash, facts: Option<Facts>)
    | ChangeAll(nodes: map<Hash, Facts>)
    | Acquire
    | Clear(todo: set<Hash>)
    | Visit(h: Hash)
    | Look(found: bool)
    | Read(answer: bool)
    | Write
    | Release

  function PcOf(s: State, t: Tid): Pc {
    if t in s.threads then s.threads[t] else Idle
  }

  predicate Holding(pc: Pc) {
    pc.Clearing? || pc.Looking? || pc.Reading? || pc.Decided? || pc.Between?
  }

  predicate Eligible(s: State, h: Hash) {
    h in s.nodes && forall i :: 0 <= i < QUESTIONS ==> s.nodes[h][i]
  }

  /** A thread that changed the node has not come to evaluate it yet. */
  ghost predicate Owed(s: State, h: Hash) {
    exists t :: PcOf(s, t) == Owes(h) || PcOf(s, t) == OwesAll
  }

  /** A thread may go on changing what it owes.  While a change is owed, an
      evaluation may still see the node as it was. */
  ghost predicate Enabled(s: State, t: Tid, step: Step) {
    var pc := PcOf(s, t);
    match step
    case Change(h, _) => pc.Idle? || pc == Owes(h)
    case ChangeAll(_) => pc.Idle? || pc.OwesAll?
    case Acquire => (pc.Owes? || pc.OwesAll?) && s.lock.None?
    case Clear(todo) => pc.Clearing? && s.nodes.Keys <= todo
    case Visit(h) => pc.Between? && h in pc.todo
    case Look(found) => pc.Looking? && (found == (pc.h in s.nodes) || Owed(s, pc.h))
    case Read(answer) => pc.Reading? && pc.next < QUESTIONS && ((pc.h in s.nodes && answer == s.nodes[pc.h][pc.next]) || Owed(s, pc.h))
    case Write => pc.Decided?
    case Release => pc.Between? && pc.todo == {}
  }

  function Move(s: State, t: Tid, pc: Pc): State {
    s.(threads := s.threads[t := pc])
  }

  ghost function After(s: State, t: Tid, step: Step): State
    requires Enabled(s, t, step)
  {
    var pc := PcOf(s, t);
    match step
    case Change(h, facts) => Move(s.(nodes := if facts.Some? then s.nodes[h := facts.value] else s.nodes - {h}), t, Owes(h))
    case ChangeAll(nodes) => Move(s.(nodes := nodes), t, OwesAll)
    case Acquire => Move(s.(lock := Some(t)), t, if pc.Owes? then Looking(pc.h, None) else Clearing)
    case Clear(todo) => Move(s.(view := {}), t, Between(todo))
    case Visit(h) => Move(s, t, Looking(h, Some(pc.todo - {h})))
    case Look(found) => Move(s, t, if found then Reading(pc.h, 0, pc.rest) else Decided(pc.h, false, pc.rest))
    case Read(answer) =>
      Move(s, t, if !answer then Decided(pc.h, false, pc.rest)
                 else if pc.next + 1 == QUESTIONS then Decided(pc.h, true, pc.rest)
                 else Reading(pc.h, pc.next + 1, pc.rest))
    case Write =>
      if pc.rest.None? then Move(s.(view := if pc.ok then s.view + {pc.h} else s.view - {pc.h}, lock := None), t, Idle)
      else Move(s.(view := if pc.ok then s.view + {pc.h} else s.view), t, Between(pc.rest.value))
    case Release => Move(s.(lock := None), t, Idle)
  }

  // ------------------------------------------------------------------
  // The invariant
  // ------------------------------------------------------------------

  /** The lock is held by exactly the thread that works under it. */
  ghost predicate Locked(s: State) {
    forall t :: Holding(PcOf(s, t)) <==> s.lock == Some(t)
  }

  function Holder(s: State): Pc {
    if s.lock.Some? then PcOf(s, s.lock.value) else Idle
  }

  predicate Agrees(s: State, h: Hash) {
    h in s.view <==> Eligible(s, h)
  }

  /** A rebuild with these nodes to go has the others right, and none of these. */
  predicate Rebuilt(s: State, todo: set<Hash>, h: Hash) {
    if h in todo then h !in s.view else Agrees(s, h)
  }

  /** The node a rebuild is visiting is neither in the view nor to be visited again. */
  predicate Fresh(s: State, h: Hash, rest: Option<set<Hash>>) {
    rest.Some? ==> h !in s.view && h !in rest.value
  }

  predicate Elsewhere(s: State, h: Hash, rest: Option<set<Hash>>) {
    if rest.Some? then Rebuilt(s, rest.value, h) else Agrees(s, h)
  }

  /** Nobody owes the node an evaluation: then whoever holds the lock will get it
      right, or it is right. */
  predicate OnTrack(s: State, h: Hash) {
    match Holder(s)
    case Clearing => true
    case Between(todo) => Rebuilt(s, todo, h)
    case Looking(g, rest) => if g == h then Fresh(s, h, rest) else Elsewhere(s, h, rest)
    case Reading(g, next, rest) =>
      if g == h then Fresh(s, h, rest) && h in s.nodes && next < QUESTIONS && forall i :: 0 <= i < next ==> s.nodes[h][i]
      else Elsewhere(s, h, rest)
    case Decided(g, ok, rest) => if g == h then Fresh(s, h, rest) && ok == Eligible(s, h) else Elsewhere(s, h, rest)
    case _ => Agrees(s, h)
  }

  ghost predicate Inv(s: State) {
    Locked(s) && forall h :: Owed(s, h) || OnTrack(s, h)
  }

  lemma StepLocked(s: State, t: Tid, step: Step)
    requires Locked(s) && Enabled(s, t, step)
    ensures Locked(After(s, t, step))
  {
    var s' := After(s, t, step);
    forall u ensures Holding(PcOf(s', u)) <==> s'.lock == Some(u) {
      assert Holding(PcOf(s, u)) <==> s.lock == Some(u);
      assert Holding(PcOf(s, t)) <==> s.lock == Some(t);
      assert u != t ==> PcOf(s', u) == PcOf(s, u);
    }
  }

  lemma OwedUntilTaken(s: State, t: Tid, step: Step, h: Hash)
    requires Enabled(s, t, step) && Owed(s, h) && !(step.Acquire? && (PcOf(s, t) == Owes(h) || PcOf(s, t).OwesAll?))
    ensures Owed(After(s, t, step), h)
  {
    var s' := After(s, t, step);
    var u :| PcOf(s, u) == Owes(h) || PcOf(s, u) == OwesAll;
    if u == t {
      assert PcOf(s', t) == Owes(h) || PcOf(s', t) == OwesAll;
    } else {
      assert PcOf(s', u) == PcOf(s, u);
    }
  }

  /** A change is owed at once. */
  lemma ChangeOwed(s: State, t: Tid, step: Step, h: Hash)
    requires Enabled(s, t, step) && (step.ChangeAll? || (step.Change? && step.h == h))
    ensures Owed(After(s, t, step), h)
  {
    var s' := After(s, t, step);
    assert PcOf(s', t) == Owes(h) || PcOf(s', t) == OwesAll;
  }

  /** The thread that takes the lock takes on what it owed. */
  lemma AcquireOnTrack(s: State, t: Tid, h: Hash)
    requires Locked(s) && Enabled(s, t, Acquire) && (Owed(s, h) || OnTrack(s, h))
    ensures Owed(After(s, t, Acquire), h) || OnTrack(After(s, t, Acquire), h)
  {
    var s', pc := After(s, t, Acquire), PcOf(s, t);
    assert Holder(s') == if pc.Owes? then Looking(pc.h, None) else Clearing;
    if Owed(s, h) && !(pc == Owes(h) || pc.OwesAll?) {
      OwedUntilTaken(s, t, Acquire, h);
    }
    hide Owed;
  }

  /** Somebody else's change leaves the node, and whoever evaluates it, alone. */
  lemma ChangeOnTrack(s: State, t: Tid, step: Step, h: Hash)
    requires Locked(s) && Enabled(s, t, step) && step.Change? && step.h != h && OnTrack(s, h)
    ensures OnTrack(After(s, t, step), h)
  {
    var s' := After(s, t, step);
    assert !Holding(PcOf(s, t));
    assert Holder(s') == Holder(s);
    assert Eligible(s', h) == Eligible(s, h);
  }

  lemma HolderOnTrack(s: State, t: Tid, step: Step, h: Hash)
    requires Locked(s) && Enabled(s, t, step) && !step.Change? && !step.ChangeAll? && !step.Acquire?
    requires !Owed(s, h) && OnTrack(s, h)
    ensures OnTrack(After(s, t, step), h)
  {
    var s', pc := After(s, t, step), PcOf(s, t);
    assert Holding(pc) && s.lock == Some(t) && Holder(s) == pc;
    hide Owed, Locked;
    assert Holder(s') == if s'.lock.Some? then PcOf(s', t) else Idle;
    assert Eligible(s', h) == Eligible(s, h);
  }

  lemma StepInv(s: State, t: Tid, step: Step)
    requires Inv(s) && Enabled(s, t, step)
    ensures Inv(After(s, t, step))
  {
    StepLocked(s, t, step);
    var s' := After(s, t, step);
    forall h ensures Owed(s', h) || OnTrack(s', h) {
      assert Owed(s, h) || OnTrack(s, h);
      hide OnTrack, Owed, After, Enabled, Locked;
      if step.ChangeAll? || (step.Change? && step.h == h) {
        ChangeOwed(s, t, step, h);
      } else if step.Acquire? {
        AcquireOnTrack(s, t, h);
      } else if Owed(s, h) {
        OwedUntilTaken(s, t, step, h);
      } else if step.Change? {
        ChangeOnTrack(s, t, step, h);
      } else {
        HolderOnTrack(s, t, step, h);
      }
    }
  }

  // ------------------------------------------------------------------
  // Every interleaving
  // ------------------------------------------------------------------

  datatype Action = Action(t: Tid, step: Step)

  const START := State(map[], {}, None, map[])

  ghost predicate ValidRun(run: seq<Action>)
    decreases |run|, 0
  {
    run == [] || (ValidRun(run[..|run| - 1]) && Enabled(Run(run[..|run| - 1]), run[|run| - 1].t, run[|run| - 1].step))
  }

  ghost function Run(run: seq<Action>): State
    requires ValidRun(run)
    decreases |run|, 1
  {
    if run == [] then START else After(Run(run[..|run| - 1]), run[|run| - 1].t, run[|run| - 1].step)
  }

  lemma {:induction false} AlwaysInv(run: seq<Action>)
    requires ValidRun(run)
    ensures Inv(Run(run))
  {
    if run != [] {
      AlwaysInv(run[..|run| - 1]);
      hide Inv, After, Enabled;
      StepInv(Run(run[..|run| - 1]), run[|run| - 1].t, run[|run| - 1].step);
    }
  }

  /** In every interleaving of changes, notifications and rebuilds, a node whose
      changes have all been taken up, while nobody works on the view, is in it
      exactly when it is eligible; so at rest the view is exactly the re-filter. */
  lemma ViewExactAtRest(run: seq<Action>)
    requires ValidRun(run)
    ensures forall h :: Run(run).lock.None? && !Owed(Run(run), h) ==> (h in Run(run).view <==> Eligible(Run(run), h))
    ensures (forall t :: PcOf(Run(run), t).Idle?) ==> forall h :: h in Run(run).view <==> Eligible(Run(run), h)
  {
    AlwaysInv(run);
    hide Run, ValidRun;
    var s := Run(run);
    if forall t :: PcOf(s, t).Idle? {
      assert s.lock.Some? ==> Holding(PcOf(s, s.lock.value));
      assert s.lock.None?;
      forall h ensures !Owed(s, h) {
      }
    }
  }
}
