/** The race between building a node's outbound and removing the node: any number
    of threads ensure, remove and re-create; each step below is one pool access,
    one load, one compare-and-swap, one swap or one close of one thread. */
module OutboundLifecycle {
  import opened Types

  type Ent = int
  type Ob = int
  type Tid = int

  datatype Pc =
    | Idle
      // ensuring
    | Lookup(hash: Hash)
    | CheckMissing(hash: Hash, ent: Ent)
    | Build(hash: Hash, ent: Ent)
    | CheckLive(hash: Hash, ent: Ent, built: Ob)
    | Store(hash: Hash, ent: Ent, built: Ob)
    | Recheck(hash: Hash, ent: Ent)
      // giving up an outbound
    | TakeOut(ent: Ent)
    | Close(built: Ob)

  /** Entries are objects: a hash removed and added again gets a new one. */
  datatype State = State(
    pool: map<Hash, Ent>,
    outbound: map<Ent, Option<Ob>>,
    built: set<Ob>,
    closed: map<Ob, nat>,
    threads: map<Tid, Pc>)

  datatype Choice = Ensure(hash: Hash) | Add(hash: Hash, ent: Ent) | Remove(hash: Hash) | Built(ob: Ob) | BuildFails | Go

  const START := State(map[], map[], {}, map[], map[])

  function PcOf(s: State, t: Tid): Pc {
    if t in s.threads then s.threads[t] else Idle
  }

  function OutboundOf(s: State, e: Ent): Option<Ob> {
    if e in s.outbound then s.outbound[e] else None
  }

  function Closed(s: State, x: Ob): nat {
    if x in s.closed then s.closed[x] else 0
  }

  predicate Live(s: State, h: Hash, e: Ent) {
    h in s.pool && s.pool[h] == e
  }

  predicate Enabled(s: State, t: Tid, ch: Choice) {
    match PcOf(s, t)
    case Idle =>
      ch.Ensure? || (ch.Add? && ch.hash !in s.pool && ch.ent !in s.outbound) || (ch.Remove? && ch.hash in s.pool)
    case Build(_, _) => ch.BuildFails? || (ch.Built? && ch.ob !in s.built)
    case _ => ch.Go?
  }

  function Move(s: State, t: Tid, pc: Pc): State {
    s.(threads := s.threads[t := pc])
  }

  function After(s: State, t: Tid, ch: Choice): State
    requires Enabled(s, t, ch)
  {
    match PcOf(s, t)
    case Idle =>
      if ch.Ensure? then Move(s, t, Lookup(ch.hash))
      else if ch.Add? then s.(pool := s.pool[ch.hash := ch.ent], outbound := s.outbound[ch.ent := None])
      else Move(s.(pool := s.pool - {ch.hash}), t, TakeOut(s.pool[ch.hash]))
    case Lookup(h) => Move(s, t, if h in s.pool then CheckMissing(h, s.pool[h]) else Idle)
    case CheckMissing(h, e) => Move(s, t, if OutboundOf(s, e).Some? then Idle else Build(h, e))
    case Build(h, e) =>
      if ch.BuildFails? then Move(s, t, Idle)
      else Move(s.(built := s.built + {ch.ob}), t, CheckLive(h, e, ch.ob))
    case CheckLive(h, e, x) => Move(s, t, if Live(s, h, e) then Store(h, e, x) else Close(x))
    case Store(h, e, x) =>
      if OutboundOf(s, e).None? then Move(s.(outbound := s.outbound[e := Some(x)]), t, Recheck(h, e))
      else Move(s, t, Close(x))
    case Recheck(h, e) => Move(s, t, if Live(s, h, e) then Idle else TakeOut(e))
    case TakeOut(e) =>
      var taken := OutboundOf(s, e);
      Move(s.(outbound := s.outbound[e := None]), t, if taken.Some? then Close(taken.value) else Idle)
    case Close(x) => Move(s.(closed := s.closed[x := Closed(s, x) + 1]), t, Idle)
  }

  // ------------------------------------------------------------------
  // Ownership
  // ------------------------------------------------------------------

  predicate Holds(pc: Pc, x: Ob) {
    (pc.CheckLive? || pc.Store? || pc.Close?) && pc.built == x
  }

  datatype Place = InEntry(ent: Ent) | InThread(t: Tid)

  /** The outbound is stored in the entry, or in the thread's hands. */
  predicate At(s: State, x: Ob, p: Place) {
    match p
    case InEntry(e) => OutboundOf(s, e) == Some(x)
    case InThread(t) => Holds(PcOf(s, t), x)
  }

  /** Every outbound is in one place at a time until it is closed, once. */
  ghost predicate OneOwner(s: State) {
    && (forall x, p :: At(s, x, p) ==> x in s.built && Closed(s, x) == 0)
    && (forall x, p, q :: At(s, x, p) && At(s, x, q) ==> p == q)
    && (forall x :: Closed(s, x) <= 1 && (x !in s.built ==> Closed(s, x) == 0))
  }

  ghost predicate NoneForgotten(s: State) {
    forall x :: x in s.built && Closed(s, x) == 0 ==> exists p :: At(s, x, p)
  }

  predicate Cleans(pc: Pc, e: Ent) {
    (pc.Recheck? || pc.TakeOut?) && pc.ent == e
  }

  /** An entry that left the pool and still has an outbound has a thread coming
      to take it out. */
  ghost predicate DeadAreCleaned(s: State) {
    (forall e :: OutboundOf(s, e).Some? ==> (exists h :: Live(s, h, e)) || exists t :: Cleans(PcOf(s, t), e))
  }

  predicate Names(pc: Pc) {
    pc.CheckMissing? || pc.Build? || pc.CheckLive? || pc.Store? || pc.Recheck?
  }

  /** Threads name an entry under its own hash, so a thread that finds the entry
      gone from that hash knows it is dead. */
  ghost predicate Named(s: State) {
    && (forall t :: Names(PcOf(s, t)) || PcOf(s, t).TakeOut? ==> PcOf(s, t).ent in s.outbound)
    && (forall h, t :: Names(PcOf(s, t)) && Live(s, h, PcOf(s, t).ent) ==> h == PcOf(s, t).hash)
    && (forall h, g, e :: Live(s, h, e) && Live(s, g, e) ==> h == g)
    && (forall h, e :: Live(s, h, e) ==> e in s.outbound)
  }

  ghost predicate Inv(s: State) {
    OneOwner(s) && NoneForgotten(s) && DeadAreCleaned(s) && Named(s)
  }

  predicate OnlyMoves(s: State, s': State, t: Tid) {
    s'.threads == s.threads || s'.threads == s.threads[t := PcOf(s', t)]
  }

  lemma Others(s: State, s': State, t: Tid, u: Tid)
    requires OnlyMoves(s, s', t) && u != t
    ensures PcOf(s', u) == PcOf(s, u)
  {
  }

  /** Where an outbound that is at a place after the step was before it. */
  function CameFrom(s: State, t: Tid, p: Place): Place {
    var pc := PcOf(s, t);
    match p
    case InThread(u) => if u == t && pc.TakeOut? then InEntry(pc.ent) else p
    case InEntry(e) => if pc.Store? && e == pc.ent && OutboundOf(s, e).None? then InThread(t) else p
  }

  lemma StepPlaces(s: State, t: Tid, ch: Choice, x: Ob, p: Place)
    requires Enabled(s, t, ch) && At(After(s, t, ch), x, p)
    ensures (PcOf(s, t).Build? && ch == Built(x) && p == InThread(t)) || At(s, x, CameFrom(s, t, p))
  {
    if p.InThread? && p.t != t {
      Others(s, After(s, t, ch), t, p.t);
    }
  }

  lemma CloserHolds(s: State, t: Tid)
    ensures PcOf(s, t).Close? ==> At(s, PcOf(s, t).built, InThread(t))
  {
  }

  lemma StepOneOwner(s: State, t: Tid, ch: Choice)
    requires OneOwner(s) && Enabled(s, t, ch) && Named(s)
    ensures OneOwner(After(s, t, ch))
  {
    var s' := After(s, t, ch);
    CloserHolds(s, t);
    forall x, p | At(s', x, p) ensures x in s'.built && Closed(s', x) == 0 {
      StepPlaces(s, t, ch, x, p);
    }
    forall x, p, q | At(s', x, p) && At(s', x, q) ensures p == q {
      StepPlaces(s, t, ch, x, p);
      StepPlaces(s, t, ch, x, q);
    }
    forall x ensures Closed(s', x) <= 1 && (x !in s'.built ==> Closed(s', x) == 0) {
      assert Closed(s, x) <= 1;
    }
  }

  lemma StepNoneForgotten(s: State, t: Tid, ch: Choice)
    requires OneOwner(s) && NoneForgotten(s) && Enabled(s, t, ch) && Named(s)
    ensures NoneForgotten(After(s, t, ch))
  {
    var s' := After(s, t, ch);
    var pc, pc' := PcOf(s, t), PcOf(s', t);
    forall x | x in s'.built && Closed(s', x) == 0 ensures exists p :: At(s', x, p) {
      if Holds(pc', x) {
        assert At(s', x, InThread(t));
      } else {
        var p :| At(s, x, p);
        if pc.Store? && p == InThread(t) {
          assert At(s', x, InEntry(pc.ent));
        } else {
          if p.InThread? && p.t != t {
            Others(s, s', t, p.t);
          }
          assert At(s', x, p);
        }
      }
    }
  }

  lemma PoolStep(s: State, t: Tid, ch: Choice)
    requires Enabled(s, t, ch)
    ensures var s', pc := After(s, t, ch), PcOf(s, t);
            && s'.pool == (if pc.Idle? && ch.Add? then s.pool[ch.hash := ch.ent]
                           else if pc.Idle? && ch.Remove? then s.pool - {ch.hash} else s.pool)
            && (forall e :: e in s.outbound ==> e in s'.outbound)
            && (pc.Idle? && ch.Add? ==> ch.ent in s'.outbound)
  {
  }

  /** A thread comes to name an entry by looking it up, and to take it out after
      naming it or removing it. */
  lemma NamesStep(s: State, t: Tid, ch: Choice)
    requires Enabled(s, t, ch)
    ensures var pc, pc' := PcOf(s, t), PcOf(After(s, t, ch), t);
            && (Names(pc') ==> (Names(pc) && pc'.ent == pc.ent && pc'.hash == pc.hash)
                               || (pc.Lookup? && Live(s, pc'.hash, pc'.ent)))
            && (pc'.TakeOut? ==> (Names(pc) && pc'.ent == pc.ent) || (pc.Idle? && ch.Remove? && Live(s, ch.hash, pc'.ent)))
  {
  }

  lemma StepNamed(s: State, t: Tid, ch: Choice)
    requires Named(s) && Enabled(s, t, ch)
    ensures Named(After(s, t, ch))
  {
    var s' := After(s, t, ch);
    var pc := PcOf(s, t);
    PoolStep(s, t, ch);
    NamesStep(s, t, ch);
    forall u | u != t ensures PcOf(s', u) == PcOf(s, u) {
      Others(s, s', t, u);
    }
    forall h, e | Live(s', h, e) ensures Live(s, h, e) || (pc.Idle? && ch.Add? && h == ch.hash && e == ch.ent) {
      hide After, Names;
    }
    assert pc.Idle? && ch.Add? ==> ch.ent !in s.outbound;
    hide After, Names, Enabled, OnlyMoves;
  }

  /** An outbound in an entry was there before, its entry is as live as before, and
      who cleans it keeps to it unless it is live. */
  lemma OutboundStep(s: State, t: Tid, ch: Choice, e: Ent)
    requires Enabled(s, t, ch)
    requires OutboundOf(After(s, t, ch), e).Some? && !Cleans(PcOf(After(s, t, ch), t), e)
    ensures OutboundOf(s, e).Some?
    ensures forall h :: Live(s, h, e) ==> Live(After(s, t, ch), h, e)
    ensures Cleans(PcOf(s, t), e) ==> exists h :: Live(s, h, e)
  {
    if PcOf(s, t).Recheck? {
      assert Live(s, PcOf(s, t).hash, PcOf(s, t).ent) || Cleans(PcOf(After(s, t, ch), t), PcOf(s, t).ent);
    }
  }

  lemma StepDeadAreCleaned(s: State, t: Tid, ch: Choice)
    requires DeadAreCleaned(s) && Enabled(s, t, ch)
    ensures DeadAreCleaned(After(s, t, ch))
  {
    var s' := After(s, t, ch);
    forall e | OutboundOf(s', e).Some?
      ensures (exists h :: Live(s', h, e)) || exists u :: Cleans(PcOf(s', u), e)
    {
      if !Cleans(PcOf(s', t), e) {
        OutboundStep(s, t, ch, e);
        if h :| Live(s, h, e) {
          assert Live(s', h, e);
        } else {
          var u :| Cleans(PcOf(s, u), e);
          assert u != t;
          Others(s, s', t, u);
        }
      }
      hide After, Live, Enabled;
    }
  }

  lemma Step(s: State, t: Tid, ch: Choice)
    requires Inv(s) && Enabled(s, t, ch)
    ensures Inv(After(s, t, ch))
  {
    hide OneOwner, NoneForgotten, DeadAreCleaned, Named, After;
    StepOneOwner(s, t, ch);
    StepNoneForgotten(s, t, ch);
    StepDeadAreCleaned(s, t, ch);
    StepNamed(s, t, ch);
  }

  // ------------------------------------------------------------------
  // Whole runs
  // ------------------------------------------------------------------

  datatype Action = Action(t: Tid, ch: Choice)

  predicate ValidRun(run: seq<Action>)
    decreases |run|, 0
  {
    run == [] ||
    (ValidRun(run[..|run| - 1]) && Enabled(Run(run[..|run| - 1]), run[|run| - 1].t, run[|run| - 1].ch))
  }

  function Run(run: seq<Action>): State
    requires ValidRun(run)
    decreases |run|, 1
  {
    if run == [] then START else After(Run(run[..|run| - 1]), run[|run| - 1].t, run[|run| - 1].ch)
  }

  lemma {:induction false} RunInv(run: seq<Action>)
    requires ValidRun(run)
    ensures Inv(Run(run))
  {
    if run != [] {
      RunInv(run[..|run| - 1]);
      hide Inv, After;
      Step(Run(run[..|run| - 1]), run[|run| - 1].t, run[|run| - 1].ch);
    }
  }

  /** In every interleaving of ensures, removals and re-creations, a built
      outbound is closed at most once, and until then it is in exactly one place. */
  lemma EveryOutboundOwnedOnce(run: seq<Action>, x: Ob)
    requires ValidRun(run) && x in Run(run).built
    ensures Closed(Run(run), x) <= 1
    ensures Closed(Run(run), x) == 0 <==> exists p :: At(Run(run), x, p)
    ensures forall p, q :: At(Run(run), x, p) && At(Run(run), x, q) ==> p == q
  {
    RunInv(run);
  }

  /** When every thread is done, each built outbound is stored in one entry that is
      in the pool, or was closed exactly once; no entry outside the pool has one. */
  lemma NothingLeaks(run: seq<Action>)
    requires ValidRun(run)
    requires forall t :: PcOf(Run(run), t).Idle?
    ensures forall e :: OutboundOf(Run(run), e).Some? ==> exists h :: Live(Run(run), h, e)
    ensures forall x :: x in Run(run).built ==>
              Closed(Run(run), x) == 1 || (Closed(Run(run), x) == 0 && exists e :: At(Run(run), x, InEntry(e)))
  {
    RunInv(run);
    hide Run;
    var s := Run(run);
    forall x | x in s.built ensures Closed(s, x) == 1 || (Closed(s, x) == 0 && exists e :: At(s, x, InEntry(e))) {
      if Closed(s, x) == 0 {
        var p :| At(s, x, p);
        assert p.InEntry?;
        assert At(s, x, InEntry(p.ent));
      }
    }
  }
}
