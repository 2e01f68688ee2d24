/** Request metrics: cumulative counters, buckets of time, and a retry queue into
    the database.  What is counted once is stored once. */
module Metrics {
  /** The global scope, or a platform. */
  datatype Scope = Global | Platform(id: int)

  datatype Counts = Counts(total: int, success: int)

  const ZERO := Counts(0, 0)

  function Plus(a: Counts, b: Counts): Counts {
    Counts(a.total + b.total, a.success + b.success)
  }

  function Minus(a: Counts, b: Counts): Counts {
    Counts(a.total - b.total, a.success - b.success)
  }

  lemma PlusSwap(a: Counts, b: Counts, c: Counts)
    ensures Plus(a, Plus(b, c)) == Plus(b, Plus(a, c))
  {
  }

  function At(m: map<Scope, Counts>, s: Scope): Counts {
    if s in m then m[s] else ZERO
  }

  function Add(m: map<Scope, Counts>, s: Scope, c: Counts): map<Scope, Counts> {
    m[s := Plus(At(m, s), c)]
  }

  /** A finished bucket, and where its rows go. */
  datatype Data = Data(start: int, requests: map<Scope, Counts>)

  datatype RowKey = RowKey(start: int, scope: Scope)

  function NonNegative(x: int): int {
    if x < 0 then 0 else x
  }

  function Min(x: int, y: int): int {
    if x < y then x else y
  }

  /** How far a counter moved, never less than nothing. */
  function Delta(current: Counts, previous: Counts): Counts {
    var total := NonNegative(current.total - previous.total);
    Counts(total, Min(NonNegative(current.success - previous.success), total))
  }

  /** Unix time truncated to a bucket boundary. */
  function Truncate(now: int, width: int): int
    requires width > 0
  {
    if now >= 0 then now / width * width else -(-now / width * width)
  }

  lemma MulMonotone(a: int, b: int, width: int)
    requires width > 0 && a <= b
    ensures a * width <= b * width
  {
  }

  /** Quotient and remainder are unique. */
  lemma DivUnique(a: int, q: int, r: int, width: int)
    requires width > 0 && a == q * width + r && 0 <= r < width
    ensures a / width == q && a % width == r
  {
    var q', r' := a / width, a % width;
    assert a == q' * width + r';
    assert (q - q') * width == r' - r;
    if q > q' {
      MulMonotone(1, q - q', width);
    } else if q < q' {
      MulMonotone(q - q', -1, width);
    }
  }

  lemma TruncateAligned(now: int, width: int)
    requires width > 0
    ensures Truncate(now, width) % width == 0
  {
    var k := if now >= 0 then now / width else -(-now / width);
    assert Truncate(now, width) == k * width;
    DivUnique(k * width, k, 0, width);
  }

  /** Past the end of an aligned bucket, the new one starts no earlier than that end. */
  lemma TruncateAdvances(now: int, start: int, width: int)
    requires width > 0 && start % width == 0 && now >= start + width
    ensures Truncate(now, width) >= start + width
  {
    var k := start / width + 1;
    assert start + width == k * width;
    var q := if now >= 0 then now / width else -(-now / width);
    assert Truncate(now, width) == q * width > now - width;
    if q < k {
      MulMonotone(q, k - 1, width);
    }
    MulMonotone(k, q, width);
  }

  // ------------------------------------------------------------------
  // Sums
  // ------------------------------------------------------------------

  ghost function SumDelta(ids: set<Scope>, cum: map<Scope, Counts>, base: map<Scope, Counts>): Counts
    decreases ids
  {
    if ids == {} then ZERO
    else
      var s :| s in ids;
      Plus(Delta(At(cum, s), At(base, s)), SumDelta(ids - {s}, cum, base))
  }

  lemma {:induction false} SumSplit(ids: set<Scope>, cum: map<Scope, Counts>, base: map<Scope, Counts>, s: Scope)
    requires s in ids
    ensures SumDelta(ids, cum, base) == Plus(Delta(At(cum, s), At(base, s)), SumDelta(ids - {s}, cum, base))
    decreases ids
  {
    var t :| t in ids && SumDelta(ids, cum, base) == Plus(Delta(At(cum, t), At(base, t)), SumDelta(ids - {t}, cum, base));
    if t != s {
      assert ids - {s} - {t} == ids - {t} - {s};
      hide Plus, Delta, At;
      SumSplit(ids - {t}, cum, base, s);
      SumSplit(ids - {s}, cum, base, t);
      PlusSwap(Delta(At(cum, t), At(base, t)), Delta(At(cum, s), At(base, s)), SumDelta(ids - {s} - {t}, cum, base));
    }
  }

  lemma SumEmpty(cum: map<Scope, Counts>, base: map<Scope, Counts>)
    ensures SumDelta({}, cum, base) == ZERO
  {
  }

  lemma SumOne(s: Scope, cum: map<Scope, Counts>, base: map<Scope, Counts>)
    ensures SumDelta({s}, cum, base) == Delta(At(cum, s), At(base, s))
  {
    SumSplit({s}, cum, base, s);
    hide Delta, At;
    assert {s} - {s} == {};
    SumEmpty(cum, base);
  }

  lemma {:induction false} SumSame(ids: set<Scope>, cum: map<Scope, Counts>, cum': map<Scope, Counts>, base: map<Scope, Counts>)
    requires forall s :: s in ids ==> At(cum', s) == At(cum, s)
    ensures SumDelta(ids, cum', base) == SumDelta(ids, cum, base)
    decreases ids
  {
    if ids != {} {
      var s :| s in ids;
      SumSplit(ids, cum, base, s);
      SumSplit(ids, cum', base, s);
      SumSame(ids - {s}, cum, cum', base);
    }
  }

  lemma {:induction false} SumZero(ids: set<Scope>, cum: map<Scope, Counts>)
    ensures SumDelta(ids, cum, cum) == ZERO
    decreases ids
  {
    if ids != {} {
      var s :| s in ids;
      SumSplit(ids, cum, cum, s);
      SumZero(ids - {s}, cum);
    }
  }

  function SumData(ds: seq<Data>, s: Scope): Counts {
    if ds == [] then ZERO else Plus(SumData(ds[..|ds| - 1], s), At(ds[|ds| - 1].requests, s))
  }

  lemma {:induction false} SumDataRemove(ds: seq<Data>, i: nat, s: Scope)
    requires i < |ds|
    ensures SumData(ds, s) == Plus(SumData(ds[..i] + ds[i + 1..], s), At(ds[i].requests, s))
  {
    var init, last := ds[..|ds| - 1], ds[|ds| - 1];
    RemoveFromInit(ds, i);
    if i < |init| {
      SumDataRemove(init, i, s);
      SumDataLast(init[..i] + init[i + 1..], last, s);
      hide At;
    }
  }

  /** Removing an element other than the last leaves the last one last. */
  lemma RemoveFromInit(ds: seq<Data>, i: nat)
    requires i < |ds|
    ensures var n := |ds| - 1;
            ds[..i] + ds[i + 1..] == if i < n then ds[..n][..i] + ds[..n][i + 1..] + [ds[n]] else ds[..n]
  {
  }

  lemma SumDataLast(ds: seq<Data>, d: Data, s: Scope)
    ensures SumData(ds + [d], s) == Plus(SumData(ds, s), At(d.requests, s))
  {
    assert (ds + [d])[..|ds + [d]| - 1] == ds;
  }

  function Row(db: map<RowKey, Counts>, start: int, s: Scope): Counts {
    if RowKey(start, s) in db then db[RowKey(start, s)] else ZERO
  }

  /** What the rows of the given buckets add up to. */
  function RowTotal(db: map<RowKey, Counts>, ds: seq<Data>, s: Scope): Counts {
    if ds == [] then ZERO else Plus(RowTotal(db, ds[..|ds| - 1], s), Row(db, ds[|ds| - 1].start, s))
  }

  lemma {:induction false} RowTotalSame(db: map<RowKey, Counts>, db': map<RowKey, Counts>, ds: seq<Data>, s: Scope)
    requires forall d :: d in ds ==> Row(db', d.start, s) == Row(db, d.start, s)
    ensures RowTotal(db', ds, s) == RowTotal(db, ds, s)
  {
    if ds != [] {
      RowTotalSame(db, db', ds[..|ds| - 1], s);
    }
  }

  // ------------------------------------------------------------------
  // The steps
  // ------------------------------------------------------------------

  /** cum: the collector's counters, since the start.  base: what was already moved
      into buckets.  loose: requests recorded without a platform.  inHand: buckets
      taken but not yet queued.  written: buckets popped after a complete write.
      found: the database as it was at start-up. */
  datatype State = State(
    width: int,
    cum: map<Scope, Counts>,
    loose: Counts,
    base: map<Scope, Counts>,
    looseBase: Counts,
    start: int,
    bucket: map<Scope, Counts>,
    inHand: seq<Data>,
    pending: seq<Data>,
    written: seq<Data>,
    db: map<RowKey, Counts>,
    found: map<RowKey, Counts>,
    stopped: bool)

  function Platforms(m: map<Scope, Counts>): set<Scope> {
    m.Keys - {Global}
  }

  /** What one aggregation adds to the global scope: the platform deltas, plus
      whatever the global counter moved beyond them. */
  function GlobalIncrease(delta: Counts, sum: Counts): Counts {
    var rest := NonNegative(delta.total - sum.total);
    Plus(sum, Counts(rest, Min(NonNegative(delta.success - sum.success), rest)))
  }

  /** globalCum and platformCum: the two snapshots the aggregation reads. */
  ghost predicate Aggregates(base: map<Scope, Counts>, globalCum: Counts, platformCum: map<Scope, Counts>,
                             bucket: map<Scope, Counts>, bucket': map<Scope, Counts>, base': map<Scope, Counts>) {
    && (forall s :: s != Global ==>
          At(bucket', s) == Plus(At(bucket, s), if s in platformCum then Delta(At(platformCum, s), At(base, s)) else ZERO))
    && At(bucket', Global) ==
         Plus(At(bucket, Global), GlobalIncrease(Delta(globalCum, At(base, Global)), SumDelta(Platforms(platformCum), platformCum, base)))
    && base' == platformCum[Global := globalCum]
  }

  /** The rows of a bucket, the global one always among them. */
  function WriteBucket(db: map<RowKey, Counts>, d: Data): map<RowKey, Counts> {
    map k | k in db.Keys + (set s | s in d.requests.Keys + {Global} :: RowKey(d.start, s)) ::
      if k.start == d.start && k.scope in d.requests.Keys + {Global} then At(d.requests, k.scope) else db[k]
  }

  /** How far an attempt to write the first pending bucket got: nothing; its rows,
      but not the tables after them; everything. */
  datatype Outcome = Failed | Partly | Complete

  datatype Step =
    | Record(scope: Scope, success: bool)
    | Advance(now: int)
    | Shutdown(others: bool)
    | Enqueue(i: nat)
    | WriteHead(outcome: Outcome)

  ghost predicate Moves(s: State, s': State, step: Step) {
    match step
    case Record(scope, success) =>
      var one := Counts(1, if success then 1 else 0);
      var cum := Add(s.cum, Global, one);
      s' == if scope == Global then s.(cum := cum, loose := Plus(s.loose, one)) else s.(cum := Add(cum, scope, one))
    case Advance(now) => !s.stopped && exists bucket :: AdvancesWith(s, s', now, bucket)
    case Shutdown(others) => !s.stopped && exists bucket :: StopsWith(s, s', others, bucket)
    case Enqueue(i) =>
      i < |s.inHand| && s' == s.(inHand := s.inHand[..i] + s.inHand[i + 1..], pending := s.pending + [s.inHand[i]])
    case WriteHead(outcome) =>
      && s.pending != []
      && var db := if outcome.Failed? then s.db else WriteBucket(s.db, s.pending[0]);
         s' == if outcome.Complete? then s.(db := db, pending := s.pending[1..], written := s.written + [s.pending[0]])
               else s.(db := db)
  }

  /** What the counters show has gone into the current bucket. */
  function Aggregated(s: State, bucket: map<Scope, Counts>): State {
    s.(base := s.cum[Global := At(s.cum, Global)], looseBase := s.loose, bucket := bucket)
  }

  ghost predicate Gathers(s: State, bucket: map<Scope, Counts>) {
    Aggregates(s.base, At(s.cum, Global), s.cum, s.bucket, bucket, s.cum[Global := At(s.cum, Global)])
  }

  /** Aggregate, then flush if the bucket's time is over, without interruption. */
  ghost predicate AdvancesWith(s: State, s': State, now: int, bucket: map<Scope, Counts>) {
    s.width > 0 && Gathers(s, bucket) && s' == Flushed(Aggregated(s, bucket), now)
  }

  /** At shutdown the current bucket is flushed before its time, unless nothing at
      all is in it; others: whether it holds anything but requests. */
  ghost predicate StopsWith(s: State, s': State, others: bool, bucket: map<Scope, Counts>) {
    Gathers(s, bucket) && s' == ForceFlushed(Aggregated(s, bucket), others).(stopped := true)
  }

  function ForceFlushed(s: State, others: bool): State {
    if s.bucket == map[] && !others then s
    else s.(inHand := s.inHand + [Data(s.start, s.bucket)], bucket := map[])
  }

  function Flushed(s: State, now: int): State
    requires s.width > 0
  {
    if now < s.start + s.width then s
    else s.(inHand := s.inHand + [Data(s.start, s.bucket)], start := Truncate(now, s.width), bucket := map[])
  }

  // ------------------------------------------------------------------
  // The invariant
  // ------------------------------------------------------------------

  predicate Sane(c: Counts) {
    0 <= c.success <= c.total
  }

  /** Both counters of a request are moved together, so the global counter is ahead
      by the platform counters and the unattributed requests. */
  ghost predicate Together(s: State) {
    && Global in s.cum && s.base.Keys <= s.cum.Keys
    && (forall sc :: sc in s.cum ==> Sane(Minus(At(s.cum, sc), At(s.base, sc))))
    && Sane(Minus(s.loose, s.looseBase))
    && Minus(At(s.cum, Global), At(s.base, Global)) ==
         Plus(SumDelta(Platforms(s.cum), s.cum, s.base), Minus(s.loose, s.looseBase))
  }

  /** All buckets ever finished. */
  function Finished(s: State): seq<Data> {
    s.written + s.pending + s.inHand
  }

  /** Bucket starts are aligned, and no two buckets share one; only the bucket
      flushed at shutdown is as late as the current one. */
  ghost predicate StartsDistinct(s: State) {
    && s.width > 0 && s.start % s.width == 0
    && (forall i :: 0 <= i < |Finished(s)| ==>
          Finished(s)[i].start % s.width == 0 && Finished(s)[i].start <= s.start && (!s.stopped ==> Finished(s)[i].start < s.start))
    && forall i, j :: 0 <= i < j < |Finished(s)| ==> Finished(s)[i].start != Finished(s)[j].start
  }

  /** The scopes a bucket has rows for. */
  predicate Covers(d: Data, s: Scope) {
    s in d.requests || s == Global
  }

  function RowAfter(found: map<RowKey, Counts>, d: Data, s: Scope): Counts {
    if Covers(d, s) then At(d.requests, s) else Row(found, d.start, s)
  }

  /** The bucket's rows are in the database, over the ones found there. */
  ghost predicate RowsOf(found: map<RowKey, Counts>, db: map<RowKey, Counts>, d: Data) {
    forall s :: Row(db, d.start, s) == RowAfter(found, d, s)
  }

  ghost predicate Untouched(found: map<RowKey, Counts>, db: map<RowKey, Counts>, start: int) {
    forall s :: Row(db, start, s) == Row(found, start, s)
  }

  predicate WrittenAt(ds: seq<Data>, start: int) {
    exists d :: d in ds && d.start == start
  }

  /** Beyond the written buckets' rows, the database is as it was found, but for
      rows of the first pending one. */
  ghost predicate RowsExact(s: State) {
    && (forall d :: d in s.written ==> RowsOf(s.found, s.db, d))
    && (forall start :: !WrittenAt(s.written, start) ==>
          || Untouched(s.found, s.db, start)
          || (s.pending != [] && start == s.pending[0].start && RowsOf(s.found, s.db, s.pending[0])))
  }

  ghost predicate Conserves(s: State, sc: Scope) {
    At(s.base, sc) == Plus(Plus(SumData(s.written, sc), SumData(s.pending, sc)), Plus(SumData(s.inHand, sc), At(s.bucket, sc)))
  }

  ghost predicate Inv(s: State) {
    Together(s) && StartsDistinct(s) && RowsExact(s) && forall sc :: Conserves(s, sc)
  }

  // ------------------------------------------------------------------
  // Every step keeps it
  // ------------------------------------------------------------------

  lemma RecordSum(s: State, scope: Scope, one: Counts)
    requires Together(s) && scope != Global && Sane(one)
    ensures var cum := Add(Add(s.cum, Global, one), scope, one);
            SumDelta(Platforms(cum), cum, s.base) == Plus(SumDelta(Platforms(s.cum), s.cum, s.base), one)
  {
    var cum := Add(Add(s.cum, Global, one), scope, one);
    var ids, ids' := Platforms(s.cum), Platforms(cum);
    assert ids' == ids + {scope};
    SumSplit(ids', cum, s.base, scope);
    assert ids' - {scope} == ids - {scope};
    SumSame(ids - {scope}, s.cum, cum, s.base);
    if scope in ids {
      SumSplit(ids, s.cum, s.base, scope);
    } else {
      assert ids - {scope} == ids;
    }
    var rest := SumDelta(ids - {scope}, s.cum, s.base);
    var c, b := At(s.cum, scope), At(s.base, scope);
    assert Sane(Minus(c, b));
    assert At(cum, scope) == Plus(c, one);
    hide SumDelta, Together, At;
    DeltaPlus(c, b, one, rest);
  }

  lemma DeltaPlus(c: Counts, b: Counts, one: Counts, rest: Counts)
    requires Sane(Minus(c, b)) && Sane(one)
    ensures Plus(Delta(Plus(c, one), b), rest) == Plus(Plus(Delta(c, b), rest), one)
    ensures c == b ==> Plus(Delta(c, b), rest) == rest
  {
  }

  lemma RecordAlgebra(c: Counts, b: Counts, sum: Counts, l: Counts, lb: Counts, one: Counts)
    requires Minus(c, b) == Plus(sum, Minus(l, lb))
    ensures Minus(Plus(c, one), b) == Plus(Plus(sum, one), Minus(l, lb))
    ensures Minus(Plus(c, one), b) == Plus(sum, Minus(Plus(l, one), lb))
    ensures Sane(Minus(l, lb)) && Sane(one) ==> Sane(Minus(Plus(l, one), lb))
  {
  }

  lemma SanePlus(c: Counts, b: Counts, one: Counts)
    requires Sane(Minus(c, b)) && Sane(one)
    ensures Sane(Minus(Plus(c, one), b))
  {
  }

  lemma RecordTogether(s: State, s': State, scope: Scope, success: bool)
    requires Together(s) && Moves(s, s', Record(scope, success))
    ensures Together(s')
  {
    hide SumDelta, Plus, Minus, Sane;
    var one := Counts(1, if success then 1 else 0);
    assert Sane(one) by {
      OneIsSane(success);
    }
    RecordAlgebra(At(s.cum, Global), At(s.base, Global), SumDelta(Platforms(s.cum), s.cum, s.base), s.loose, s.looseBase, one);
    forall sc | sc in s'.cum ensures Sane(Minus(At(s'.cum, sc), At(s.base, sc))) {
      if sc in s.cum {
        SanePlus(At(s.cum, sc), At(s.base, sc), one);
      } else {
        NewScope(one);
      }
    }
    if scope == Global {
      assert Platforms(s'.cum) == Platforms(s.cum);
      SumSame(Platforms(s.cum), s.cum, s'.cum, s.base);
    } else {
      RecordSum(s, scope, one);
    }
  }

  lemma OneIsSane(success: bool)
    ensures Sane(Counts(1, if success then 1 else 0))
  {
  }

  lemma NewScope(one: Counts)
    requires Sane(one)
    ensures Sane(Minus(Plus(ZERO, one), ZERO))
  {
  }

  lemma RecordInv(s: State, s': State, scope: Scope, success: bool)
    requires Inv(s) && Moves(s, s', Record(scope, success))
    ensures Inv(s')
  {
    RecordTogether(s, s', scope, success);
    hide StartsDistinct, RowsExact, Conserves, Together, Plus, Minus, Add;
    SameLedger(s, s');
  }

  /** Nothing but the counters changed. */
  lemma SameLedger(s: State, s': State)
    requires StartsDistinct(s) && RowsExact(s) && forall sc :: Conserves(s, sc)
    requires s'.(cum := s.cum, loose := s.loose) == s
    ensures StartsDistinct(s') && RowsExact(s') && forall sc :: Conserves(s', sc)
  {
    hide Plus, Minus;
    assert Finished(s') == Finished(s);
    forall sc ensures Conserves(s', sc) {
      assert Conserves(s, sc);
    }
  }

  /** Atomic snapshots: the aggregation adds to each scope exactly what its counter
      moved. */
  lemma AggregatesExactly(s: State, bucket: map<Scope, Counts>, base: map<Scope, Counts>, sc: Scope)
    requires Together(s) && Aggregates(s.base, At(s.cum, Global), s.cum, s.bucket, bucket, base)
    ensures Plus(At(bucket, sc), At(s.base, sc)) == Plus(At(s.bucket, sc), At(base, sc))
  {
    hide SumDelta, Plus, Minus, Delta, GlobalIncrease, Sane;
    var c, b, sum := At(s.cum, sc), At(s.base, sc), SumDelta(Platforms(s.cum), s.cum, s.base);
    if sc == Global {
      SumSane(Platforms(s.cum), s.cum, s.base);
      GlobalMoves(c, b, sum, s.loose, s.looseBase, At(s.bucket, sc));
    } else if sc in s.cum {
      DeltaMoves(c, b, At(s.bucket, sc));
    } else {
      NoMove(At(s.bucket, sc));
    }
  }

  lemma DeltaMoves(c: Counts, b: Counts, before: Counts)
    requires Sane(Minus(c, b))
    ensures Plus(Plus(before, Delta(c, b)), b) == Plus(before, c)
  {
  }

  lemma NoMove(before: Counts)
    ensures Plus(before, ZERO) == before
  {
  }

  lemma GlobalMoves(c: Counts, b: Counts, sum: Counts, l: Counts, lb: Counts, before: Counts)
    requires Sane(Minus(c, b)) && Sane(sum) && Sane(Minus(l, lb)) && Minus(c, b) == Plus(sum, Minus(l, lb))
    ensures Plus(Plus(before, GlobalIncrease(Delta(c, b), sum)), b) == Plus(before, c)
  {
  }

  lemma {:induction false} SumSane(ids: set<Scope>, cum: map<Scope, Counts>, base: map<Scope, Counts>)
    ensures Sane(SumDelta(ids, cum, base))
    decreases ids
  {
    if ids != {} {
      var s :| s in ids;
      SumSplit(ids, cum, base, s);
      SumSane(ids - {s}, cum, base);
    }
  }

  lemma AdvanceInv(s: State, s': State, now: int)
    requires Inv(s) && Moves(s, s', Advance(now))
    ensures Inv(s')
    ensures s'.start >= s.start && (s'.inHand != s.inHand ==> s'.start >= s.start + s.width)
  {
    hide Inv, Gathers, Flushed;
    var bucket :| AdvancesWith(s, s', now, bucket);
    var m := Aggregated(s, bucket);
    GatherInv(s, bucket);
    AdvanceStarts(m, s', now);
    FlushInv(m, s', Truncate(now, s.width), s.stopped);
  }

  lemma ShutdownInv(s: State, s': State, others: bool)
    requires Inv(s) && Moves(s, s', Shutdown(others))
    ensures Inv(s') && s'.start == s.start
  {
    hide Inv, Gathers;
    var bucket :| StopsWith(s, s', others, bucket);
    var m := Aggregated(s, bucket);
    GatherInv(s, bucket);
    StopStarts(m, s', others);
    FlushInv(m, s', s.start, true);
  }

  lemma InvOf(s: State)
    requires Together(s) && StartsDistinct(s) && RowsExact(s) && forall sc :: Conserves(s, sc)
    ensures Inv(s)
  {
    hide Together, StartsDistinct, RowsExact, Conserves;
  }

  lemma GatherInv(s: State, bucket: map<Scope, Counts>)
    requires Inv(s) && Gathers(s, bucket)
    ensures Inv(Aggregated(s, bucket))
  {
    hide Together, Gathers, Conserves, RowsOf, Untouched;
    var m := Aggregated(s, bucket);
    GatherTogether(s, bucket);
    forall sc ensures Conserves(m, sc) {
      assert Conserves(s, sc);
      GatherConserves(s, bucket, sc);
    }
    assert Finished(m) == Finished(s);
  }

  lemma GatherConserves(s: State, bucket: map<Scope, Counts>, sc: Scope)
    requires Together(s) && Conserves(s, sc) && Gathers(s, bucket)
    ensures Conserves(Aggregated(s, bucket), sc)
  {
    hide Together, Conserves, Aggregates, Plus;
    var m := Aggregated(s, bucket);
    AggregatesExactly(s, bucket, m.base, sc);
    MovedConserves(s, m, sc);
  }

  lemma GatherTogether(s: State, bucket: map<Scope, Counts>)
    requires Inv(s)
    ensures Together(Aggregated(s, bucket))
  {
    hide StartsDistinct, RowsExact, Conserves, SumDelta, Plus;
    var m := Aggregated(s, bucket);
    assert m.cum == s.cum == m.base;
    SumZero(Platforms(s.cum), s.cum);
    NoMove(ZERO);
  }

  /** The current bucket, taken or left, with the starts in order. */
  lemma FlushInv(m: State, s': State, start: int, stopped: bool)
    requires Inv(m) && StartsDistinct(s')
    requires s' == m.(stopped := stopped) || s' == m.(inHand := m.inHand + [Data(m.start, m.bucket)], start := start, bucket := map[], stopped := stopped)
    ensures Inv(s')
  {
    hide StartsDistinct, SumDelta;
    assert Together(s') && RowsExact(s') by {
      hide RowsOf, Untouched, Sane, Minus, Plus;
    }
    forall sc ensures Conserves(s', sc) {
      assert Conserves(m, sc);
      hide Together, RowsExact;
      if s'.inHand != m.inHand {
        FlushConserves(m, s', sc);
      }
    }
    InvOf(s');
  }

  lemma AdvanceStarts(m: State, s': State, now: int)
    requires Inv(m) && !m.stopped && s' == Flushed(m, now)
    ensures StartsDistinct(s') && s'.start >= m.start && (s'.inHand != m.inHand ==> s'.start >= m.start + m.width)
    ensures s' == m || s' == m.(inHand := m.inHand + [Data(m.start, m.bucket)], start := Truncate(now, m.width), bucket := map[])
  {
    hide RowsExact, Conserves, Together, Truncate;
    TruncateAligned(now, m.width);
    if now >= m.start + m.width {
      TruncateAdvances(now, m.start, m.width);
      assert Finished(s') == Finished(m) + [Data(m.start, m.bucket)];
    }
  }

  lemma StopStarts(m: State, s': State, others: bool)
    requires Inv(m) && !m.stopped && s' == ForceFlushed(m, others).(stopped := true)
    ensures StartsDistinct(s')
  {
    hide RowsExact, Conserves, Together;
    if m.bucket == map[] && !others {
      assert Finished(s') == Finished(m);
    } else {
      assert Finished(s') == Finished(m) + [Data(m.start, m.bucket)];
    }
  }

  lemma MovedConserves(s: State, m: State, sc: Scope)
    requires Conserves(s, sc) && m == s.(base := m.base, looseBase := m.looseBase, bucket := m.bucket)
    requires Plus(At(m.bucket, sc), At(s.base, sc)) == Plus(At(s.bucket, sc), At(m.base, sc))
    ensures Conserves(m, sc)
  {
    hide Plus, SumData, At;
    Shift(At(s.base, sc), At(m.base, sc), Plus(SumData(s.written, sc), SumData(s.pending, sc)), SumData(s.inHand, sc), At(s.bucket, sc), At(m.bucket, sc));
  }

  lemma Shift(b: Counts, b': Counts, stored: Counts, held: Counts, k: Counts, k': Counts)
    requires b == Plus(stored, Plus(held, k)) && Plus(k', b) == Plus(k, b')
    ensures b' == Plus(stored, Plus(held, k'))
  {
  }

  lemma FlushConserves(m: State, s': State, sc: Scope)
    requires Conserves(m, sc)
    requires s'.inHand == m.inHand + [Data(m.start, m.bucket)] && s'.bucket == map[]
    requires s'.base == m.base && s'.written == m.written && s'.pending == m.pending
    ensures Conserves(s', sc)
  {
    hide Plus;
    assert s'.inHand[..|m.inHand|] == m.inHand;
    NoMove(Plus(SumData(m.inHand, sc), At(m.bucket, sc)));
  }

  lemma EnqueueConserves(s: State, s': State, i: nat, sc: Scope)
    requires Conserves(s, sc) && Moves(s, s', Enqueue(i))
    ensures Conserves(s', sc)
  {
    hide Plus, At;
    SumDataRemove(s.inHand, i, sc);
    assert s'.pending[..|s.pending|] == s.pending;
    var x := At(s.inHand[i].requests, sc);
    MoveAcross(SumData(s.written, sc), SumData(s.pending, sc), SumData(s'.inHand, sc), x, At(s.bucket, sc));
  }

  lemma MoveAcross(rows: Counts, queued: Counts, held: Counts, x: Counts, current: Counts)
    ensures Plus(Plus(rows, queued), Plus(Plus(held, x), current)) == Plus(Plus(rows, Plus(queued, x)), Plus(held, current))
  {
  }

  /** Where each bucket of the new order stood in the old one. */
  function Before(a: nat, i: nat, k: nat): nat {
    if k < a then k else if k == a then a + i else if k <= a + i then k - 1 else k
  }

  lemma Reordered(s: State, s': State, i: nat)
    requires Moves(s, s', Enqueue(i))
    ensures |Finished(s')| == |Finished(s)|
    ensures forall k :: 0 <= k < |Finished(s')| ==>
              Before(|s.written| + |s.pending|, i, k) < |Finished(s)|
              && Finished(s')[k] == Finished(s)[Before(|s.written| + |s.pending|, i, k)]
  {
    Shuffled(s.written + s.pending, s.inHand, i);
    assert Finished(s') == (s.written + s.pending) + [s.inHand[i]] + (s.inHand[..i] + s.inHand[i + 1..]);
  }

  lemma Shuffled(front: seq<Data>, held: seq<Data>, i: nat)
    requires i < |held|
    ensures var f, f' := front + held, front + [held[i]] + (held[..i] + held[i + 1..]);
            && |f'| == |f|
            && forall k :: 0 <= k < |f'| ==> Before(|front|, i, k) < |f| && f'[k] == f[Before(|front|, i, k)]
  {
    var f, f' := front + held, front + [held[i]] + (held[..i] + held[i + 1..]);
    forall k | 0 <= k < |f'| ensures Before(|front|, i, k) < |f| && f'[k] == f[Before(|front|, i, k)] {
      if k > |front| {
        var j := k - |front| - 1;
        assert f'[k] == (held[..i] + held[i + 1..])[j];
        assert f'[k] == if j < i then held[j] else held[j + 1];
      }
    }
  }

  lemma EnqueueStarts(s: State, s': State, i: nat)
    requires StartsDistinct(s) && Moves(s, s', Enqueue(i))
    ensures StartsDistinct(s')
  {
    Reordered(s, s', i);
    var a, f, f' := |s.written| + |s.pending|, Finished(s), Finished(s');
    assert s'.width == s.width && s'.start == s.start && s'.stopped == s.stopped;
    hide Finished, Moves;
    forall k | 0 <= k < |f'| ensures f'[k].start % s.width == 0 && f'[k].start <= s.start && (!s.stopped ==> f'[k].start < s.start) {
      assert f'[k] == f[Before(a, i, k)];
    }
    forall k, l | 0 <= k < l < |f'| ensures f'[k].start != f'[l].start {
      var x, y := Before(a, i, k), Before(a, i, l);
      assert x != y;
      assert f'[k] == f[x] && f'[l] == f[y];
    }
  }

  lemma EnqueueInv(s: State, s': State, i: nat)
    requires Inv(s) && Moves(s, s', Enqueue(i))
    ensures Inv(s')
  {
    hide SumDelta, Plus, StartsDistinct, Conserves, RowsOf, Untouched;
    forall sc ensures Conserves(s', sc) {
      assert Conserves(s, sc);
      EnqueueConserves(s, s', i, sc);
    }
    EnqueueStarts(s, s', i);
    assert s.pending != [] ==> s'.pending[0] == s.pending[0];
  }

  lemma WriteHeadInv(s: State, s': State, outcome: Outcome)
    requires Inv(s) && Moves(s, s', WriteHead(outcome))
    ensures Inv(s')
    ensures forall start, sc :: start != s.pending[0].start ==> Row(s'.db, start, sc) == Row(s.db, start, sc)
  {
    hide Together, RowsOf, Untouched, Row, WriteBucket;
    HeadApart(s);
    if !outcome.Failed? {
      HeadRows(s, s'.db);
    }
    forall sc ensures Conserves(s', sc) {
      assert Conserves(s, sc);
      WriteConserves(s, s', outcome, sc);
    }
    WriteRowsExact(s, s', outcome);
    hide Conserves, RowsExact;
    SameFinished(s, s');
    SameTogether(s, s');
  }

  lemma SameTogether(s: State, s': State)
    requires Together(s)
    requires s'.cum == s.cum && s'.base == s.base && s'.loose == s.loose && s'.looseBase == s.looseBase
    ensures Together(s')
  {
    hide SumDelta, Plus, Minus, Sane;
  }

  lemma SameFinished(s: State, s': State)
    requires s.pending != []
    requires (s'.written == s.written && s'.pending == s.pending) || (s'.written == s.written + [s.pending[0]] && s'.pending == s.pending[1..])
    requires s'.inHand == s.inHand
    ensures Finished(s') == Finished(s)
  {
    assert s.pending == [s.pending[0]] + s.pending[1..];
  }

  /** The bucket about to be written is none of those written already. */
  lemma HeadApart(s: State)
    requires StartsDistinct(s) && s.pending != []
    ensures forall w :: w in s.written ==> w.start != s.pending[0].start
  {
    forall w | w in s.written ensures w.start != s.pending[0].start {
      var i :| 0 <= i < |s.written| && s.written[i] == w;
      assert Finished(s)[i] == w && Finished(s)[|s.written|] == s.pending[0];
    }
  }

  lemma WriteConserves(s: State, s': State, outcome: Outcome, sc: Scope)
    requires Conserves(s, sc) && Moves(s, s', WriteHead(outcome))
    ensures Conserves(s', sc)
  {
    hide WriteBucket, Plus, At, SumData;
    if outcome.Complete? {
      PopConserves(s.written, s.pending, sc);
    }
  }

  /** A bucket popped counts the same on either side. */
  lemma PopConserves(written: seq<Data>, pending: seq<Data>, sc: Scope)
    requires pending != []
    ensures Plus(SumData(written + [pending[0]], sc), SumData(pending[1..], sc)) == Plus(SumData(written, sc), SumData(pending, sc))
  {
    hide Plus, At;
    assert (written + [pending[0]])[..|written|] == written;
    SumDataRemove(pending, 0, sc);
    assert pending[..0] + pending[1..] == pending[1..];
    PlusMove(SumData(written, sc), SumData(pending[1..], sc), At(pending[0].requests, sc));
  }

  lemma PlusMove(a: Counts, b: Counts, c: Counts)
    ensures Plus(a, Plus(b, c)) == Plus(Plus(a, c), b)
  {
  }

  lemma WriteRowsExact(s: State, s': State, outcome: Outcome)
    requires RowsExact(s) && Moves(s, s', WriteHead(outcome))
    requires forall w :: w in s.written ==> w.start != s.pending[0].start
    requires forall start, sc :: start != s.pending[0].start ==> Row(s'.db, start, sc) == Row(s.db, start, sc)
    requires !outcome.Failed? ==> RowsOf(s.found, s'.db, s.pending[0])
    ensures RowsExact(s')
  {
    var d := s.pending[0];
    hide WriteBucket, Row, RowAfter;
    forall w | w in s'.written ensures RowsOf(s.found, s'.db, w) {
      if w in s.written {
        assert RowsOf(s.found, s.db, w);
      }
    }
    forall start | !WrittenAt(s'.written, start)
      ensures Untouched(s.found, s'.db, start) || (s'.pending != [] && start == s'.pending[0].start && RowsOf(s.found, s'.db, s'.pending[0]))
    {
      assert outcome.Complete? ==> d in s'.written;
      assert !WrittenAt(s.written, start) by {
        if w :| w in s.written && w.start == start {
          assert w in s'.written;
        }
      }
      if start != d.start {
        assert Untouched(s.found, s.db, start);
      }
    }
  }

  /** Writing a bucket again, or over a part of itself, leaves its rows exact and
      touches no other bucket's. */
  lemma HeadRows(s: State, db: map<RowKey, Counts>)
    requires RowsExact(s) && s.pending != [] && db == WriteBucket(s.db, s.pending[0])
    requires forall w :: w in s.written ==> w.start != s.pending[0].start
    ensures RowsOf(s.found, db, s.pending[0])
    ensures forall start, sc :: start != s.pending[0].start ==> Row(db, start, sc) == Row(s.db, start, sc)
  {
    var d := s.pending[0];
    assert !WrittenAt(s.written, d.start);
    assert Untouched(s.found, s.db, d.start) || RowsOf(s.found, s.db, d);
    forall sc ensures Row(db, d.start, sc) == RowAfter(s.found, d, sc) {
      if !Covers(d, sc) {
        assert Row(db, d.start, sc) == Row(s.db, d.start, sc);
      }
    }
  }

  // ------------------------------------------------------------------
  // Whole runs
  // ------------------------------------------------------------------

  /** Start-up over the database that is there. */
  function Boot(now: int, width: int, db: map<RowKey, Counts>): State
    requires width > 0
  {
    State(width, map[Global := ZERO], ZERO, map[], ZERO, Truncate(now, width), map[], [], [], [], db, db, false)
  }

  ghost predicate ValidRun(states: seq<State>, steps: seq<Step>) {
    && |states| == |steps| + 1
    && (exists now, width, db :: width > 0 && states[0] == Boot(now, width, db))
    && forall i :: 0 <= i < |steps| ==> Moves(states[i], states[i + 1], steps[i])
  }

  lemma NothingYet(s: State, sc: Scope)
    requires s.base == map[] && s.written == s.pending == s.inHand == [] && s.bucket == map[]
    ensures Conserves(s, sc)
  {
    hide Plus;
    NoMove(ZERO);
  }

  lemma BootInv(now: int, width: int, db: map<RowKey, Counts>)
    requires width > 0
    ensures Inv(Boot(now, width, db))
  {
    hide Truncate, SumDelta, Plus, Minus, Conserves;
    TruncateAligned(now, width);
    var s := Boot(now, width, db);
    assert Platforms(s.cum) == {};
    SumEmpty(s.cum, s.base);
    forall sc ensures Conserves(s, sc) {
      NothingYet(s, sc);
    }
    NoMove(ZERO);
    NoGap();
    assert RowsExact(s) by {
      forall start ensures Untouched(s.found, s.db, start) {
      }
    }
    assert StartsDistinct(s);
    hide StartsDistinct, RowsExact;
    assert Together(s);
  }

  lemma NoGap()
    ensures Minus(ZERO, ZERO) == ZERO && Sane(ZERO)
  {
  }

  lemma StepInv(s: State, s': State, step: Step)
    requires Inv(s) && Moves(s, s', step)
    ensures Inv(s') && s'.start >= s.start && s'.width == s.width
  {
    hide Inv, Aggregates;
    match step
    case Record(scope, success) => RecordInv(s, s', scope, success);
    case Advance(now) => AdvanceInv(s, s', now);
    case Shutdown(others) => ShutdownInv(s, s', others);
    case Enqueue(i) => EnqueueInv(s, s', i);
    case WriteHead(outcome) => WriteHeadInv(s, s', outcome);
  }

  lemma {:induction false} AlwaysInv(states: seq<State>, steps: seq<Step>, n: nat)
    requires ValidRun(states, steps) && n < |states|
    ensures Inv(states[n])
  {
    hide Moves, Inv, Boot;
    if n == 0 {
      var now, width, db :| width > 0 && states[0] == Boot(now, width, db);
      BootInv(now, width, db);
    } else {
      AlwaysInv(states, steps, n - 1);
      StepInv(states[n - 1], states[n], steps[n - 1]);
    }
  }

  /** Rows found in the database that the buckets written so far replaced. */
  function Overwritten(found: map<RowKey, Counts>, ds: seq<Data>, s: Scope): Counts {
    if ds == [] then ZERO
    else
      var d := ds[|ds| - 1];
      Plus(Overwritten(found, ds[..|ds| - 1], s), if Covers(d, s) then Row(found, d.start, s) else ZERO)
  }

  lemma {:induction false} RowsAddUp(found: map<RowKey, Counts>, db: map<RowKey, Counts>, ds: seq<Data>, s: Scope)
    requires forall d :: d in ds ==> RowsOf(found, db, d)
    ensures Plus(RowTotal(db, ds, s), Overwritten(found, ds, s)) == Plus(RowTotal(found, ds, s), SumData(ds, s))
  {
    hide Plus;
    if ds != [] {
      var front, d := ds[..|ds| - 1], ds[|ds| - 1];
      assert d in ds;
      assert forall e :: e in front ==> e in ds;
      RowsAddUp(found, db, front, s);
      assert Row(db, d.start, s) == RowAfter(found, d, s);
      OneMoreRow(RowTotal(db, front, s), Overwritten(found, front, s), RowTotal(found, front, s), SumData(front, s),
                 At(d.requests, s), Row(found, d.start, s));
    }
  }

  lemma OneMoreRow(rows: Counts, lost: Counts, was: Counts, sum: Counts, d: Counts, r: Counts)
    requires Plus(rows, lost) == Plus(was, sum)
    ensures Plus(Plus(rows, d), Plus(lost, r)) == Plus(Plus(was, r), Plus(sum, d))
    ensures Plus(Plus(rows, r), Plus(lost, ZERO)) == Plus(Plus(was, r), Plus(sum, ZERO))
  {
  }

  /** What has not been written yet. */
  function Outstanding(s: State, sc: Scope): Counts {
    Plus(Plus(SumData(s.pending, sc), Plus(SumData(s.inHand, sc), At(s.bucket, sc))), Minus(At(s.cum, sc), At(s.base, sc)))
  }

  /** At every moment of every run, over whatever database, whatever failed and was
      retried: the rows found at the buckets written so far plus every request
      recorded since equal the rows now there, plus the rows overwritten, plus what
      is queued, in hand, in the current bucket or not aggregated yet. */
  lemma RequestsConserved(states: seq<State>, steps: seq<Step>, n: nat, sc: Scope)
    requires ValidRun(states, steps) && n < |states|
    ensures var s := states[n];
            Plus(RowTotal(s.found, s.written, sc), At(s.cum, sc)) ==
              Plus(Plus(RowTotal(s.db, s.written, sc), Overwritten(s.found, s.written, sc)), Outstanding(s, sc))
  {
    AlwaysInv(states, steps, n);
    var s := states[n];
    hide ValidRun, Together, StartsDistinct, Plus, Minus;
    assert Conserves(s, sc);
    RowsAddUp(s.found, s.db, s.written, sc);
    Balance(RowTotal(s.db, s.written, sc), Overwritten(s.found, s.written, sc), RowTotal(s.found, s.written, sc), SumData(s.written, sc),
            SumData(s.pending, sc), Plus(SumData(s.inHand, sc), At(s.bucket, sc)), At(s.base, sc), At(s.cum, sc));
  }

  lemma Balance(rows: Counts, lost: Counts, was: Counts, sum: Counts, queued: Counts, held: Counts, base: Counts, cum: Counts)
    requires Plus(rows, lost) == Plus(was, sum) && base == Plus(Plus(sum, queued), held)
    ensures Plus(was, cum) == Plus(Plus(rows, lost), Plus(Plus(queued, held), Minus(cum, base)))
  {
  }

  lemma {:induction false} OverwrittenZeroIff(found: map<RowKey, Counts>, ds: seq<Data>, s: Scope)
    requires forall start :: Sane(Row(found, start, s))
    ensures Sane(Overwritten(found, ds, s))
    ensures Overwritten(found, ds, s) == ZERO <==> forall d :: d in ds && Covers(d, s) ==> Row(found, d.start, s) == ZERO
  {
    hide Row, Plus, Sane, Covers;
    if ds == [] {
      NoGap();
    } else {
      var front, d := ds[..|ds| - 1], ds[|ds| - 1];
      OverwrittenZeroIff(found, front, s);
      assert ds == front + [d];
      SaneSum(Overwritten(found, front, s), Row(found, d.start, s));
      NoMove(Overwritten(found, front, s));
    }
  }

  lemma SaneSum(a: Counts, b: Counts)
    requires Sane(a) && Sane(b)
    ensures Sane(Plus(a, b)) && (Plus(a, b) == ZERO <==> a == ZERO && b == ZERO)
  {
  }

  /** So the rows account for every request, found or recorded, if and only if no
      bucket was written over a row with requests in it. */
  lemma RowsAccountIff(states: seq<State>, steps: seq<Step>, n: nat, sc: Scope)
    requires ValidRun(states, steps) && n < |states|
    requires forall start :: Sane(Row(states[n].found, start, sc))
    ensures var s := states[n];
            Plus(RowTotal(s.found, s.written, sc), At(s.cum, sc)) == Plus(RowTotal(s.db, s.written, sc), Outstanding(s, sc)) <==>
              forall d :: d in s.written && Covers(d, sc) ==> Row(s.found, d.start, sc) == ZERO
  {
    hide ValidRun, RowTotal, Overwritten, Outstanding, Row, Plus;
    var s := states[n];
    RequestsConserved(states, steps, n, sc);
    OverwrittenZeroIff(s.found, s.written, sc);
    CancelLost(Plus(RowTotal(s.found, s.written, sc), At(s.cum, sc)), RowTotal(s.db, s.written, sc), Overwritten(s.found, s.written, sc), Outstanding(s, sc));
  }

  lemma CancelLost(all: Counts, rows: Counts, lost: Counts, rest: Counts)
    requires all == Plus(Plus(rows, lost), rest)
    ensures all == Plus(rows, rest) <==> lost == ZERO
  {
  }

  /** Once everything has been aggregated, flushed, queued and written, the rows of
      each bucket are exactly its counts, every other row is as it was found, and
      together they account for every request not overwritten. */
  lemma AllWritten(states: seq<State>, steps: seq<Step>, n: nat, sc: Scope)
    requires ValidRun(states, steps) && n < |states|
    requires states[n].base == states[n].cum && states[n].bucket == map[] && states[n].inHand == [] && states[n].pending == []
    ensures var s := states[n];
            && Plus(RowTotal(s.found, s.written, sc), At(s.cum, sc)) == Plus(RowTotal(s.db, s.written, sc), Overwritten(s.found, s.written, sc))
            && (forall d :: d in s.written ==> Row(s.db, d.start, sc) == RowAfter(s.found, d, sc))
            && forall start :: !WrittenAt(s.written, start) ==> Row(s.db, start, sc) == Row(s.found, start, sc)
  {
    hide ValidRun, Together, StartsDistinct, RowTotal, Overwritten, Row, RowAfter, Plus, Outstanding;
    RequestsConserved(states, steps, n, sc);
    AlwaysInv(states, steps, n);
    var s := states[n];
    NothingOut(s, sc);
    NoMove(Plus(RowTotal(s.db, s.written, sc), Overwritten(s.found, s.written, sc)));
    forall start | !WrittenAt(s.written, start) ensures Row(s.db, start, sc) == Row(s.found, start, sc) {
      assert Untouched(s.found, s.db, start);
    }
    forall d | d in s.written ensures Row(s.db, d.start, sc) == RowAfter(s.found, d, sc) {
      assert RowsOf(s.found, s.db, d);
    }
  }

  lemma NothingOut(s: State, sc: Scope)
    requires s.base == s.cum && s.bucket == map[] && s.inHand == [] && s.pending == []
    ensures Outstanding(s, sc) == ZERO
  {
    assert Minus(At(s.cum, sc), At(s.base, sc)) == ZERO;
    hide Minus;
  }

  // ------------------------------------------------------------------
  // Where exactness ends
  // ------------------------------------------------------------------

  /** An aggregation that finds a single platform. */
  lemma OnePlatform(p: Scope, c: Counts, g: Counts, base: map<Scope, Counts>, bucket: map<Scope, Counts>, bucket': map<Scope, Counts>, base': map<Scope, Counts>)
    requires p != Global && Aggregates(base, g, map[p := c], bucket, bucket', base')
    ensures At(bucket', Global) == Plus(At(bucket, Global), GlobalIncrease(Delta(g, At(base, Global)), Delta(c, At(base, p))))
    ensures At(bucket', p) == Plus(At(bucket, p), Delta(c, At(base, p)))
    ensures At(base', p) == c && At(base', Global) == g
  {
    hide SumDelta, Plus, GlobalIncrease, Delta;
    assert Platforms(map[p := c]) == {p};
    SumOne(p, map[p := c], base);
  }

  /** Read apart, the two snapshots may disagree: a request seen by the platform
      counter only is added to the global scope at once, and again when the global
      counter shows it. */
  lemma SplitSnapshotsCountTwice(b1: map<Scope, Counts>, b2: map<Scope, Counts>, base1: map<Scope, Counts>, base2: map<Scope, Counts>)
    requires var one := map[Platform(1) := Counts(1, 1)];
             Aggregates(map[], ZERO, one, map[], b1, base1) && Aggregates(base1, Counts(1, 1), one, b1, b2, base2)
    ensures At(b2, Global) == Counts(2, 2) && At(b2, Platform(1)) == Counts(1, 1)
  {
    OnePlatform(Platform(1), Counts(1, 1), ZERO, map[], map[], b1, base1);
    OnePlatform(Platform(1), Counts(1, 1), Counts(1, 1), base1, b1, b2, base2);
    hide Aggregates;
    assert At(b1, Global) == Counts(1, 1) && At(b1, Platform(1)) == Counts(1, 1);
  }

  /** An aggregation whose platform snapshot was read apart from the global one: the
      global scope gains exactly what its counter moved if and only if the platform
      deltas leave a sane remainder of it. */
  lemma AggregateExactIff(base: map<Scope, Counts>, globalCum: Counts, platformCum: map<Scope, Counts>,
                          bucket: map<Scope, Counts>, bucket': map<Scope, Counts>, base': map<Scope, Counts>)
    requires Aggregates(base, globalCum, platformCum, bucket, bucket', base')
    ensures At(bucket', Global) == Plus(At(bucket, Global), Minus(globalCum, At(base, Global))) <==>
              Sane(Minus(Minus(globalCum, At(base, Global)), SumDelta(Platforms(platformCum), platformCum, base)))
  {
    hide SumDelta;
    SumSane(Platforms(platformCum), platformCum, base);
    IncreaseExactIff(globalCum, At(base, Global), SumDelta(Platforms(platformCum), platformCum, base), At(bucket, Global));
    hide Plus, Minus, Delta, GlobalIncrease, Sane;
  }

  lemma IncreaseExactIff(g: Counts, b: Counts, sum: Counts, before: Counts)
    requires Sane(sum)
    ensures Plus(before, GlobalIncrease(Delta(g, b), sum)) == Plus(before, Minus(g, b)) <==> Sane(Minus(Minus(g, b), sum))
  {
  }

  datatype Request = Request(scope: Scope, success: bool)

  function Recorded(s: State, r: Request): State {
    var one := Counts(1, if r.success then 1 else 0);
    var cum := Add(s.cum, Global, one);
    if r.scope == Global then s.(cum := cum, loose := Plus(s.loose, one)) else s.(cum := Add(cum, r.scope, one))
  }

  /** Requests recorded one after the other. */
  function RecordedAll(s: State, rs: seq<Request>): State {
    if rs == [] then s else Recorded(RecordedAll(s, rs[..|rs| - 1]), rs[|rs| - 1])
  }

  /** Those of them with a platform. */
  function Attributed(rs: seq<Request>): Counts {
    if rs == [] then ZERO
    else
      var r := rs[|rs| - 1];
      Plus(Attributed(rs[..|rs| - 1]), if r.scope == Global then ZERO else Counts(1, if r.success then 1 else 0))
  }

  lemma {:induction false} RecordedSum(s: State, rs: seq<Request>)
    requires Together(s)
    ensures var s' := RecordedAll(s, rs);
            && Together(s') && s'.base == s.base
            && SumDelta(Platforms(s'.cum), s'.cum, s.base) == Plus(SumDelta(Platforms(s.cum), s.cum, s.base), Attributed(rs))
  {
    hide SumDelta, Together, Plus;
    if rs == [] {
      NoMove(SumDelta(Platforms(s.cum), s.cum, s.base));
    } else {
      var front, r := rs[..|rs| - 1], rs[|rs| - 1];
      RecordedSum(s, front);
      var m := RecordedAll(s, front);
      var one := Counts(1, if r.success then 1 else 0);
      RecordTogether(m, Recorded(m, r), r.scope, r.success);
      OneIsSane(r.success);
      if r.scope == Global {
        GlobalSum(m, one);
        NoMove(Attributed(front));
      } else {
        RecordSum(m, r.scope, one);
        PlusAssoc(SumDelta(Platforms(s.cum), s.cum, s.base), Attributed(front), one);
      }
    }
  }

  lemma PlusAssoc(a: Counts, b: Counts, c: Counts)
    ensures Plus(Plus(a, b), c) == Plus(a, Plus(b, c))
  {
  }

  lemma GlobalSum(s: State, one: Counts)
    ensures SumDelta(Platforms(Add(s.cum, Global, one)), Add(s.cum, Global, one), s.base) == SumDelta(Platforms(s.cum), s.cum, s.base)
  {
    hide SumDelta, Plus;
    assert Platforms(Add(s.cum, Global, one)) == Platforms(s.cum);
    SumSame(Platforms(s.cum), s.cum, Add(s.cum, Global, one), s.base);
  }

  /** Requests that slip in between the two snapshots are seen by the platforms
      only.  The global scope still comes out right if and only if the unattributed
      requests waiting outweigh those with a platform. */
  lemma SlippedInExactIff(s: State, rs: seq<Request>, bucket: map<Scope, Counts>, base: map<Scope, Counts>)
    requires Together(s) && Aggregates(s.base, At(s.cum, Global), RecordedAll(s, rs).cum, s.bucket, bucket, base)
    ensures At(bucket, Global) == Plus(At(s.bucket, Global), Minus(At(s.cum, Global), At(s.base, Global))) <==>
              Sane(Minus(Minus(s.loose, s.looseBase), Attributed(rs)))
  {
    hide SumDelta, Aggregates, Attributed, RecordedAll;
    RecordedSum(s, rs);
    AggregateExactIff(s.base, At(s.cum, Global), RecordedAll(s, rs).cum, s.bucket, bucket, base);
    Remainder(Minus(At(s.cum, Global), At(s.base, Global)), SumDelta(Platforms(s.cum), s.cum, s.base), Minus(s.loose, s.looseBase), Attributed(rs));
  }

  lemma Remainder(g: Counts, sum: Counts, loose: Counts, slipped: Counts)
    requires g == Plus(sum, loose)
    ensures Minus(g, Plus(sum, slipped)) == Minus(loose, slipped)
  {
  }

  /** One aggregation of a run of them, its two snapshots read whenever; between two
      aggregations the bucket may be flushed. */
  datatype Round = Round(
    base: map<Scope, Counts>, globalCum: Counts, platformCum: map<Scope, Counts>,
    bucket: map<Scope, Counts>, bucket': map<Scope, Counts>)

  ghost predicate ValidRounds(rounds: seq<Round>, base: map<Scope, Counts>)
    decreases rounds
  {
    rounds == [] ||
    var front, r := rounds[..|rounds| - 1], rounds[|rounds| - 1];
    && ValidRounds(front, base) && r.base == BaseAfter(front, base)
    && r.globalCum.total >= At(r.base, Global).total
    && Aggregates(r.base, r.globalCum, r.platformCum, r.bucket, r.bucket', r.platformCum[Global := r.globalCum])
  }

  function BaseAfter(rounds: seq<Round>, base: map<Scope, Counts>): map<Scope, Counts> {
    if rounds == [] then base else rounds[|rounds| - 1].platformCum[Global := rounds[|rounds| - 1].globalCum]
  }

  /** What all the aggregations together added to the global scope. */
  function Gained(rounds: seq<Round>): int {
    if rounds == [] then 0
    else
      var r := rounds[|rounds| - 1];
      Gained(rounds[..|rounds| - 1]) + At(r.bucket', Global).total - At(r.bucket, Global).total
  }

  /** The platforms moved no further than the global counter did. */
  ghost predicate LeavesRest(r: Round) {
    SumDelta(Platforms(r.platformCum), r.platformCum, r.base).total <= r.globalCum.total - At(r.base, Global).total
  }

  lemma RoundGains(r: Round)
    requires r.globalCum.total >= At(r.base, Global).total
    requires Aggregates(r.base, r.globalCum, r.platformCum, r.bucket, r.bucket', r.platformCum[Global := r.globalCum])
    ensures var gain := At(r.bucket', Global).total - At(r.bucket, Global).total;
            var moved := r.globalCum.total - At(r.base, Global).total;
            gain >= moved && (gain == moved <==> LeavesRest(r))
  {
    hide SumDelta, At, Platforms;
  }

  /** Over a whole run of aggregations with snapshots read apart, the global scope
      never gains less than its counter moved, and gains exactly that if and only if
      every aggregation left a rest that is not negative. */
  lemma {:induction false} GlobalTotalExactIff(rounds: seq<Round>, base: map<Scope, Counts>)
    requires ValidRounds(rounds, base)
    ensures var moved := At(BaseAfter(rounds, base), Global).total - At(base, Global).total;
            && Gained(rounds) >= moved
            && (Gained(rounds) == moved <==> forall i :: 0 <= i < |rounds| ==> LeavesRest(rounds[i]))
  {
    hide Aggregates, LeavesRest, At;
    if rounds != [] {
      var front, r := rounds[..|rounds| - 1], rounds[|rounds| - 1];
      GlobalTotalExactIff(front, base);
      RoundGains(r);
      AtUpdated(r.platformCum, r.globalCum);
      LastLeavesRest(front, r);
      assert rounds == front + [r];
    }
  }

  lemma LastLeavesRest(front: seq<Round>, r: Round)
    ensures (forall i :: 0 <= i < |front + [r]| ==> LeavesRest((front + [r])[i])) <==>
              (forall i :: 0 <= i < |front| ==> LeavesRest(front[i])) && LeavesRest(r)
  {
    hide LeavesRest;
    var all := front + [r];
    assert forall i :: 0 <= i < |front| ==> all[i] == front[i];
    assert all[|front|] == r;
  }

  lemma AtUpdated(m: map<Scope, Counts>, c: Counts)
    ensures At(m[Global := c], Global) == c
  {
  }

  // ------------------------------------------------------------------
  // A restart within one bucket
  // ------------------------------------------------------------------

  /** One process: a single request, a shutdown, a write that completes. */
  lemma OneRequest(now: int, width: int, db: map<RowKey, Counts>) returns (states: seq<State>, steps: seq<Step>)
    requires width > 0
    ensures steps == [Record(Global, true), Shutdown(false), Enqueue(0), WriteHead(Complete)]
    ensures ValidRun(states, steps) && states[0] == Boot(now, width, db)
    ensures var s := states[|steps|];
            && At(s.cum, Global) == Counts(1, 1) && s.base == s.cum && s.bucket == map[] && s.inHand == [] && s.pending == []
            && Row(s.db, Truncate(now, width), Global) == Counts(1, 1)
  {
    hide Truncate, Moves, WriteBucket, Gathers, ForceFlushed, Aggregated;
    var s0 := Boot(now, width, db);
    var one := map[Global := Counts(1, 1)];
    var d := Data(s0.start, one);
    var s1 := s0.(cum := one, loose := Counts(1, 1));
    var s2 := s1.(base := one, looseBase := Counts(1, 1), inHand := [d], stopped := true);
    var s3 := s2.(inHand := [], pending := [d]);
    var s4 := s3.(pending := [], written := [d], db := WriteBucket(db, d));
    steps := [Record(Global, true), Shutdown(false), Enqueue(0), WriteHead(Complete)];
    states := [s0, s1, s2, s3, s4];
    OneRecorded(s0, s1);
    OneStopped(s1, s2, one);
    OneEnqueued(s2, s3, d);
    OneWritten(s3, s4, d);
  }

  lemma OneRecorded(s0: State, s1: State)
    requires s0.cum == map[Global := ZERO] && s0.loose == ZERO
    requires s1 == s0.(cum := map[Global := Counts(1, 1)], loose := Counts(1, 1))
    ensures Moves(s0, s1, Record(Global, true))
  {
    assert Add(s0.cum, Global, Counts(1, 1)) == s1.cum;
  }

  lemma OneStopped(s1: State, s2: State, one: map<Scope, Counts>)
    requires one == map[Global := Counts(1, 1)] && s1.cum == one && s1.base == map[] && s1.bucket == map[] && !s1.stopped && s1.inHand == []
    requires s2 == s1.(base := one, looseBase := s1.loose, inHand := [Data(s1.start, one)], stopped := true)
    ensures Moves(s1, s2, Shutdown(false))
  {
    hide Gathers, Aggregated, ForceFlushed, At, Moves;
    OneGathered(s1, one);
    OneFlushed(s1, s2, one);
    assert StopsWith(s1, s2, false, one);
    StopMoves(s1, s2, false, one);
  }

  lemma OneFlushed(s1: State, s2: State, one: map<Scope, Counts>)
    requires one == map[Global := Counts(1, 1)] && s1.cum == one && s1.inHand == [] && s1.bucket == map[]
    requires s2 == s1.(base := one, looseBase := s1.loose, inHand := [Data(s1.start, one)], stopped := true)
    ensures s2 == ForceFlushed(Aggregated(s1, one), false).(stopped := true)
  {
    assert Global in one && one[Global := At(one, Global)] == one;
  }

  lemma StopMoves(s: State, s': State, others: bool, bucket: map<Scope, Counts>)
    requires !s.stopped && StopsWith(s, s', others, bucket)
    ensures Moves(s, s', Shutdown(others))
  {
    hide StopsWith, AdvancesWith, Add, Plus, WriteBucket;
  }

  lemma OneEnqueued(s2: State, s3: State, d: Data)
    requires s2.inHand == [d] && s2.pending == [] && s3 == s2.(inHand := [], pending := [d])
    ensures Moves(s2, s3, Enqueue(0))
  {
  }

  lemma OneWritten(s3: State, s4: State, d: Data)
    requires s3.pending == [d] && s3.written == [] && Global in d.requests
    requires s4 == s3.(pending := [], written := [d], db := WriteBucket(s3.db, d))
    ensures Moves(s3, s4, WriteHead(Complete))
    ensures Row(s4.db, d.start, Global) == d.requests[Global]
  {
    assert RowKey(d.start, Global) in s4.db;
  }

  lemma OneGathered(s: State, one: map<Scope, Counts>)
    requires one == map[Global := Counts(1, 1)] && s.cum == one && s.base == map[] && s.bucket == map[]
    ensures Gathers(s, one)
  {
    hide SumDelta;
    assert Platforms(s.cum) == {};
    SumEmpty(s.cum, s.base);
    assert one[Global := At(one, Global)] == one;
  }

  /** Restarted within the bucket's time, the second process replaces the first
      one's row: two requests were recorded and written, one is left. */
  lemma RestartLosesRows(now: int, width: int) returns (first: seq<State>, second: seq<State>, steps: seq<Step>)
    requires width > 0
    ensures ValidRun(first, steps) && ValidRun(second, steps)
    ensures second[0] == Boot(now, width, first[|steps|].db)
    ensures At(first[|steps|].cum, Global) == At(second[|steps|].cum, Global) == Counts(1, 1)
    ensures Row(second[|steps|].db, Truncate(now, width), Global) == Counts(1, 1)
  {
    hide Truncate, Boot;
    var steps1, steps2;
    first, steps1 := OneRequest(now, width, map[]);
    second, steps2 := OneRequest(now, width, first[|steps1|].db);
    steps := steps1;
  }
}
