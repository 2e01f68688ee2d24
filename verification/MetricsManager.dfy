/** The metrics manager's state, updated in place. */
module MetricsManager {
  import opened Types
  import opened Metrics

  /** What flushing the queue does, given how each attempt ends: it goes on after
      a complete write and stops at the first that is not. */
  ghost function FlushAll(s: State, outcomes: seq<Outcome>): State
    decreases outcomes
  {
    if outcomes == [] || s.pending == [] then s
    else if outcomes[0].Complete? then FlushAll(WriteOne(s, Complete), outcomes[1..])
    else WriteOne(s, outcomes[0])
  }

  ghost function WriteOne(s: State, outcome: Outcome): State
    requires s.pending != []
  {
    var db := if outcome.Failed? then s.db else WriteBucket(s.db, s.pending[0]);
    if outcome.Complete? then s.(db := db, pending := s.pending[1..], written := s.written + [s.pending[0]])
    else s.(db := db)
  }

  /** Flushing with failures keeps every bucket, in the queue's order. */
  lemma {:induction false} FlushAllKeeps(s: State, outcomes: seq<Outcome>)
    requires Inv(s)
    ensures Inv(FlushAll(s, outcomes)) && Finished(FlushAll(s, outcomes)) == Finished(s)
    ensures |FlushAll(s, outcomes).written| <= |s.written| + |outcomes|
    ensures (forall i :: 0 <= i < |outcomes| ==> outcomes[i].Complete?) && |outcomes| >= |s.pending| ==> FlushAll(s, outcomes).pending == []
    decreases outcomes
  {
    if outcomes != [] && s.pending != [] {
      var s' := WriteOne(s, outcomes[0]);
      WriteHeadInv(s, s', outcomes[0]);
      hide Inv;
      SameFinished(s, s');
      if outcomes[0].Complete? {
        FlushAllKeeps(s', outcomes[1..]);
      }
    }
  }

  /** The scope and the global one have grown by c. */
  ghost predicate AddsTo(bucket: map<Scope, Counts>, bucket': map<Scope, Counts>, scope: Scope, c: Counts) {
    forall s :: At(bucket', s) == if s == scope || s == Global then Plus(At(bucket, s), c) else At(bucket, s)
  }

  /** An aggregation that has come as far as the platforms in done. */
  ghost predicate Partial(before: map<Scope, Counts>, bucket: map<Scope, Counts>, cum: map<Scope, Counts>, base: map<Scope, Counts>, done: set<Scope>, sum: Counts) {
    && sum == SumDelta(done, cum, base)
    && At(bucket, Global) == Plus(At(before, Global), sum)
    && forall s :: s != Global ==> At(bucket, s) == Plus(At(before, s), if s in done then Delta(At(cum, s), At(base, s)) else ZERO)
  }

  lemma PartialStart(bucket: map<Scope, Counts>, cum: map<Scope, Counts>, base: map<Scope, Counts>)
    ensures Partial(bucket, bucket, cum, base, {}, ZERO)
  {
    hide SumDelta, Plus;
    SumEmpty(cum, base);
    forall s ensures Plus(At(bucket, s), ZERO) == At(bucket, s) {
      NoMove(At(bucket, s));
    }
  }

  lemma PartialStep(before: map<Scope, Counts>, bucket: map<Scope, Counts>, bucket': map<Scope, Counts>, cum: map<Scope, Counts>, base: map<Scope, Counts>, done: set<Scope>, sum: Counts, s: Scope)
    requires Partial(before, bucket, cum, base, done, sum) && s !in done && s != Global && Global !in done
    requires var delta := Delta(At(cum, s), At(base, s));
             if delta.total <= 0 then bucket' == bucket else AddsTo(bucket, bucket', s, delta)
    ensures Partial(before, bucket', cum, base, done + {s}, Plus(Delta(At(cum, s), At(base, s)), sum))
  {
    hide SumDelta, Plus, Delta, At;
    var delta := Delta(At(cum, s), At(base, s));
    DeltaZero(At(cum, s), At(base, s));
    SumSplit(done + {s}, cum, base, s);
    assert done + {s} - {s} == done;
    PlusZero(At(before, Global), sum, delta);
    ZeroPlus(delta);
    ZeroPlus(sum);
    ZeroPlus(At(before, s));
    if delta.total <= 0 {
      assert forall x :: At(bucket', x) == At(bucket, x);
      hide AddsTo;
    }
  }

  lemma CumAt(cum: map<Scope, Counts>, s: Scope)
    requires s in cum
    ensures At(cum, s) == cum[s]
  {
  }

  lemma DeltaZero(c: Counts, b: Counts)
    ensures Delta(c, b).total >= 0
    ensures Delta(c, b).total == 0 ==> Delta(c, b) == ZERO
    ensures Delta(c, b) == Counts(Delta(c, b).total, Min(NonNegative(Delta(c, b).success), Delta(c, b).total))
  {
  }

  lemma RestZero(x: int)
    ensures NonNegative(x) >= 0 && Min(NonNegative(x), 0) == 0
  {
  }

  lemma ClampedOnce(x: int, rest: int)
    requires rest >= 0
    ensures Min(NonNegative(Min(NonNegative(x), rest)), rest) == Min(NonNegative(x), rest)
  {
  }

  /** What the global counter moved beyond the platforms completes it. */
  lemma PartialEnd(before: map<Scope, Counts>, bucket: map<Scope, Counts>, bucket': map<Scope, Counts>, cum: map<Scope, Counts>, base: map<Scope, Counts>, sum: Counts)
    requires Partial(before, bucket, cum, base, Platforms(cum), sum)
    requires var delta := Delta(At(cum, Global), At(base, Global));
             var rest := NonNegative(delta.total - sum.total);
             var c := Counts(rest, Min(NonNegative(delta.success - sum.success), rest));
             if rest == 0 then bucket' == bucket else AddsTo(bucket, bucket', Global, c)
    ensures Aggregates(base, At(cum, Global), cum, before, bucket', cum[Global := At(cum, Global)])
  {
    hide SumDelta, Plus, Delta, NonNegative, Min, At;
    var delta := Delta(At(cum, Global), At(base, Global));
    var rest := NonNegative(delta.total - sum.total);
    var c := Counts(rest, Min(NonNegative(delta.success - sum.success), rest));
    RestZero(delta.success - sum.success);
    PlusZero(At(before, Global), sum, c);
    ZeroPlus(sum);
  }

  lemma ZeroPlus(a: Counts)
    ensures Plus(ZERO, a) == a == Plus(a, ZERO)
  {
  }

  lemma PlusZero(a: Counts, b: Counts, c: Counts)
    ensures Plus(a, ZERO) == a
    ensures Plus(Plus(a, b), c) == Plus(a, Plus(c, b)) == Plus(a, Plus(b, c))
  {
  }

  class Manager {
    const width: int
    var cum: map<Scope, Counts>
    var base: map<Scope, Counts>
    var start: int
    var bucket: map<Scope, Counts>
    var pending: seq<Data>
    var db: map<RowKey, Counts>
    ghost var loose: Counts
    ghost var looseBase: Counts
    ghost var inHand: seq<Data>
    ghost var written: seq<Data>
    ghost const found: map<RowKey, Counts>
    ghost var stopped: bool

    ghost function W(): State
      reads this
    {
      State(width, cum, loose, base, looseBase, start, bucket, inHand, pending, written, db, found, stopped)
    }

    constructor (now: int, width: int, db: map<RowKey, Counts>)
      requires width > 0
      ensures W() == Boot(now, width, db)
    {
      this.width := width;
      cum, base, bucket := map[Global := ZERO], map[], map[];
      start := Truncate(now, width);
      pending, this.db := [], db;
      loose, looseBase, inHand, written := ZERO, ZERO, [], [];
      found, stopped := db, false;
    }

    method RecordRequest(scope: Scope, success: bool)
      modifies `cum, `loose
      ensures Moves(old(W()), W(), Record(scope, success))
    {
      var one := Counts(1, if success then 1 else 0);
      cum := Add(cum, Global, one);
      if scope == Global {
        loose := Plus(loose, one);
      } else {
        cum := Add(cum, scope, one);
      }
    }

    /** Into the current bucket: the global scope, and the platform's. */
    method AddRequestCounts(scope: Scope, total: int, success: int)
      modifies `bucket
      ensures total <= 0 ==> bucket == old(bucket)
      ensures total > 0 ==> AddsTo(old(bucket), bucket, scope, Counts(total, Min(NonNegative(success), total)))
    {
      hide Plus;
      if total <= 0 {
        return;
      }
      var success := success;
      if success < 0 {
        success := 0;
      }
      if success > total {
        success := total;
      }
      var c := Counts(total, success);
      bucket := Add(bucket, Global, c);
      if scope != Global {
        bucket := Add(bucket, scope, c);
      }
    }

    method AggregateCollectorDeltas()
      modifies `bucket, `base, `looseBase
      ensures Aggregates(old(base), At(cum, Global), cum, old(bucket), bucket, base)
      ensures base == cum[Global := At(cum, Global)] && looseBase == loose
    {
      hide SumDelta, Plus, Partial, AddsTo, Aggregates, Delta, At, NonNegative, Min;
      var global := Delta(At(cum, Global), At(base, Global));
      ghost var before := bucket;
      var sum := ZERO;
      ghost var done := {};
      PartialStart(bucket, cum, base);
      var todo := cum.Keys - {Global};
      while todo != {}
        invariant todo <= cum.Keys - {Global} && done == cum.Keys - {Global} - todo
        invariant base == old(base) && Partial(before, bucket, cum, base, done, sum)
        decreases todo
      {
        var s :| s in todo;
        todo := todo - {s};
        var delta := Delta(cum[s], At(base, s));
        ghost var b := bucket;
        CumAt(cum, s);
        DeltaZero(At(cum, s), At(base, s));
        if delta.total != 0 {
          AddRequestCounts(s, delta.total, delta.success);
        }
        PartialStep(before, b, bucket, cum, base, done, sum, s);
        sum := Plus(delta, sum);
        done := done + {s};
      }
      assert done == Platforms(cum);
      ghost var b := bucket;
      var rest := NonNegative(global.total - sum.total);
      var restSuccess := Min(NonNegative(global.success - sum.success), rest);
      RestZero(global.total - sum.total);
      ClampedOnce(global.success - sum.success, rest);
      if rest != 0 {
        AddRequestCounts(Global, rest, restSuccess);
      }
      PartialEnd(before, b, bucket, cum, base, sum);
      base := cum[Global := At(cum, Global)];
      looseBase := loose;
    }

    method MaybeFlush(now: int) returns (data: Option<Data>)
      requires width > 0
      modifies `start, `bucket, `inHand
      ensures W() == Flushed(old(W()), now)
      ensures data == if now < old(start) + width then None else Some(Data(old(start), old(bucket)))
    {
      if now < start + width {
        return None;
      }
      data := Some(Data(start, bucket));
      inHand := inHand + [data.value];
      start := Truncate(now, width);
      bucket := map[];
    }

    method AdvanceAndMaybeFlush(now: int) returns (data: Option<Data>)
      requires width > 0 && !stopped
      modifies `bucket, `base, `looseBase, `start, `inHand
      ensures Moves(old(W()), W(), Advance(now))
      ensures data.Some? ==> inHand == old(inHand) + [data.value]
    {
      hide Aggregates, Truncate, SumDelta;
      AggregateCollectorDeltas();
      ghost var b := bucket;
      data := MaybeFlush(now);
      assert AdvancesWith(old(W()), W(), now, b);
    }

    /** others: whether traffic, probes or lease samples are waiting. */
    method ForceFlush(others: bool) returns (data: Option<Data>)
      modifies `bucket, `inHand
      ensures W() == ForceFlushed(old(W()), others)
      ensures data.Some? ==> inHand == old(inHand) + [data.value]
    {
      if bucket == map[] && !others {
        return None;
      }
      data := Some(Data(start, bucket));
      inHand := inHand + [data.value];
      bucket := map[];
    }

    /** The last aggregation, and the current bucket before its time. */
    method Stop(others: bool) returns (data: Option<Data>)
      requires !stopped
      modifies `bucket, `base, `looseBase, `inHand, `stopped
      ensures Moves(old(W()), W(), Shutdown(others))
      ensures data.Some? ==> inHand == old(inHand) + [data.value]
    {
      hide Aggregates, SumDelta;
      AggregateCollectorDeltas();
      ghost var b := bucket;
      data := ForceFlush(others);
      stopped := true;
      assert StopsWith(old(W()), W(), others, b);
    }

    method EnqueuePersistTask(data: Data, ghost i: nat)
      requires i < |inHand| && inHand[i] == data
      modifies `pending, `inHand
      ensures Moves(old(W()), W(), Enqueue(i))
    {
      pending := pending + [data];
      inHand := inHand[..i] + inHand[i + 1..];
    }

    /** outcomes: how the attempts end, should they be made. */
    method FlushPendingTasks(outcomes: seq<Outcome>)
      modifies `pending, `db, `written
      ensures W() == FlushAll(old(W()), outcomes)
    {
      hide WriteBucket;
      var i := 0;
      while i < |outcomes| && |pending| > 0
        invariant 0 <= i <= |outcomes|
        invariant FlushAll(W(), outcomes[i..]) == FlushAll(old(W()), outcomes)
      {
        var task := pending[0];
        assert outcomes[i..][0] == outcomes[i] && outcomes[i..][1..] == outcomes[i + 1..];
        if outcomes[i] != Failed {
          db := WriteBucket(db, task);
        }
        if outcomes[i] != Complete {
          return;
        }
        pending := pending[1..];
        written := written + [task];
        i := i + 1;
      }
    }
  }
}
