/** The dirty sets and the flush of the state engine, updated in place. */
module StateEngine {
  import opened Types
  import opened WriteBehind

  /** Values read at flush time; a reader that finds nothing returns None. */
  type Memory = map<Key, Value>
  type Marks = map<Key, DirtyOp>

  class DirtySet {
    var m: Marks

    constructor ()
      ensures m == map[]
    {
      m := map[];
    }

    method MarkUpsert(key: Key)
      modifies this
      ensures m == old(m)[key := OpUpsert]
    {
      m := m[key := OpUpsert];
    }

    method MarkDelete(key: Key)
      modifies this
      ensures m == old(m)[key := OpDelete]
    {
      m := m[key := OpDelete];
    }

    /** Hands the marks over and starts afresh. */
    method Drain() returns (drained: Marks)
      modifies this
      ensures drained == old(m) && m == map[]
    {
      drained := m;
      m := map[];
    }

    /** Marks made since the drain win. */
    method Merge(drained: Marks)
      modifies this
      ensures m == MergeBack(old(m), drained)
    {
      var todo := drained.Keys;
      while todo != {}
        invariant todo <= drained.Keys
        invariant forall k :: k in m <==> k in old(m) || k in drained.Keys - todo
        invariant forall k :: k in m ==> m[k] == if k in old(m) then old(m)[k] else drained[k]
        decreases todo
      {
        var k :| k in todo;
        todo := todo - {k};
        if k !in m {
          m := m[k := drained[k]];
        }
      }
    }
  }

  datatype Row = Row(key: Key, value: Value)

  /** The two lists a classified snapshot turns into say, key by key, what the
      transaction must do. */
  ghost predicate Classified(drained: Marks, mem: Memory, upserts: seq<Row>, deletes: seq<Key>) {
    && (forall r :: r in upserts <==> r.key in drained && drained[r.key].OpUpsert? && r.key in mem && r.value == mem[r.key])
    && (forall k :: k in deletes <==> k in drained && (drained[k].OpDelete? || k !in mem))
  }

  method ClassifyDirtySet(drained: Marks, mem: Memory) returns (upserts: seq<Row>, deletes: seq<Key>)
    ensures Classified(drained, mem, upserts, deletes)
  {
    upserts, deletes := [], [];
    var todo := drained.Keys;
    while todo != {}
      invariant todo <= drained.Keys
      invariant forall r :: r in upserts <==> r.key in drained.Keys - todo && drained[r.key].OpUpsert? && r.key in mem && r.value == mem[r.key]
      invariant forall k :: k in deletes <==> k in drained.Keys - todo && (drained[k].OpDelete? || k !in mem)
      decreases todo
    {
      var key :| key in todo;
      todo := todo - {key};
      if drained[key].OpDelete? {
        deletes := deletes + [key];
        continue;
      }
      if key !in mem {
        deletes := deletes + [key];
      } else {
        upserts := upserts + [Row(key, mem[key])];
      }
    }
  }

  /** One transaction: all upserts, then all deletions. */
  method FlushTx(db: map<Key, Value>, upserts: seq<Row>, deletes: seq<Key>) returns (db': map<Key, Value>)
    requires forall i, j :: 0 <= i < |upserts| && 0 <= j < |upserts| && upserts[i].key == upserts[j].key ==> upserts[i] == upserts[j]
    ensures forall k :: k in db' <==> k !in deletes && (k in db || exists i :: 0 <= i < |upserts| && upserts[i].key == k)
    ensures forall r :: r in upserts && r.key !in deletes ==> r.key in db' && db'[r.key] == r.value
    ensures forall k :: k in db' && (forall i :: 0 <= i < |upserts| ==> upserts[i].key != k) ==> k in db && db'[k] == db[k]
  {
    db' := db;
    for i := 0 to |upserts|
      invariant forall k :: k in db' <==> k in db || exists j :: 0 <= j < i && upserts[j].key == k
      invariant forall j :: 0 <= j < i ==> db'[upserts[j].key] == upserts[j].value
      invariant forall k :: k in db' && (forall j :: 0 <= j < i ==> upserts[j].key != k) ==> k in db && db'[k] == db[k]
    {
      db' := db'[upserts[i].key := upserts[i].value];
    }
    ghost var upserted := db';
    for i := 0 to |deletes|
      invariant forall k :: k in db' <==> k in upserted && k !in deletes[..i]
      invariant forall k :: k in db' ==> db'[k] == upserted[k]
    {
      db' := db' - {deletes[i]};
      assert deletes[..i + 1] == deletes[..i] + [deletes[i]];
    }
    assert deletes[..|deletes|] == deletes;
  }

  /** What reading every upserted key yields. */
  function ReadAll(drained: Marks, mem: Memory): map<Key, Option<Value>> {
    map k | k in drained && drained[k].OpUpsert? :: Lookup(mem, k)
  }

  lemma ClassifiedWrites(drained: Marks, mem: Memory, upserts: seq<Row>, deletes: seq<Key>, db: map<Key, Value>, db': map<Key, Value>)
    requires Classified(drained, mem, upserts, deletes)
    requires forall k :: k in db' <==> k !in deletes && (k in db || exists i :: 0 <= i < |upserts| && upserts[i].key == k)
    requires forall r :: r in upserts && r.key !in deletes ==> r.key in db' && db'[r.key] == r.value
    requires forall k :: k in db' && (forall i :: 0 <= i < |upserts| ==> upserts[i].key != k) ==> k in db && db'[k] == db[k]
    ensures db' == Written(db, drained, ReadAll(drained, mem))
  {
    var w := Written(db, drained, ReadAll(drained, mem));
    forall k ensures (k in db' <==> k in w) && (k in w ==> k in db' && db'[k] == w[k]) {
      if k in drained && drained[k].OpUpsert? && k in mem {
        var r := Row(k, mem[k]);
        assert r in upserts;
        var i :| 0 <= i < |upserts| && upserts[i] == r;
        assert upserts[i].key == k;
      } else {
        forall i | 0 <= i < |upserts| ensures upserts[i].key != k {
          assert upserts[i] in upserts;
        }
      }
    }
  }

  /** Each set's marks are of its own table. */
  ghost predicate ByTable(ms: seq<Marks>) {
    forall t, k :: 0 <= t < |ms| && k in ms[t] ==> k.table == t
  }

  /** The marks of all tables together. */
  function AllMarks(ms: seq<Marks>): Marks {
    if ms == [] then map[] else AllMarks(ms[..|ms| - 1]) + ms[|ms| - 1]
  }

  lemma {:induction false} MarksAt(ms: seq<Marks>, k: Key)
    requires ByTable(ms)
    ensures k in AllMarks(ms) <==> k.table < |ms| && k in ms[k.table]
    ensures k in AllMarks(ms) ==> AllMarks(ms)[k] == ms[k.table][k]
  {
    if ms != [] {
      MarksAt(ms[..|ms| - 1], k);
    }
  }

  /** One more table's marks, classified on their own. */
  lemma ClassifiedMore(ms: seq<Marks>, more: Marks, mem: Memory, upserts: seq<Row>, deletes: seq<Key>, us: seq<Row>, ds: seq<Key>)
    requires ByTable(ms + [more])
    requires Classified(AllMarks(ms), mem, upserts, deletes) && Classified(more, mem, us, ds)
    ensures Classified(AllMarks(ms + [more]), mem, upserts + us, deletes + ds)
  {
    var all := ms + [more];
    assert all[..|ms|] == ms;
    assert ByTable(ms) by {
      assert forall t :: 0 <= t < |ms| ==> all[t] == ms[t];
    }
    assert all[|ms|] == more;
    forall k ensures k in AllMarks(ms) ==> k !in more {
      MarksAt(ms, k);
    }
  }

  class Engine {
    /** One dirty set for each table. */
    const sets: seq<DirtySet>
    var db: map<Key, Value>

    ghost predicate Valid()
      reads sets
    {
      && |sets| == TABLES
      && (forall i, j :: 0 <= i < j < |sets| ==> sets[i] != sets[j])
      && ByTable(Marked())
    }

    ghost function Marked(): (ms: seq<Marks>)
      reads sets
      ensures |ms| == |sets| && forall t :: 0 <= t < |sets| ==> ms[t] == sets[t].m
    {
      seq(|sets|, t requires 0 <= t < |sets| reads sets => sets[t].m)
    }

    constructor (db: map<Key, Value>)
      ensures Valid() && this.db == db && forall t :: 0 <= t < |sets| ==> fresh(sets[t]) && sets[t].m == map[]
    {
      this.db := db;
      var sets: seq<DirtySet> := [];
      for t := 0 to TABLES
        invariant |sets| == t
        invariant forall i :: 0 <= i < t ==> fresh(sets[i]) && sets[i].m == map[]
        invariant forall i, j :: 0 <= i < j < t ==> sets[i] != sets[j]
      {
        var s := new DirtySet();
        sets := sets + [s];
      }
      this.sets := sets;
    }

    method DrainAll() returns (drained: seq<Marks>)
      requires Valid()
      modifies sets
      ensures drained == old(Marked()) && forall t :: 0 <= t < |sets| ==> sets[t].m == map[]
    {
      drained := [];
      for t := 0 to |sets|
        invariant |drained| == t && forall i :: 0 <= i < t ==> drained[i] == old(sets[i].m) && sets[i].m == map[]
        invariant forall i :: t <= i < |sets| ==> sets[i].m == old(sets[i].m)
      {
        var m := sets[t].Drain();
        drained := drained + [m];
      }
      assert drained == old(Marked());
    }

    method ClassifyAll(drained: seq<Marks>, mem: Memory) returns (upserts: seq<Row>, deletes: seq<Key>)
      requires ByTable(drained)
      ensures Classified(AllMarks(drained), mem, upserts, deletes)
    {
      upserts, deletes := [], [];
      for t := 0 to |drained|
        invariant Classified(AllMarks(drained[..t]), mem, upserts, deletes)
      {
        var us, ds := ClassifyDirtySet(drained[t], mem);
        assert drained[..t + 1] == drained[..t] + [drained[t]];
        ClassifiedMore(drained[..t], drained[t], mem, upserts, deletes, us, ds);
        upserts, deletes := upserts + us, deletes + ds;
      }
      assert drained[..|drained|] == drained;
    }

    method MergeAll(drained: seq<Marks>)
      requires Valid() && |drained| == |sets| && forall t :: 0 <= t < |sets| ==> sets[t].m == map[]
      modifies sets
      ensures Marked() == drained
    {
      for t := 0 to |sets|
        invariant forall i :: 0 <= i < t ==> sets[i].m == drained[i]
        invariant forall i :: t <= i < |sets| ==> sets[i].m == map[]
      {
        sets[t].Merge(drained[t]);
        assert MergeBack(map[], drained[t]) == drained[t];
      }
      assert Marked() == drained;
    }

    /** One flush of all dirty sets with nothing else going on: committed, the rows
        of the drained keys are what memory holds; failed, all is as it was. */
    method FlushDirtySets(mem: Memory, txOk: bool) returns (ok: bool)
      requires Valid()
      modifies this, sets
      ensures Valid() && ok == txOk
      ensures ok ==> db == Written(old(db), AllMarks(old(Marked())), ReadAll(AllMarks(old(Marked())), mem))
      ensures ok ==> forall t :: 0 <= t < |sets| ==> sets[t].m == map[]
      ensures !ok ==> db == old(db) && Marked() == old(Marked())
    {
      var drained := DrainAll();
      var upserts, deletes := ClassifyAll(drained, mem);
      if !txOk {
        MergeAll(drained);
        return false;
      }
      forall i, j | 0 <= i < |upserts| && 0 <= j < |upserts| && upserts[i].key == upserts[j].key
        ensures upserts[i] == upserts[j]
      {
        assert upserts[i] in upserts && upserts[j] in upserts;
      }
      ghost var was := db;
      db := FlushTx(db, upserts, deletes);
      ClassifiedWrites(AllMarks(drained), mem, upserts, deletes, was, db);
      return true;
    }
  }
}
