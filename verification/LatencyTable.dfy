/** The per-domain latency table of a node: authority domains are resident, the
    regular ones share a bounded partition, least recently accessed out first. */
module LatencyTable {
  import opened Types

  datatype Key = Key(hash: int)
  type Domain = int

  const TOUCH_MIN_INTERVAL := 100_000_000

  datatype Stats = Stats(ewma: int, lastUpdated: int)

  datatype Slot = Free | Slot(key: Key, cell: Cell)

  datatype Cell = Cell(domain: Domain, stats: Stats, lastAccess: int)

  // ------------------------------------------------------------------
  // The moving average
  // ------------------------------------------------------------------

  function Truncated(x: real): int {
    if x >= 0.0 then x.Floor else -(-x).Floor
  }

  function Times(x: real, y: real): real {
    x * y
  }

  function Mix(a: real, b: real, weight: real): real {
    a * weight + b * (1.0 - weight)
  }

  function Blend(before: int, sample: int, weight: real): int {
    Truncated(Mix(before as real, sample as real, weight))
  }

  /** For any weight the new average lies between the old one and the sample. */
  lemma BlendBetween(before: int, sample: int, weight: real)
    requires 0.0 <= weight <= 1.0
    ensures (if before <= sample then before else sample) <= Blend(before, sample, weight) <= (if before <= sample then sample else before)
  {
    hide Mix;
    MixBetween(before as real, sample as real, weight);
    var x := Mix(before as real, sample as real, weight);
    if before <= sample {
      TruncatedBetween(before, x, sample);
    } else {
      TruncatedBetween(sample, x, before);
    }
  }

  lemma MixBetween(a: real, b: real, weight: real)
    requires 0.0 <= weight <= 1.0
    ensures a <= b ==> a <= Mix(a, b, weight) <= b
    ensures b <= a ==> b <= Mix(a, b, weight) <= a
  {
    hide Mix, Times;
    Convex(a, b, weight);
    if a <= b {
      Scaled(b - a, 1.0 - weight);
    } else {
      Scaled(a - b, weight);
    }
  }

  lemma Convex(a: real, b: real, w: real)
    ensures Mix(a, b, w) == a + Times(b - a, 1.0 - w)
    ensures Mix(a, b, w) == b + Times(a - b, w)
  {
  }

  lemma TruncatedBetween(lo: int, x: real, hi: int)
    requires lo as real <= x <= hi as real
    ensures lo <= Truncated(x) <= hi
  {
  }

  lemma Scaled(d: real, v: real)
    requires d >= 0.0 && 0.0 <= v <= 1.0
    ensures 0.0 <= Times(d, v) <= d
  {
    assert d * (1.0 - v) >= 0.0;
  }

  /** The first observation counts as it is. */
  function TdEWMAUpdate(before: Option<Stats>, latency: int, weight: real, now: int): Stats {
    if before.None? then Stats(latency, now) else Stats(Blend(before.value.ewma, latency, weight), now)
  }

  // ------------------------------------------------------------------
  // The table as two maps
  // ------------------------------------------------------------------

  datatype Table = Table(resident: map<Key, Cell>, bounded: map<Key, Cell>, capacity: int)

  predicate Fits(t: Table) {
    t.resident.Keys !! t.bounded.Keys && |t.bounded| <= t.capacity
  }

  function Lookup(t: Table, k: Key): Option<Stats> {
    if k in t.resident then Some(t.resident[k].stats)
    else if k in t.bounded then Some(t.bounded[k].stats)
    else None
  }

  function Pop(t: Table, k: Key): Table {
    t.(resident := t.resident - {k}, bounded := t.bounded - {k})
  }

  /** v was accessed no later than any other regular domain. */
  predicate Oldest(bounded: map<Key, Cell>, v: Key) {
    v in bounded && forall k :: k in bounded ==> bounded[v].lastAccess <= bounded[k].lastAccess
  }

  /** Room is taken if there is any; otherwise an oldest domain gives way. */
  ghost predicate PutRegular(b: map<Key, Cell>, b': map<Key, Cell>, capacity: int, k: Key, cell: Cell, victim: Option<Key>) {
    if |b| < capacity then victim.None? && b' == b[k := cell]
    else victim.Some? && Oldest(b, victim.value) && b' == (b - {victim.value})[k := cell]
  }

  ghost predicate Put(t: Table, t': Table, k: Key, cell: Cell, isAuthority: bool, victim: Option<Key>) {
    var p := Pop(t, k);
    && t'.capacity == t.capacity
    && if isAuthority then victim.None? && t'.resident == p.resident[k := cell] && t'.bounded == p.bounded
       else t'.resident == p.resident && PutRegular(p.bounded, t'.bounded, t.capacity, k, cell, victim)
  }

  function Touched(cells: map<Key, Cell>, k: Key, now: int): map<Key, Cell> {
    if k in cells && now - cells[k].lastAccess >= TOUCH_MIN_INTERVAL then cells[k := cells[k].(lastAccess := now)] else cells
  }

  datatype Op =
    | Update(key: Key, domain: Domain, latency: int, weight: real, isAuthority: bool)
    | Load(key: Key, domain: Domain, stats: Stats, isAuthority: bool)
    | Get(key: Key)

  function LoadAccess(stats: Stats, now: int): int {
    if stats.lastUpdated <= 0 then now else stats.lastUpdated
  }

  /** One operation at time now; victim: the domain evicted, if any. */
  ghost predicate Moves(t: Table, t': Table, op: Op, now: int, victim: Option<Key>) {
    match op
    case Update(k, domain, latency, weight, isAuthority) =>
      Put(t, t', k, Cell(domain, TdEWMAUpdate(Lookup(t, k), latency, weight, now), now), isAuthority, victim)
    case Load(k, domain, stats, isAuthority) =>
      Put(t, t', k, Cell(domain, stats, LoadAccess(stats, now)), isAuthority, victim)
    case Get(k) =>
      && victim.None? && t'.capacity == t.capacity
      && t'.resident == Touched(t.resident, k, now)
      && t'.bounded == Touched(t.bounded, k, now)
  }

  // ------------------------------------------------------------------
  // What every run keeps
  // ------------------------------------------------------------------

  lemma RemoveCard(m: map<Key, Cell>, k: Key)
    ensures |m - {k}| == if k in m then |m| - 1 else |m|
  {
    if k in m {
      assert m.Keys == (m - {k}).Keys + {k};
    } else {
      assert m - {k} == m;
    }
  }

  lemma PutRegularKeeps(b: map<Key, Cell>, b': map<Key, Cell>, capacity: int, k: Key, cell: Cell, victim: Option<Key>)
    requires k !in b && |b| <= capacity && capacity > 0 && PutRegular(b, b', capacity, k, cell, victim)
    ensures |b'| <= capacity && k in b'
    ensures forall x :: x in b' <==> x == k || (x in b && victim != Some(x))
    ensures victim.Some? ==> |b| == capacity && Oldest(b, victim.value)
  {
    if victim.Some? {
      RemoveCard(b, victim.value);
    }
  }

  /** The written key, and the two partitions afterwards. */
  lemma PutKeeps(t: Table, t': Table, k: Key, cell: Cell, isAuthority: bool, victim: Option<Key>)
    requires Fits(t) && t.capacity > 0 && Put(t, t', k, cell, isAuthority, victim)
    ensures Fits(t') && t'.capacity == t.capacity
    ensures forall x :: x in t'.resident <==> if x == k then isAuthority else x in t.resident
    ensures forall x :: x in t'.bounded <==> if x == k then !isAuthority else x in t.bounded && victim != Some(x)
    ensures victim.Some? ==> k !in t.bounded && |t.bounded| == t.capacity && Oldest(t.bounded, victim.value)
  {
    hide Oldest, PutRegular, Fits, Put;
    if isAuthority {
      PutAuthorityKeeps(t, t', k, cell, victim);
    } else {
      PutRegularSide(t, t', k, cell, victim);
    }
  }

  lemma PutAuthorityKeeps(t: Table, t': Table, k: Key, cell: Cell, victim: Option<Key>)
    requires Fits(t) && Put(t, t', k, cell, true, victim)
    ensures Fits(t') && t'.capacity == t.capacity && victim.None?
    ensures forall x :: x in t'.resident <==> x == k || x in t.resident
    ensures forall x :: x in t'.bounded <==> x in t.bounded && x != k
  {
    hide PutRegular;
    RemoveCard(t.bounded, k);
    PopKeys(t, k);
  }

  lemma PutRegularSide(t: Table, t': Table, k: Key, cell: Cell, victim: Option<Key>)
    requires Fits(t) && t.capacity > 0 && Put(t, t', k, cell, false, victim)
    ensures Fits(t') && t'.capacity == t.capacity
    ensures forall x :: x in t'.resident <==> x in t.resident && x != k
    ensures forall x :: x in t'.bounded <==> x == k || (x in t.bounded && victim != Some(x))
    ensures victim.Some? ==> k !in t.bounded && |t.bounded| == t.capacity && Oldest(t.bounded, victim.value)
  {
    hide Oldest, PutRegular;
    PopKeys(t, k);
    RegularSide(t.bounded, t'.bounded, t.capacity, k, cell, victim);
  }

  lemma RegularSide(b: map<Key, Cell>, b': map<Key, Cell>, capacity: int, k: Key, cell: Cell, victim: Option<Key>)
    requires |b| <= capacity && capacity > 0 && PutRegular(b - {k}, b', capacity, k, cell, victim)
    ensures |b'| <= capacity
    ensures forall x :: x in b' <==> x == k || (x in b && victim != Some(x))
    ensures victim.Some? ==> k !in b && |b| == capacity && Oldest(b, victim.value)
  {
    hide Oldest, PutRegular;
    RemoveCard(b, k);
    if k in b {
      PutRegularKeeps(b - {k}, b', capacity, k, cell, victim);
    } else {
      assert b - {k} == b;
      PutRegularKeeps(b, b', capacity, k, cell, victim);
    }
  }

  lemma PopKeys(t: Table, k: Key)
    ensures forall x :: x in Pop(t, k).resident <==> x in t.resident && x != k
    ensures forall x :: x in Pop(t, k).bounded <==> x in t.bounded && x != k
  {
  }

  lemma StepFits(t: Table, t': Table, op: Op, now: int, victim: Option<Key>)
    requires Fits(t) && t.capacity > 0 && Moves(t, t', op, now, victim)
    ensures Fits(t') && t'.capacity == t.capacity
  {
    hide TdEWMAUpdate, Put;
    match op
    case Update(k, domain, latency, weight, isAuthority) =>
      PutKeeps(t, t', k, Cell(domain, TdEWMAUpdate(Lookup(t, k), latency, weight, now), now), isAuthority, victim);
    case Load(k, domain, stats, isAuthority) =>
      PutKeeps(t, t', k, Cell(domain, stats, LoadAccess(stats, now)), isAuthority, victim);
    case Get(k) =>
      assert t'.resident.Keys == t.resident.Keys && t'.bounded.Keys == t.bounded.Keys;
  }

  /** What one operation may take away: a resident domain only moves to the
      regular side on its own update; a regular domain goes when it is evicted,
      the partition being full and it being an oldest one; nothing else, and
      never the last entry. */
  lemma StepKeeps(t: Table, t': Table, op: Op, now: int, victim: Option<Key>)
    requires Fits(t) && t.capacity > 0 && Moves(t, t', op, now, victim)
    ensures forall k :: k in t.resident && k !in t'.resident ==> !op.Get? && !op.isAuthority && op.key == k && k in t'.bounded
    ensures forall k :: k in t.bounded && k !in t'.bounded ==>
              (!op.Get? && op.isAuthority && op.key == k && k in t'.resident) || victim == Some(k)
    ensures victim.Some? ==> !op.Get? && op.key !in t.bounded && |t.bounded| == t.capacity && Oldest(t.bounded, victim.value)
    ensures t.resident != map[] || t.bounded != map[] ==> t'.resident != map[] || t'.bounded != map[]
  {
    hide TdEWMAUpdate, Put, Oldest, Fits;
    match op
    case Update(k, domain, latency, weight, isAuthority) =>
      PutKeeps(t, t', k, Cell(domain, TdEWMAUpdate(Lookup(t, k), latency, weight, now), now), isAuthority, victim);
      assert k in t'.resident || k in t'.bounded;
    case Load(k, domain, stats, isAuthority) =>
      PutKeeps(t, t', k, Cell(domain, stats, LoadAccess(stats, now)), isAuthority, victim);
      assert k in t'.resident || k in t'.bounded;
    case Get(k) =>
      assert t'.resident.Keys == t.resident.Keys && t'.bounded.Keys == t.bounded.Keys;
  }

  /** The time each domain was last really accessed: a write sets it, a read can
      only move it forward. */
  function Accessed(seen: map<Key, int>, op: Op, now: int): map<Key, int> {
    match op
    case Update(k, _, _, _, _) => seen[k := now]
    case Load(k, _, stats, _) => seen[k := LoadAccess(stats, now)]
    case Get(k) => if k in seen && now > seen[k] then seen[k := now] else seen
  }

  /** Reads only refresh stale stamps, yet no stamp lags by the interval. */
  ghost predicate Near(cells: map<Key, Cell>, seen: map<Key, int>) {
    forall k :: k in cells ==> k in seen && cells[k].lastAccess <= seen[k] < cells[k].lastAccess + TOUCH_MIN_INTERVAL
  }

  ghost predicate StampsNear(t: Table, seen: map<Key, int>) {
    Near(t.resident, seen) && Near(t.bounded, seen)
  }

  lemma NearWrite(cells: map<Key, Cell>, seen: map<Key, int>, k: Key, gone: Option<Key>, cell: Cell)
    requires Near(cells, seen)
    ensures Near(cells - {k}, seen[k := cell.lastAccess])
    ensures Near((cells - {k})[k := cell], seen[k := cell.lastAccess])
    ensures gone.Some? ==> Near((cells - {k} - {gone.value})[k := cell], seen[k := cell.lastAccess])
  {
  }

  lemma PutStamps(t: Table, t': Table, k: Key, cell: Cell, isAuthority: bool, victim: Option<Key>, seen: map<Key, int>)
    requires Put(t, t', k, cell, isAuthority, victim) && StampsNear(t, seen)
    ensures StampsNear(t', seen[k := cell.lastAccess])
  {
    hide Near, Oldest;
    NearWrite(t.resident, seen, k, victim, cell);
    NearWrite(t.bounded, seen, k, victim, cell);
  }

  lemma StepStamps(t: Table, t': Table, op: Op, now: int, victim: Option<Key>, seen: map<Key, int>)
    requires Moves(t, t', op, now, victim) && StampsNear(t, seen)
    ensures StampsNear(t', Accessed(seen, op, now))
  {
    hide TdEWMAUpdate, Lookup, Put;
    match op
    case Update(k, domain, latency, weight, isAuthority) =>
      PutStamps(t, t', k, Cell(domain, TdEWMAUpdate(Lookup(t, k), latency, weight, now), now), isAuthority, victim, seen);
    case Load(k, domain, stats, isAuthority) =>
      PutStamps(t, t', k, Cell(domain, stats, LoadAccess(stats, now)), isAuthority, victim, seen);
    case Get(k) =>
  }

  datatype Event = Event(op: Op, now: int, victim: Option<Key>)

  ghost predicate ValidRun(tables: seq<Table>, events: seq<Event>) {
    && |tables| == |events| + 1
    && tables[0].resident == map[] && tables[0].bounded == map[] && tables[0].capacity > 0
    && forall i :: 0 <= i < |events| ==> Moves(tables[i], tables[i + 1], events[i].op, events[i].now, events[i].victim)
  }

  function AccessedAll(events: seq<Event>): map<Key, int> {
    if events == [] then map[]
    else Accessed(AccessedAll(events[..|events| - 1]), events[|events| - 1].op, events[|events| - 1].now)
  }

  lemma {:induction false} AlwaysFits(tables: seq<Table>, events: seq<Event>, n: nat)
    requires ValidRun(tables, events) && n <= |events|
    ensures Fits(tables[n]) && tables[n].capacity == tables[0].capacity && StampsNear(tables[n], AccessedAll(events[..n]))
  {
    hide Moves, StampsNear, Fits;
    if n > 0 {
      AlwaysFits(tables, events, n - 1);
      var e := events[n - 1];
      assert events[..n][..n - 1] == events[..n - 1] && events[..n][n - 1] == e;
      StepFits(tables[n - 1], tables[n], e.op, e.now, e.victim);
      StepStamps(tables[n - 1], tables[n], e.op, e.now, e.victim, AccessedAll(events[..n - 1]));
    } else {
      EmptyFits(tables[0]);
      assert events[..0] == [];
    }
  }

  lemma EmptyFits(t: Table)
    requires t.resident == map[] && t.bounded == map[] && t.capacity > 0
    ensures Fits(t) && StampsNear(t, map[])
  {
  }

  /** In every run an evicted domain was, to within the touch interval, accessed
      no later than each regular domain that stays. */
  lemma NearLeastRecent(tables: seq<Table>, events: seq<Event>, n: nat, k: Key)
    requires ValidRun(tables, events) && n < |events| && events[n].victim.Some? && k in tables[n].bounded
    ensures |tables[n].bounded| == tables[0].capacity
    ensures var seen, v := AccessedAll(events[..n]), events[n].victim.value;
            v in seen && k in seen && seen[v] < seen[k] + TOUCH_MIN_INTERVAL
  {
    hide Moves, AccessedAll;
    AlwaysFits(tables, events, n);
    StepKeeps(tables[n], tables[n + 1], events[n].op, events[n].now, events[n].victim);
  }

  // ------------------------------------------------------------------
  // Slots
  // ------------------------------------------------------------------

  /** No key in two slots. */
  ghost predicate Unique(slots: seq<Slot>) {
    forall i, j :: 0 <= i < j < |slots| && slots[i].Slot? && slots[j].Slot? ==> slots[i].key != slots[j].key
  }

  function Cells(slots: seq<Slot>): map<Key, Cell> {
    if slots == [] then map[]
    else
      var front, last := Cells(slots[..|slots| - 1]), slots[|slots| - 1];
      if last.Free? then front else front[last.key := last.cell]
  }

  lemma {:induction false} CellsOf(slots: seq<Slot>)
    requires Unique(slots)
    ensures forall i :: 0 <= i < |slots| && slots[i].Slot? ==> slots[i].key in Cells(slots) && Cells(slots)[slots[i].key] == slots[i].cell
    ensures forall k :: k in Cells(slots) ==> exists i :: 0 <= i < |slots| && slots[i].Slot? && slots[i].key == k
  {
    if slots != [] {
      CellsOf(slots[..|slots| - 1]);
    }
  }

  /** The map the slots stand for is determined by where its cells are. */
  lemma CellsAre(slots: seq<Slot>, m: map<Key, Cell>)
    requires Unique(slots)
    requires forall i :: 0 <= i < |slots| && slots[i].Slot? ==> slots[i].key in m && m[slots[i].key] == slots[i].cell
    requires forall k :: k in m ==> exists i :: 0 <= i < |slots| && slots[i].Slot? && slots[i].key == k
    ensures Cells(slots) == m
  {
    CellsOf(slots);
    hide Cells;
    assert Cells(slots).Keys == m.Keys;
  }

  /** The map once slot i no longer counts. */
  function Emptied(slots: seq<Slot>, i: nat): map<Key, Cell>
    requires i < |slots|
  {
    if slots[i].Free? then Cells(slots) else Cells(slots) - {slots[i].key}
  }

  lemma CellsUpdate(slots: seq<Slot>, i: nat, s: Slot)
    requires Unique(slots) && i < |slots|
    requires s.Slot? ==> s.key !in Emptied(slots, i)
    ensures Unique(slots[i := s])
    ensures Cells(slots[i := s]) == if s.Free? then Emptied(slots, i) else Emptied(slots, i)[s.key := s.cell]
  {
    CellsOf(slots);
    hide Cells;
    var next := slots[i := s];
    var m := if s.Free? then Emptied(slots, i) else Emptied(slots, i)[s.key := s.cell];
    forall k | k in m ensures exists j :: 0 <= j < |next| && next[j].Slot? && next[j].key == k {
      if k in Emptied(slots, i) && (s.Slot? ==> k != s.key) {
        var j :| 0 <= j < |slots| && slots[j].Slot? && slots[j].key == k;
        assert next[j] == slots[j];
      } else {
        assert next[i].key == k;
      }
    }
    CellsAre(next, m);
  }

  lemma UniqueRemoved(slots: seq<Slot>, i: nat)
    requires Unique(slots) && i < |slots|
    ensures Unique(slots[..i] + slots[i + 1..])
  {
  }

  lemma {:induction false} CellsRemoved(slots: seq<Slot>, i: nat)
    requires Unique(slots) && i < |slots| && slots[i].Slot?
    ensures Cells(slots[..i] + slots[i + 1..]) == Cells(slots) - {slots[i].key}
  {
    var n := |slots| - 1;
    var next := slots[..i] + slots[i + 1..];
    if i == n {
      assert next == slots[..n];
      CellsOf(slots[..n]);
    } else {
      CellsRemoved(slots[..n], i);
      assert next[..n - 1] == slots[..n][..i] + slots[..n][i + 1..];
      assert next[n - 1] == slots[n];
    }
  }

  /** The map is full exactly when no slot is free. */
  lemma {:induction false} CellsCount(slots: seq<Slot>)
    requires Unique(slots)
    ensures |Cells(slots)| <= |slots|
    ensures |Cells(slots)| == |slots| <==> forall i :: 0 <= i < |slots| ==> slots[i].Slot?
  {
    if slots != [] {
      var front, last := slots[..|slots| - 1], slots[|slots| - 1];
      CellsCount(front);
      assert last.Slot? ==> last.key !in Cells(front) by { CellsOf(front); }
      hide Unique;
      assert |Cells(slots)| == |Cells(front)| + if last.Slot? then 1 else 0;
      hide Cells;
      assert slots == front + [last];
    }
  }

  class LatencyTable {
    const domainKey: Domain -> Key
    var authorities: seq<Slot>
    const regular: array<Slot>

    ghost predicate Valid()
      reads this, regular
    {
      && regular.Length > 0
      && Unique(authorities) && Unique(regular[..])
      && (forall i :: 0 <= i < |authorities| ==> authorities[i].Slot?)
      && Cells(authorities).Keys !! Cells(regular[..]).Keys
    }

    ghost function Abs(): Table
      reads this, regular
    {
      Table(Cells(authorities), Cells(regular[..]), regular.Length)
    }

    constructor (maxEntries: int, domainKey: Domain -> Key)
      requires maxEntries > 0
      ensures Valid() && Abs() == Table(map[], map[], maxEntries) && fresh(regular) && this.domainKey == domainKey
    {
      this.domainKey := domainKey;
      authorities := [];
      regular := new Slot[maxEntries](_ => Free);
      new;
      CellsAre(regular[..], map[]);
    }

    lemma ValidFits()
      requires Valid()
      ensures Fits(Abs())
    {
      CellsCount(regular[..]);
    }

    method TotalSize() returns (count: int)
      requires Valid()
      ensures count == 0 <==> Abs().resident == map[] && Abs().bounded == map[]
    {
      hide Cells;
      CellsOf(authorities);
      CellsOf(regular[..]);
      count := 0;
      for i := 0 to |authorities|
        invariant count == i
      {
        if authorities[i].Slot? {
          count := count + 1;
        }
      }
      for i := 0 to regular.Length
        invariant count >= |authorities|
        invariant count == |authorities| <==> forall k :: 0 <= k < i ==> regular[k].Free?
      {
        if regular[i].Slot? {
          count := count + 1;
        }
      }
      if |authorities| > 0 {
        assert authorities[0].key in Abs().resident;
      }
    }

    method PopDomain(k: Key) returns (r: Option<Stats>)
      requires Valid()
      modifies `authorities, regular
      ensures Valid() && Abs() == Pop(old(Abs()), k) && r == Lookup(old(Abs()), k)
      ensures k !in Abs().resident && k !in Abs().bounded
    {
      hide Cells;
      CellsOf(authorities);
      CellsOf(regular[..]);
      ghost var m, b := Cells(authorities), Cells(regular[..]);
      for i := 0 to |authorities|
        invariant forall j :: 0 <= j < i ==> authorities[j].key != k
      {
        if authorities[i].key == k {
          r := Some(authorities[i].cell.stats);
          CellsRemoved(authorities, i);
          UniqueRemoved(authorities, i);
          authorities := authorities[..i] + authorities[i + 1..];
          assert b - {k} == b;
          return r;
        }
      }
      assert m - {k} == m;
      for i := 0 to regular.Length
        invariant forall j :: 0 <= j < i ==> regular[j].Free? || regular[j].key != k
      {
        if regular[i].Slot? && regular[i].key == k {
          r := Some(regular[i].cell.stats);
          CellsUpdate(regular[..], i, Free);
          regular[i] := Free;
          assert regular[..] == old(regular[..])[i := Free];
          return r;
        }
      }
      assert b - {k} == b;
      return None;
    }

    method UpsertAuthority(k: Key, cell: Cell)
      requires Valid() && k !in Abs().resident && k !in Abs().bounded
      modifies `authorities
      ensures Valid() && Abs() == old(Abs()).(resident := old(Abs()).resident[k := cell])
    {
      CellsOf(authorities);
      authorities := authorities + [Slot(k, cell)];
      assert authorities[..|authorities| - 1] == old(authorities);
    }

    method UpsertRegular(k: Key, cell: Cell) returns (evicted: Option<Domain>, ghost victim: Option<Key>)
      requires Valid() && k !in Abs().resident && k !in Abs().bounded
      modifies regular
      ensures Valid() && Abs().resident == old(Abs()).resident
      ensures PutRegular(old(Abs()).bounded, Abs().bounded, regular.Length, k, cell, victim)
      ensures evicted == if victim.None? then None else Some(old(Abs()).bounded[victim.value].domain)
    {
      hide Cells;
      ghost var b := Cells(regular[..]);
      CellsOf(regular[..]);
      CellsCount(regular[..]);
      var emptyIdx, oldestIdx := -1, -1;
      var oldestAccess := 0;
      for i := 0 to regular.Length
        invariant -1 <= emptyIdx < i && -1 <= oldestIdx < i
        invariant emptyIdx < 0 ==> forall j :: 0 <= j < i ==> regular[j].Slot?
        invariant emptyIdx >= 0 ==> regular[emptyIdx].Free?
        invariant oldestIdx < 0 ==> forall j :: 0 <= j < i ==> regular[j].Free?
        invariant oldestIdx >= 0 ==> regular[oldestIdx].Slot? && regular[oldestIdx].cell.lastAccess == oldestAccess
        invariant oldestIdx >= 0 ==> forall j :: 0 <= j < i && regular[j].Slot? ==> oldestAccess <= regular[j].cell.lastAccess
      {
        var slot := regular[i];
        if slot.Free? {
          if emptyIdx < 0 {
            emptyIdx := i;
          }
        } else if oldestIdx < 0 || slot.cell.lastAccess < oldestAccess {
          oldestIdx, oldestAccess := i, slot.cell.lastAccess;
        }
      }
      var targetIdx := emptyIdx;
      evicted, victim := None, None;
      if targetIdx < 0 {
        assert regular[0].Slot?;
        targetIdx := oldestIdx;
        evicted, victim := Some(regular[targetIdx].cell.domain), Some(regular[targetIdx].key);
      }
      CellsUpdate(regular[..], targetIdx, Slot(k, cell));
      regular[targetIdx] := Slot(k, cell);
      assert regular[..] == old(regular[..])[targetIdx := Slot(k, cell)];
    }

    /** weight: the decay factor e^(-dt/window). */
    method UpdateClassified(domain: Domain, latency: int, weight: real, now: int, isAuthority: bool)
      returns (wasEmpty: bool, evicted: Option<Domain>, ghost victim: Option<Key>)
      requires Valid()
      modifies this, regular
      ensures Valid() && Moves(old(Abs()), Abs(), Update(domainKey(domain), domain, latency, weight, isAuthority), now, victim)
      ensures wasEmpty <==> old(Abs()).resident == map[] && old(Abs()).bounded == map[]
      ensures evicted == if victim.None? then None else Some(old(Abs()).bounded[victim.value].domain)
    {
      hide Cells, Unique;
      var k := domainKey(domain);
      var size := TotalSize();
      wasEmpty := size == 0;
      var before := PopDomain(k);
      var stats := TdEWMAUpdate(before, latency, weight, now);
      if isAuthority {
        UpsertAuthority(k, Cell(domain, stats, now));
        evicted, victim := None, None;
      } else {
        evicted, victim := UpsertRegular(k, Cell(domain, stats, now));
      }
    }

    method LoadEntryClassified(domain: Domain, stats: Stats, now: int, isAuthority: bool) returns (evicted: Option<Domain>, ghost victim: Option<Key>)
      requires Valid()
      modifies this, regular
      ensures Valid() && Moves(old(Abs()), Abs(), Load(domainKey(domain), domain, stats, isAuthority), now, victim)
      ensures evicted == if victim.None? then None else Some(old(Abs()).bounded[victim.value].domain)
    {
      hide Cells, Unique;
      var k := domainKey(domain);
      var access := stats.lastUpdated;
      if access <= 0 {
        access := now;
      }
      var _ := PopDomain(k);
      if isAuthority {
        UpsertAuthority(k, Cell(domain, stats, access));
        evicted, victim := None, None;
      } else {
        evicted, victim := UpsertRegular(k, Cell(domain, stats, access));
      }
    }

    method GetDomainStats(domain: Domain, now: int) returns (r: Option<Stats>)
      requires Valid()
      modifies `authorities, regular
      ensures Valid() && Moves(old(Abs()), Abs(), Get(domainKey(domain)), now, None)
      ensures r == Lookup(old(Abs()), domainKey(domain))
    {
      hide Cells;
      var k := domainKey(domain);
      CellsOf(authorities);
      CellsOf(regular[..]);
      ghost var m, b := Cells(authorities), Cells(regular[..]);
      for i := 0 to |authorities|
        invariant forall j :: 0 <= j < i ==> authorities[j].key != k
      {
        if authorities[i].key != k {
          continue;
        }
        r := Some(authorities[i].cell.stats);
        if now - authorities[i].cell.lastAccess >= TOUCH_MIN_INTERVAL {
          var s := authorities[i].(cell := authorities[i].cell.(lastAccess := now));
          CellsUpdate(authorities, i, s);
          authorities := authorities[i := s];
          assert Cells(authorities) == Touched(m, k, now);
        }
        assert Touched(b, k, now) == b;
        return r;
      }
      for i := 0 to regular.Length
        invariant forall j :: 0 <= j < i ==> regular[j].Free? || regular[j].key != k
      {
        if regular[i].Free? || regular[i].key != k {
          continue;
        }
        r := Some(regular[i].cell.stats);
        if now - regular[i].cell.lastAccess >= TOUCH_MIN_INTERVAL {
          var s := regular[i].(cell := regular[i].cell.(lastAccess := now));
          CellsUpdate(regular[..], i, s);
          regular[i] := s;
          assert regular[..] == old(regular[..])[i := s];
          assert Cells(regular[..]) == Touched(b, k, now);
        }
        return r;
      }
      return None;
    }
  }
}
