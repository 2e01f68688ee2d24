/** Whole runs of one platform's sticky routing: every interleaving of requests,
    control-plane bindings, deletions and sweeps, from any restored table. */
module RoutingRuns {
  import opened Types
  import opened AccountWindow
  import opened StickyRouting
  import opened FiniteSets

  datatype Pair = Pair(ip: Addr, account: Account)

  /** One answered request. */
  datatype Serve = Serve(ip: Addr, account: Account, nodeHash: Hash, atNs: int, leaseCreated: bool)

  /** A table with its history: who was served where and when, and which
      in-window entries were seeded without passing any admission. */
  datatype World = World(table: Table, clockNs: int, log: seq<Serve>, seeded: set<Pair>)

  datatype Step =
    | Request(nodes: Nodes, account: Account, draw: Draw, nowNs: int)
    | Bind(account: Account, lease: Lease, nowNs: int, lingeringMark: bool)
    | Unbind(account: Account)
    | SweepLease(account: Account, nowNs: int)
    | SweepWindow(nowNs: int)

  function TimeOf(w: World, step: Step): int {
    if step.Unbind? then w.clockNs else step.nowNs
  }

  predicate ValidStep(w: World, step: Step) {
    && TimeOf(w, step) >= w.clockNs
    && (step.Request? ==> step.account != NoAccount && ValidDraw(step.nodes, step.draw))
  }

  /** Seeds that slid out of the window are ordinary again. */
  function StillSeeded(seeded: set<Pair>, window: Entries): set<Pair> {
    set s | s in seeded && s.account in SlotsAt(window, s.ip)
  }

  function Advance(p: Platform, w: World, nowNs: int): World {
    var t := SlideTo(p, w.table, nowNs);
    w.(table := t, clockNs := nowNs, seeded := StillSeeded(w.seeded, t.window))
  }

  function Answer(p: Platform, w: World, step: Step): (Table, Outcome)
    requires step.Request? && ValidStep(w, step)
  {
    Route(p, step.nodes, SlideTo(p, w.table, step.nowNs), step.account, step.draw, step.nowNs)
  }

  function Apply(p: Platform, w: World, step: Step): World
    requires ValidStep(w, step)
  {
    match step
    case Request(_, account, _, nowNs) =>
      var (t, out) := Answer(p, w, step);
      var w' := Advance(p, w, nowNs).(table := t);
      if out.Routed? then w'.(log := w.log + [Serve(out.egressIP, account, out.nodeHash, nowNs, out.leaseCreated)]) else w'
    case Bind(account, lease, nowNs, mark) =>
      var w' := Advance(p, w, nowNs);
      w'.(table := Upsert(p, w'.table, account, lease, nowNs, mark), seeded := w'.seeded + {Pair(lease.egressIP, account)})
    case Unbind(account) => w.(table := Delete(w.table, account))
    case SweepLease(account, nowNs) =>
      var w' := Advance(p, w, nowNs);
      w'.(table := ExpireLease(w'.table, account, nowNs))
    case SweepWindow(nowNs) => Advance(p, w, nowNs)
  }

  predicate ValidRun(p: Platform, w: World, steps: seq<Step>)
    decreases |steps|, 0
  {
    steps == [] ||
    (ValidRun(p, w, steps[..|steps| - 1]) &&
     ValidStep(Run(p, w, steps[..|steps| - 1]), steps[|steps| - 1]))
  }

  function Run(p: Platform, w: World, steps: seq<Step>): World
    requires ValidRun(p, w, steps)
    decreases |steps|, 1
  {
    if steps == [] then w else Apply(p, Run(p, w, steps[..|steps| - 1]), steps[|steps| - 1])
  }

  lemma RunExtends(p: Platform, w: World, before: seq<Step>, last: Step)
    requires ValidRun(p, w, before) && ValidStep(Run(p, w, before), last)
    ensures ValidRun(p, w, before + [last])
    ensures Run(p, w, before + [last]) == Apply(p, Run(p, w, before), last)
  {
    assert (before + [last])[..|before + [last]| - 1] == before;
  }

  datatype Restored = Restored(account: Account, lease: Lease)

  /** Start-up: the leases read back, one after the other. */
  function Boot(p: Platform, records: seq<Restored>, nowNs: int): World {
    if records == [] then World(Table(map[], map[], map[], []), nowNs, [], {})
    else
      var w := Boot(p, records[..|records| - 1], nowNs);
      var r := records[|records| - 1];
      w.(table := Restore(p, w.table, r.account, r.lease, nowNs, false), seeded := w.seeded + {Pair(r.lease.egressIP, r.account)})
  }

  // ------------------------------------------------------------------
  // Load counters count leases
  // ------------------------------------------------------------------

  function LeasesOn(leases: map<Account, Lease>, ip: Addr): set<Account> {
    set a | a in leases && leases[a].egressIP == ip
  }

  ghost predicate LoadCounts(t: Table) {
    forall ip: Addr :: ip.IsValid() ==> Load(t.load, ip) == |LeasesOn(t.leases, ip)|
  }

  lemma EndLeaseCounts(t: Table, account: Account, kind: LeaseEventType)
    requires LoadCounts(t)
    ensures LoadCounts(EndLease(t, account, kind))
  {
    if account in t.leases {
      var t' := EndLease(t, account, kind);
      forall ip: Addr | ip.IsValid() ensures Load(t'.load, ip) == |LeasesOn(t'.leases, ip)| {
        var on, on' := LeasesOn(t.leases, ip), LeasesOn(t'.leases, ip);
        assert Load(t.load, ip) == |on|;
        if t.leases[account].egressIP == ip {
          assert on == on' + {account};
        } else {
          assert on == on';
        }
      }
    }
  }

  /** Writing a lease over whatever the account held. */
  lemma StoreLeaseCounts(t: Table, t': Table, account: Account, lease: Lease)
    requires LoadCounts(t)
    requires t'.leases == t.leases[account := lease]
    requires t'.load == Inc(if account in t.leases then Dec(t.load, t.leases[account].egressIP) else t.load, lease.egressIP)
    ensures LoadCounts(t')
  {
    var ended := EndLease(t, account, LeaseRemove);
    EndLeaseCounts(t, account, LeaseRemove);
    assert t'.leases == ended.leases[account := lease];
    forall ip: Addr | ip.IsValid() ensures Load(t'.load, ip) == |LeasesOn(t'.leases, ip)| {
      assert Load(ended.load, ip) == |LeasesOn(ended.leases, ip)|;
      hide LoadCounts, EndLease;
      OneMoreOn(ended.leases, account, lease, ip);
      hide LeasesOn;
    }
  }

  lemma OneMoreOn(leases: map<Account, Lease>, account: Account, lease: Lease, ip: Addr)
    requires account !in leases
    ensures |LeasesOn(leases[account := lease], ip)| == |LeasesOn(leases, ip)| + if lease.egressIP == ip then 1 else 0
  {
    var on, on' := LeasesOn(leases, ip), LeasesOn(leases[account := lease], ip);
    assert on' == if lease.egressIP == ip then on + {account} else on;
  }

  lemma KeepLeaseCounts(t: Table, account: Account, nodeHash: Hash, kind: LeaseEventType, window: Entries, nowNs: int)
    requires LoadCounts(t) && account in t.leases
    ensures LoadCounts(KeepLease(t, account, nodeHash, kind, window, nowNs))
  {
    var t' := KeepLease(t, account, nodeHash, kind, window, nowNs);
    forall ip: Addr | ip.IsValid() ensures Load(t'.load, ip) == |LeasesOn(t'.leases, ip)| {
      assert LeasesOn(t'.leases, ip) == LeasesOn(t.leases, ip);
    }
  }

  lemma RouteCounts(p: Platform, nodes: Nodes, t: Table, account: Account, draw: Draw, nowNs: int)
    requires ValidDraw(nodes, draw) && LoadCounts(t)
    ensures LoadCounts(Route(p, nodes, t, account, draw, nowNs).0)
  {
    hide Select, SameIPCandidate, Readmit, LoadCounts;
    var (t', out) := Route(p, nodes, t, account, draw, nowNs);
    if out.Routed? && !out.leaseCreated {
      KeepLeaseCounts(t, account, out.nodeHash, LeaseTouch, t'.window, nowNs);
      KeepLeaseCounts(t, account, out.nodeHash, LeaseReplace, t'.window, nowNs);
    } else {
      EndLeaseCounts(t, account, LeaseExpire);
      EndLeaseCounts(t, account, LeaseRemove);
      if out.Routed? {
        StoreLeaseCounts(EndLease(t, account, LeaseRemove), t', account, t'.leases[account]);
        assert t'.leases == EndLease(t, account, LeaseRemove).leases[account := t'.leases[account]];
      }
    }
  }

  // ------------------------------------------------------------------
  // Events tell the whole story of the table
  // ------------------------------------------------------------------

  datatype Binding = Binding(nodeHash: Hash, egressIP: Addr)

  function Bindings(leases: map<Account, Lease>): map<Account, Binding> {
    map a | a in leases :: Binding(leases[a].nodeHash, leases[a].egressIP)
  }

  /** A listener that keeps its own copy of the bindings and refuses an event
      that does not fit it: creating over a binding, or touching, replacing or
      ending one that is not there as described. */
  function Follow(b: map<Account, Binding>, e: LeaseEvent): Option<map<Account, Binding>> {
    var told := Binding(e.nodeHash, e.egressIP);
    match e.kind
    case LeaseCreate => if e.account in b then None else Some(b[e.account := told])
    case LeaseTouch => if e.account in b && b[e.account] == told then Some(b) else None
    case LeaseReplace => if e.account in b then Some(b[e.account := told]) else None
    case LeaseRemove => if e.account in b && b[e.account] == told then Some(b - {e.account}) else None
    case LeaseExpire => if e.account in b && b[e.account] == told then Some(b - {e.account}) else None
  }

  function Replay(base: map<Account, Binding>, events: seq<LeaseEvent>): Option<map<Account, Binding>> {
    if events == [] then Some(base)
    else
      var before := Replay(base, events[..|events| - 1]);
      if before.None? then None else Follow(before.value, events[|events| - 1])
  }

  ghost predicate Told(base: map<Account, Binding>, t: Table) {
    Replay(base, t.events) == Some(Bindings(t.leases))
  }

  lemma TellOne(base: map<Account, Binding>, t: Table, t': Table, e: LeaseEvent)
    requires Told(base, t)
    requires t'.events == t.events + [e]
    requires Follow(Bindings(t.leases), e) == Some(Bindings(t'.leases))
    ensures Told(base, t')
  {
    assert t'.events[..|t'.events| - 1] == t.events;
  }

  lemma EndLeaseTold(base: map<Account, Binding>, t: Table, account: Account, kind: LeaseEventType)
    requires Told(base, t) && (kind.LeaseRemove? || kind.LeaseExpire?)
    ensures Told(base, EndLease(t, account, kind))
  {
    if account in t.leases {
      var t' := EndLease(t, account, kind);
      assert Bindings(t'.leases) == Bindings(t.leases) - {account};
      TellOne(base, t, t', t'.events[|t'.events| - 1]);
    }
  }

  lemma StoreLeaseTold(base: map<Account, Binding>, t: Table, t': Table, account: Account, lease: Lease)
    requires Told(base, t)
    requires t'.leases == t.leases[account := lease]
    requires t'.events == t.events +
               [LeaseEvent(if account in t.leases then LeaseReplace else LeaseCreate, account, lease.nodeHash, lease.egressIP, 0)]
    ensures Told(base, t')
  {
    assert Bindings(t'.leases) == Bindings(t.leases)[account := Binding(lease.nodeHash, lease.egressIP)];
    TellOne(base, t, t', t'.events[|t'.events| - 1]);
  }

  lemma KeepLeaseTold(base: map<Account, Binding>, t: Table, account: Account, nodeHash: Hash, kind: LeaseEventType, window: Entries, nowNs: int)
    requires Told(base, t) && account in t.leases
    requires kind.LeaseReplace? || (kind.LeaseTouch? && nodeHash == t.leases[account].nodeHash)
    ensures Told(base, KeepLease(t, account, nodeHash, kind, window, nowNs))
  {
    var t' := KeepLease(t, account, nodeHash, kind, window, nowNs);
    assert Bindings(t'.leases) == Bindings(t.leases)[account := Binding(nodeHash, t.leases[account].egressIP)];
    assert kind.LeaseTouch? ==> Bindings(t'.leases) == Bindings(t.leases);
    TellOne(base, t, t', t'.events[|t'.events| - 1]);
  }

  lemma RouteTold(base: map<Account, Binding>, p: Platform, nodes: Nodes, t: Table, account: Account, draw: Draw, nowNs: int)
    requires ValidDraw(nodes, draw) && Told(base, t)
    ensures Told(base, Route(p, nodes, t, account, draw, nowNs).0)
  {
    hide Select, SameIPCandidate, Readmit, Told;
    var (t', out) := Route(p, nodes, t, account, draw, nowNs);
    if out.Routed? && !out.leaseCreated {
      KeepLeaseTold(base, t, account, out.nodeHash, LeaseReplace, t'.window, nowNs);
      if out.nodeHash == t.leases[account].nodeHash {
        KeepLeaseTold(base, t, account, out.nodeHash, LeaseTouch, t'.window, nowNs);
      }
    } else {
      var why := if account in t.leases && !t.leases[account].IsExpired(nowNs) then LeaseRemove else LeaseExpire;
      EndLeaseTold(base, t, account, why);
      if out.Routed? {
        StoreLeaseTold(base, EndLease(t, account, why), t', account, t'.leases[account]);
      }
    }
  }

  /** After any run the counters equal the leases on each address, and replaying
      the emitted events over the restored bindings gives exactly the table. */
  lemma {:induction false} TableConsistent(p: Platform, records: seq<Restored>, bootNs: int, steps: seq<Step>)
    requires ValidRun(p, Boot(p, records, bootNs), steps)
    ensures var w := Run(p, Boot(p, records, bootNs), steps);
            LoadCounts(w.table) && Told(Bindings(Boot(p, records, bootNs).table.leases), w.table)
    decreases |steps|
  {
    var w0 := Boot(p, records, bootNs);
    var base := Bindings(w0.table.leases);
    if steps == [] {
      BootCounts(p, records, bootNs);
      return;
    }
    TableConsistent(p, records, bootNs, steps[..|steps| - 1]);
    ApplyConsistent(base, p, Run(p, w0, steps[..|steps| - 1]), steps[|steps| - 1]);
  }

  lemma {:induction false} BootCounts(p: Platform, records: seq<Restored>, nowNs: int)
    ensures var w := Boot(p, records, nowNs);
            && LoadCounts(w.table) && w.table.events == [] && w.log == [] && w.clockNs == nowNs
  {
    if records == [] {
      forall ip: Addr ensures LeasesOn(map[], ip) == {} {
      }
    } else {
      var w := Boot(p, records[..|records| - 1], nowNs);
      var r := records[|records| - 1];
      BootCounts(p, records[..|records| - 1], nowNs);
      StoreLeaseCounts(w.table, Restore(p, w.table, r.account, r.lease, nowNs, false), r.account, r.lease);
    }
  }

  /** Letting the window slide touches neither leases, counters nor events. */
  lemma SlideConsistent(base: map<Account, Binding>, p: Platform, t: Table, nowNs: int)
    requires LoadCounts(t) && Told(base, t)
    ensures LoadCounts(SlideTo(p, t, nowNs)) && Told(base, SlideTo(p, t, nowNs))
  {
    var t' := SlideTo(p, t, nowNs);
    assert t'.leases == t.leases && t'.load == t.load && t'.events == t.events;
  }

  lemma ApplyConsistent(base: map<Account, Binding>, p: Platform, w: World, step: Step)
    requires ValidStep(w, step) && LoadCounts(w.table) && Told(base, w.table)
    ensures LoadCounts(Apply(p, w, step).table) && Told(base, Apply(p, w, step).table)
  {
    hide Route, LoadCounts, Told, SlideTo;
    SlideConsistent(base, p, w.table, TimeOf(w, step));
    var t := SlideTo(p, w.table, TimeOf(w, step));
    match step
    case Request(nodes, account, draw, nowNs) =>
      RouteCounts(p, nodes, t, account, draw, nowNs);
      RouteTold(base, p, nodes, t, account, draw, nowNs);
    case Bind(account, lease, nowNs, mark) =>
      StoreLeaseCounts(t, Upsert(p, t, account, lease, nowNs, mark), account, lease);
      StoreLeaseTold(base, t, Upsert(p, t, account, lease, nowNs, mark), account, lease);
    case Unbind(account) =>
      EndLeaseCounts(w.table, account, LeaseRemove);
      EndLeaseTold(base, w.table, account, LeaseRemove);
    case SweepLease(account, nowNs) =>
      EndLeaseCounts(t, account, LeaseExpire);
      EndLeaseTold(base, t, account, LeaseExpire);
    case SweepWindow(nowNs) =>
  }

  // ------------------------------------------------------------------
  // The rolling-window quota
  // ------------------------------------------------------------------

  function Regular(m: Slots): set<Account> {
    set a | a in m && !m[a].viaFallback
  }

  function SeedsOn(seeded: set<Pair>, ip: Addr): set<Account> {
    set s | s in seeded && s.ip == ip :: s.account
  }

  /** Leaving seeds aside, at most one account beyond the limit, and at most the
      limit outside fallback slots. */
  predicate Bounded(m: Slots, seeds: set<Account>, max: int) {
    |m.Keys - seeds| <= max + 1 && |Regular(m) - seeds| <= max
  }

  ghost predicate QuotaHolds(p: Platform, w: World) {
    forall ip: Addr :: ip.IsValid() ==>
      Bounded(SlotsAt(w.table.window, ip), SeedsOn(w.seeded, ip), p.maxAccountsPerIP)
  }

  lemma FewerSlots(m: Slots, m': Slots, seeds: set<Account>, seeds': set<Account>, max: int)
    requires Bounded(m, seeds, max)
    requires m'.Keys - seeds' <= m.Keys - seeds
    requires Regular(m') - seeds' <= Regular(m) - seeds
    ensures Bounded(m', seeds', max)
  {
    SubsetCard(m'.Keys - seeds', m.Keys - seeds);
    SubsetCard(Regular(m') - seeds', Regular(m) - seeds);
  }

  lemma OneMoreSlot(m: Slots, a: Account, e: WindowEntry, seeds: set<Account>, max: int)
    requires a !in m && |m| <= max
    requires e.viaFallback || |m| < max
    ensures Bounded(m[a := e], seeds, max)
  {
    var m' := m[a := e];
    assert m'.Keys == m.Keys + {a};
    SubsetCard(m'.Keys - seeds, m'.Keys);
    if e.viaFallback {
      SubsetCard(Regular(m') - seeds, m.Keys);
    } else {
      SubsetCard(Regular(m') - seeds, m'.Keys);
    }
  }

  /** How a routed request changes the window: the account is refreshed where it
      already counts, or takes a slot that was free; nothing else happens. */
  ghost predicate Admitted(w: Entries, w': Entries, ip: Addr, account: Account, nowNs: int, max: int) {
    if !ip.IsValid() then w' == w
    else if Counted(w, ip, account) || CountOn(w, ip) < max
    then w' == Seen(w, ip, account, nowNs, false) || w' == Seen(w, ip, account, nowNs, true)
    else CountOn(w, ip) == max && w' == Seen(w, ip, account, nowNs, true)
  }

  lemma FallbackWindow(p: Platform, nodes: Nodes, t: Table, account: Account, nowNs: int)
    requires p.IPQuotaEnabled() && account != NoAccount
    ensures var s := SelectFallback(p, nodes, t, account, nowNs);
            s.Selected? ==> Admitted(t.window, s.window, nodes.pool[s.nodeHash], account, nowNs, p.maxAccountsPerIP)
  {
    hide LightestSpare, Seen, Counted, CountOn;
  }

  lemma SelectWindow(p: Platform, nodes: Nodes, t: Table, account: Account, draw: Draw, nowNs: int)
    requires ValidDraw(nodes, draw) && p.IPQuotaEnabled() && account != NoAccount
    ensures var s := Select(p, nodes, t, account, draw, nowNs);
            s.Selected? ==> Admitted(t.window, s.window, nodes.pool[s.nodeHash], account, nowNs, p.maxAccountsPerIP)
  {
    hide FirstAdmitted, SelectFallback, Seen, Counted, CountOn;
    FallbackWindow(p, nodes, t, account, nowNs);
  }

  lemma RouteWindow(p: Platform, nodes: Nodes, t: Table, account: Account, draw: Draw, nowNs: int)
    requires ValidDraw(nodes, draw) && p.IPQuotaEnabled() && account != NoAccount
    ensures var (t', out) := Route(p, nodes, t, account, draw, nowNs);
            if out.Routed? then Admitted(t.window, t'.window, out.egressIP, account, nowNs, p.maxAccountsPerIP)
            else t'.window == t.window
  {
    hide Select, SameIPCandidate, Seen, Counted, CountOn;
    SelectWindow(p, nodes, t, account, draw, nowNs);
  }

  lemma SeenSlots(w: Entries, ip: Addr, account: Account, nowNs: int, viaFallback: bool)
    ensures var m := SlotsAt(w, ip);
            var e := if account in m then m[account].(lastSeenNs := nowNs) else WindowEntry(nowNs, viaFallback);
            SlotsAt(Seen(w, ip, account, nowNs, viaFallback), ip) == m[account := e]
    ensures forall q :: q != ip ==> SlotsAt(Seen(w, ip, account, nowNs, viaFallback), q) == SlotsAt(w, q)
  {
  }

  lemma SeenBounded(w: Entries, ip: Addr, account: Account, nowNs: int, viaFallback: bool, max: int, q: Addr, seeds: set<Account>)
    requires Bounded(SlotsAt(w, q), seeds, max)
    requires Counted(w, ip, account) || (CountOn(w, ip) <= max && (viaFallback || CountOn(w, ip) < max))
    ensures Bounded(SlotsAt(Seen(w, ip, account, nowNs, viaFallback), q), seeds, max)
  {
    SeenSlots(w, ip, account, nowNs, viaFallback);
    hide Seen;
    if q == ip {
      var m := SlotsAt(w, ip);
      if account in m {
        var m' := m[account := m[account].(lastSeenNs := nowNs)];
        assert m'.Keys == m.Keys;
        assert Regular(m') == Regular(m);
      } else {
        OneMoreSlot(m, account, WindowEntry(nowNs, viaFallback), seeds, max);
      }
    }
  }

  lemma AdmittedBounded(w: Entries, w': Entries, ip: Addr, account: Account, nowNs: int, max: int, q: Addr, seeds: set<Account>)
    requires Admitted(w, w', ip, account, nowNs, max)
    requires Bounded(SlotsAt(w, q), seeds, max)
    ensures Bounded(SlotsAt(w', q), seeds, max)
  {
    hide Seen, Bounded, Counted, CountOn;
    if w' == Seen(w, ip, account, nowNs, true) {
      if ip.IsValid() { SeenBounded(w, ip, account, nowNs, true, max, q, seeds); }
    } else if ip.IsValid() {
      SeenBounded(w, ip, account, nowNs, false, max, q, seeds);
    }
  }

  lemma AdvanceQuota(p: Platform, w: World, nowNs: int)
    requires QuotaHolds(p, w)
    ensures QuotaHolds(p, Advance(p, w, nowNs))
  {
    var w' := Advance(p, w, nowNs);
    forall ip: Addr | ip.IsValid()
      ensures Bounded(SlotsAt(w'.table.window, ip), SeedsOn(w'.seeded, ip), p.maxAccountsPerIP)
    {
      var m, m' := SlotsAt(w.table.window, ip), SlotsAt(w'.table.window, ip);
      RecentAt(w.table.window, nowNs - p.WindowNs(), ip);
      forall a | a in m' && a in SeedsOn(w.seeded, ip) ensures a in SeedsOn(w'.seeded, ip) {
        assert Pair(ip, a) in w'.seeded;
      }
      FewerSlots(m, m', SeedsOn(w.seeded, ip), SeedsOn(w'.seeded, ip), p.maxAccountsPerIP);
    }
  }

  lemma BindQuota(p: Platform, w: World, account: Account, lease: Lease, atNs: int, mark: bool, w': World)
    requires QuotaHolds(p, w)
    requires w'.seeded == w.seeded + {Pair(lease.egressIP, account)}
    requires w'.table.window == w.table.window || w'.table.window == Touched(w.table.window, lease.egressIP, account, atNs, mark)
    ensures QuotaHolds(p, w')
  {
    forall ip: Addr | ip.IsValid()
      ensures Bounded(SlotsAt(w'.table.window, ip), SeedsOn(w'.seeded, ip), p.maxAccountsPerIP)
    {
      assert Bounded(SlotsAt(w.table.window, ip), SeedsOn(w.seeded, ip), p.maxAccountsPerIP);
      hide QuotaHolds, Bounded;
      var m, m' := SlotsAt(w.table.window, ip), SlotsAt(w'.table.window, ip);
      var seeds, seeds' := SeedsOn(w.seeded, ip), SeedsOn(w'.seeded, ip);
      MoreSeeds(w.seeded, lease.egressIP, account, ip);
      OneSlotBound(w.table.window, w'.table.window, lease.egressIP, account, atNs, mark, ip);
      hide Touched, SeedsOn, SlotsAt;
      forall a | a in m' && a !in seeds' ensures a in m && a !in seeds && m[a] == m'[a] {
      }
      FewerRegular(m, m', seeds, seeds', p.maxAccountsPerIP);
    }
  }

  lemma FewerRegular(m: Slots, m': Slots, seeds: set<Account>, seeds': set<Account>, max: int)
    requires Bounded(m, seeds, max)
    requires forall a :: a in m' && a !in seeds' ==> a in m && a !in seeds && m[a] == m'[a]
    ensures Bounded(m', seeds', max)
  {
    hide Bounded;
    FewerSlots(m, m', seeds, seeds', max);
  }

  lemma OneSlotBound(w: Entries, w': Entries, at: Addr, account: Account, atNs: int, mark: bool, ip: Addr)
    requires w' == w || w' == Touched(w, at, account, atNs, mark)
    ensures forall a :: a in SlotsAt(w', ip) && (ip != at || a != account) ==> a in SlotsAt(w, ip) && SlotsAt(w, ip)[a] == SlotsAt(w', ip)[a]
  {
    SeenSlots(w, at, account, atNs, mark);
    hide Seen, SlotsAt;
  }

  lemma MoreSeeds(seeded: set<Pair>, at: Addr, account: Account, ip: Addr)
    ensures SeedsOn(seeded, ip) <= SeedsOn(seeded + {Pair(at, account)}, ip)
    ensures ip == at ==> account in SeedsOn(seeded + {Pair(at, account)}, ip)
  {
  }

  lemma ApplyQuota(p: Platform, w: World, step: Step)
    requires p.IPQuotaEnabled() && ValidStep(w, step) && QuotaHolds(p, w)
    ensures QuotaHolds(p, Apply(p, w, step))
  {
    hide Route, Upsert, ExpireLease, EndLease;
    if step.Unbind? {
      EndLeaseWindow(w.table, step.account, LeaseRemove);
      return;
    }
    AdvanceQuota(p, w, step.nowNs);
    var a := Advance(p, w, step.nowNs);
    match step
    case Request(nodes, account, draw, nowNs) =>
      var (t, out) := Answer(p, w, step);
      RouteWindow(p, nodes, a.table, account, draw, nowNs);
      if out.Routed? {
        hide Admitted, Bounded;
        forall q: Addr | q.IsValid()
          ensures Bounded(SlotsAt(t.window, q), SeedsOn(a.seeded, q), p.maxAccountsPerIP)
        {
          AdmittedBounded(a.table.window, t.window, out.egressIP, account, nowNs, p.maxAccountsPerIP, q, SeedsOn(a.seeded, q));
        }
      }
    case Bind(account, lease, nowNs, mark) =>
      UpsertWindow(p, a.table, account, lease, nowNs, mark);
      BindQuota(p, a, account, lease, nowNs, mark, Apply(p, w, step));
    case SweepLease(account, nowNs) =>
      ExpireLeaseWindow(a.table, account, nowNs);
    case SweepWindow(nowNs) =>
  }

  lemma EndLeaseWindow(t: Table, account: Account, kind: LeaseEventType)
    ensures EndLease(t, account, kind).window == t.window
  {
  }

  lemma ExpireLeaseWindow(t: Table, account: Account, nowNs: int)
    ensures ExpireLease(t, account, nowNs).window == t.window
  {
  }

  lemma UpsertWindow(p: Platform, t: Table, account: Account, lease: Lease, nowNs: int, mark: bool)
    ensures var w := Upsert(p, t, account, lease, nowNs, mark).window;
            w == if p.IPQuotaEnabled() then Touched(t.window, lease.egressIP, account, nowNs, mark) else t.window
  {
  }

  // ------------------------------------------------------------------
  // The lazily pruned window against the full history
  // ------------------------------------------------------------------

  function LastServed(log: seq<Serve>, ip: Addr, account: Account): Option<int> {
    if log == [] then None
    else if log[|log| - 1].ip == ip && log[|log| - 1].account == account then Some(log[|log| - 1].atNs)
    else LastServed(log[..|log| - 1], ip, account)
  }

  ghost predicate LogInOrder(w: World) {
    && (forall i, j :: 0 <= i < j < |w.log| ==> w.log[i].atNs <= w.log[j].atNs)
    && (forall i :: 0 <= i < |w.log| ==> w.log[i].atNs <= w.clockNs)
  }

  /** An account served inside the window has a slot at least as recent; a slot
      that was not seeded carries exactly the time of the last service. */
  ghost predicate Agrees(w: World, ip: Addr, account: Account, windowNs: int) {
    var m := SlotsAt(w.table.window, ip);
    var last := LastServed(w.log, ip, account);
    && (last.Some? && last.value > w.clockNs - windowNs ==> account in m && m[account].lastSeenNs >= last.value)
    && (account in m && Pair(ip, account) !in w.seeded ==> last == Some(m[account].lastSeenNs))
  }

  ghost predicate LogAgrees(p: Platform, w: World) {
    LogInOrder(w) && forall ip: Addr, a :: ip.IsValid() ==> Agrees(w, ip, a, p.WindowNs())
  }

  lemma AdvanceAgrees(p: Platform, w: World, nowNs: int)
    requires LogAgrees(p, w) && nowNs >= w.clockNs
    ensures LogAgrees(p, Advance(p, w, nowNs))
  {
    var w' := Advance(p, w, nowNs);
    forall ip: Addr, a | ip.IsValid() ensures Agrees(w', ip, a, p.WindowNs()) {
      RecentAt(w.table.window, nowNs - p.WindowNs(), ip);
      assert Agrees(w, ip, a, p.WindowNs());
      if a in SlotsAt(w'.table.window, ip) && Pair(ip, a) in w.seeded {
        assert Pair(ip, a) in w'.seeded;
      }
    }
  }

  lemma ServeAgrees(p: Platform, w: World, w': World, s: Serve)
    requires LogAgrees(p, w) && s.atNs == w.clockNs == w'.clockNs
    requires w'.log == w.log + [s] && w'.seeded == w.seeded
    requires Admitted(w.table.window, w'.table.window, s.ip, s.account, s.atNs, p.maxAccountsPerIP)
    ensures LogAgrees(p, w')
  {
    assert w'.log[..|w'.log| - 1] == w.log;
    forall ip: Addr, a | ip.IsValid() ensures Agrees(w', ip, a, p.WindowNs()) {
      assert Agrees(w, ip, a, p.WindowNs());
      hide LogAgrees;
      if s.ip.IsValid() {
        SeenSlots(w.table.window, s.ip, s.account, s.atNs, false);
        SeenSlots(w.table.window, s.ip, s.account, s.atNs, true);
        hide Seen;
      }
    }
  }

  lemma BindAgrees(p: Platform, w: World, w': World, account: Account, lease: Lease, mark: bool)
    requires LogAgrees(p, w)
    requires w'.log == w.log && w'.clockNs == w.clockNs && w'.seeded == w.seeded + {Pair(lease.egressIP, account)}
    requires w'.table.window == Touched(w.table.window, lease.egressIP, account, w.clockNs, mark)
    ensures LogAgrees(p, w')
  {
    SeenSlots(w.table.window, lease.egressIP, account, w.clockNs, mark);
    hide Seen;
    forall ip: Addr, a | ip.IsValid() ensures Agrees(w', ip, a, p.WindowNs()) {
      assert Agrees(w, ip, a, p.WindowNs());
      LastServedBy(w.log, ip, a, w.clockNs);
    }
  }

  lemma {:induction false} LastServedBy(log: seq<Serve>, ip: Addr, account: Account, clockNs: int)
    requires forall i :: 0 <= i < |log| ==> log[i].atNs <= clockNs
    ensures var last := LastServed(log, ip, account);
            last.Some? ==> last.value <= clockNs
  {
    if log != [] {
      LastServedBy(log[..|log| - 1], ip, account, clockNs);
    }
  }

  lemma ApplyAgrees(p: Platform, w: World, step: Step)
    requires p.IPQuotaEnabled() && ValidStep(w, step) && LogAgrees(p, w)
    ensures LogAgrees(p, Apply(p, w, step))
  {
    hide Route, Upsert, ExpireLease, EndLease, Agrees, LogInOrder;
    if step.Unbind? {
      EndLeaseWindow(w.table, step.account, LeaseRemove);
      SameAgrees(p, w, Apply(p, w, step));
      return;
    }
    AdvanceAgrees(p, w, step.nowNs);
    var a := Advance(p, w, step.nowNs);
    match step
    case Request(nodes, account, draw, nowNs) =>
      var (t, out) := Answer(p, w, step);
      RouteWindow(p, nodes, a.table, account, draw, nowNs);
      hide LogAgrees, Admitted;
      if out.Routed? {
        ServeAgrees(p, a, Apply(p, w, step), Serve(out.egressIP, account, out.nodeHash, nowNs, out.leaseCreated));
      } else {
        SameAgrees(p, a, Apply(p, w, step));
      }
    case Bind(account, lease, nowNs, mark) =>
      UpsertWindow(p, a.table, account, lease, nowNs, mark);
      BindAgrees(p, a, Apply(p, w, step), account, lease, mark);
    case SweepLease(account, nowNs) =>
      ExpireLeaseWindow(a.table, account, nowNs);
      SameAgrees(p, a, Apply(p, w, step));
    case SweepWindow(nowNs) =>
  }

  lemma SameAgrees(p: Platform, w: World, w': World)
    requires LogAgrees(p, w)
    requires w'.table.window == w.table.window && w'.log == w.log && w'.seeded == w.seeded && w'.clockNs == w.clockNs
    ensures LogAgrees(p, w')
  {
    forall ip: Addr, a | ip.IsValid() ensures Agrees(w', ip, a, p.WindowNs()) {
      assert Agrees(w, ip, a, p.WindowNs());
    }
  }

  /** A table in which every slot is seeded has nothing to bound. */
  lemma AllSeeded(p: Platform, w: World)
    requires p.IPQuotaEnabled() && w.log == []
    requires forall ip, a :: a in SlotsAt(w.table.window, ip) ==> Pair(ip, a) in w.seeded
    ensures QuotaHolds(p, w) && LogAgrees(p, w)
  {
    forall ip: Addr | ip.IsValid()
      ensures Bounded(SlotsAt(w.table.window, ip), SeedsOn(w.seeded, ip), p.maxAccountsPerIP)
    {
      var m := SlotsAt(w.table.window, ip);
      forall a | a in m ensures a in SeedsOn(w.seeded, ip) {
        assert Pair(ip, a) in w.seeded;
      }
      assert m.Keys - SeedsOn(w.seeded, ip) == {};
      assert Regular(m) - SeedsOn(w.seeded, ip) == {};
    }
  }

  /** Everything in the window of a restored table was seeded. */
  lemma {:induction false} BootSeeds(p: Platform, records: seq<Restored>, nowNs: int)
    ensures var w := Boot(p, records, nowNs);
            forall ip, a :: a in SlotsAt(w.table.window, ip) ==> Pair(ip, a) in w.seeded
  {
    if records != [] {
      var w := Boot(p, records[..|records| - 1], nowNs);
      var r := records[|records| - 1];
      BootSeeds(p, records[..|records| - 1], nowNs);
      var at := if r.lease.lastAccessedNs <= 0 then r.lease.createdAtNs else r.lease.lastAccessedNs;
      SeenSlots(w.table.window, r.lease.egressIP, r.account, at, false);
    }
  }

  lemma {:induction false} RunQuota(p: Platform, records: seq<Restored>, bootNs: int, steps: seq<Step>)
    requires p.IPQuotaEnabled()
    requires ValidRun(p, Boot(p, records, bootNs), steps)
    ensures var w := Run(p, Boot(p, records, bootNs), steps);
            QuotaHolds(p, w) && LogAgrees(p, w)
    decreases |steps|
  {
    var w0 := Boot(p, records, bootNs);
    if steps == [] {
      BootCounts(p, records, bootNs);
      BootSeeds(p, records, bootNs);
      AllSeeded(p, w0);
      return;
    }
    RunQuota(p, records, bootNs, steps[..|steps| - 1]);
    var w := Run(p, w0, steps[..|steps| - 1]);
    hide Apply, QuotaHolds, LogAgrees;
    ApplyQuota(p, w, steps[|steps| - 1]);
    ApplyAgrees(p, w, steps[|steps| - 1]);
  }

  /** Accounts routed to the address after the given time. */
  function Exposed(log: seq<Serve>, ip: Addr, sinceNs: int): set<Account> {
    set i | 0 <= i < |log| && log[i].ip == ip && log[i].atNs > sinceNs :: log[i].account
  }

  lemma {:induction false} LastServedFrom(log: seq<Serve>, k: nat)
    requires k < |log|
    requires forall i, j :: 0 <= i < j < |log| ==> log[i].atNs <= log[j].atNs
    ensures var last := LastServed(log, log[k].ip, log[k].account);
            last.Some? && last.value >= log[k].atNs
  {
    if k < |log| - 1 {
      LastServedFrom(log[..|log| - 1], k);
    }
  }

  /** The promise at one address: leaving seeds aside, at most one account more
      than the limit was routed there since the given time; and the in-window
      slots not seeded are exactly those accounts, at the time each was last
      routed, at most the limit of them outside fallback slots. */
  ghost predicate WindowKeepsPromise(p: Platform, w: World, ip: Addr, since: int) {
    var slots := Live(SlotsAt(w.table.window, ip), since);
    var seeds := SeedsOn(w.seeded, ip);
    && |Exposed(w.log, ip, since) - seeds| <= p.maxAccountsPerIP + 1
    && |Regular(slots) - seeds| <= p.maxAccountsPerIP
    && Exposed(w.log, ip, since) <= slots.Keys
    && forall a :: a in slots && a !in seeds ==>
         a in Exposed(w.log, ip, since) && LastServed(w.log, ip, a) == Some(slots[a].lastSeenNs)
  }

  /** The rolling-window bound: after any run, for every instant t from then on,
      the promise holds over (t - window, t]. */
  lemma RollingWindowBound(p: Platform, records: seq<Restored>, bootNs: int, steps: seq<Step>, ip: Addr, t: int)
    requires p.IPQuotaEnabled() && ip.IsValid()
    requires ValidRun(p, Boot(p, records, bootNs), steps)
    requires t >= Run(p, Boot(p, records, bootNs), steps).clockNs
    ensures WindowKeepsPromise(p, Run(p, Boot(p, records, bootNs), steps), ip, t - p.WindowNs())
  {
    hide *;
    RunQuota(p, records, bootNs, steps);
    WindowBound(p, Run(p, Boot(p, records, bootNs), steps), ip, t - p.WindowNs());
  }

  lemma WindowBound(p: Platform, w: World, ip: Addr, since: int)
    requires QuotaHolds(p, w) && LogAgrees(p, w) && ip.IsValid() && since >= w.clockNs - p.WindowNs()
    ensures WindowKeepsPromise(p, w, ip, since)
  {
    ExposedHaveSlots(p, w, ip, since);
    WindowCounts(p, w, ip, since);
    hide QuotaHolds, LogAgrees, Live, SlotsAt, Exposed, SeedsOn, Regular, LastServed;
    var slots := Live(SlotsAt(w.table.window, ip), since);
    forall a | a in slots && a !in SeedsOn(w.seeded, ip)
      ensures a in Exposed(w.log, ip, since) && LastServed(w.log, ip, a) == Some(slots[a].lastSeenNs)
    {
      UnseededIsExposed(p, w, ip, a, since);
    }
  }

  lemma WindowCounts(p: Platform, w: World, ip: Addr, since: int)
    requires QuotaHolds(p, w) && ip.IsValid()
    requires Exposed(w.log, ip, since) <= Live(SlotsAt(w.table.window, ip), since).Keys
    ensures |Exposed(w.log, ip, since) - SeedsOn(w.seeded, ip)| <= p.maxAccountsPerIP + 1
    ensures |Regular(Live(SlotsAt(w.table.window, ip), since)) - SeedsOn(w.seeded, ip)| <= p.maxAccountsPerIP
  {
    var m := SlotsAt(w.table.window, ip);
    var seeds := SeedsOn(w.seeded, ip);
    assert Bounded(m, seeds, p.maxAccountsPerIP);
    LiveCounts(m, seeds, p.maxAccountsPerIP, since);
    SubsetCard(Exposed(w.log, ip, since) - seeds, Live(m, since).Keys - seeds);
  }

  lemma LiveCounts(m: Slots, seeds: set<Account>, max: int, since: int)
    requires Bounded(m, seeds, max)
    ensures Bounded(Live(m, since), seeds, max)
  {
    FewerSlots(m, Live(m, since), seeds, seeds, max);
  }

  lemma ExposedHaveSlots(p: Platform, w: World, ip: Addr, since: int)
    requires LogAgrees(p, w) && ip.IsValid() && since >= w.clockNs - p.WindowNs()
    ensures Exposed(w.log, ip, since) <= Live(SlotsAt(w.table.window, ip), since).Keys
  {
    forall a | a in Exposed(w.log, ip, since) ensures a in Live(SlotsAt(w.table.window, ip), since) {
      var k :| 0 <= k < |w.log| && w.log[k].ip == ip && w.log[k].atNs > since && w.log[k].account == a;
      LastServedFrom(w.log, k);
      assert Agrees(w, ip, a, p.WindowNs());
    }
  }

  lemma UnseededIsExposed(p: Platform, w: World, ip: Addr, a: Account, since: int)
    requires LogAgrees(p, w) && ip.IsValid()
    requires a !in SeedsOn(w.seeded, ip)
    requires a in Live(SlotsAt(w.table.window, ip), since)
    ensures a in Exposed(w.log, ip, since)
    ensures LastServed(w.log, ip, a) == Some(Live(SlotsAt(w.table.window, ip), since)[a].lastSeenNs)
  {
    assert Pair(ip, a) !in w.seeded;
    assert Agrees(w, ip, a, p.WindowNs());
    LastServedIsServed(w.log, ip, a);
  }

  lemma {:induction false} LastServedIsServed(log: seq<Serve>, ip: Addr, account: Account)
    requires LastServed(log, ip, account).Some?
    ensures exists k :: 0 <= k < |log| && log[k].ip == ip && log[k].account == account && log[k].atNs == LastServed(log, ip, account).value
  {
    if log[|log| - 1].ip != ip || log[|log| - 1].account != account {
      var shorter := log[..|log| - 1];
      LastServedIsServed(shorter, ip, account);
      var k :| 0 <= k < |shorter| && shorter[k].ip == ip && shorter[k].account == account && shorter[k].atNs == LastServed(shorter, ip, account).value;
      assert log[k] == shorter[k];
    }
  }

  /** With no control-plane binding and nothing restored there are no seeds. */
  lemma {:induction false} NoSeeds(p: Platform, bootNs: int, steps: seq<Step>)
    requires ValidRun(p, Boot(p, [], bootNs), steps)
    requires forall i :: 0 <= i < |steps| ==> !steps[i].Bind?
    ensures Run(p, Boot(p, [], bootNs), steps).seeded == {}
  {
    if steps != [] {
      NoSeeds(p, bootNs, steps[..|steps| - 1]);
      hide Route, SlideTo, ExpireLease, EndLease;
      assert !steps[|steps| - 1].Bind?;
    }
  }

  /** The bound as the quota promises it, for traffic admitted by routing alone. */
  lemma RoutedTrafficBound(p: Platform, bootNs: int, steps: seq<Step>, ip: Addr, t: int)
    requires p.IPQuotaEnabled() && ip.IsValid()
    requires ValidRun(p, Boot(p, [], bootNs), steps)
    requires forall i :: 0 <= i < |steps| ==> !steps[i].Bind?
    requires t >= Run(p, Boot(p, [], bootNs), steps).clockNs
    ensures |Exposed(Run(p, Boot(p, [], bootNs), steps).log, ip, t - p.WindowNs())| <= p.maxAccountsPerIP + 1
  {
    hide Run, ValidRun, Boot;
    RollingWindowBound(p, [], bootNs, steps, ip, t);
    NoSeeds(p, bootNs, steps);
    var w := Run(p, Boot(p, [], bootNs), steps);
    assert SeedsOn(w.seeded, ip) == {};
    assert Exposed(w.log, ip, t - p.WindowNs()) - {} == Exposed(w.log, ip, t - p.WindowNs());
  }

  // ------------------------------------------------------------------
  // Stickiness
  // ------------------------------------------------------------------

  /** The promise's side conditions at one step: nobody rebinds or ends the
      account's lease, it is not swept as expired, and when the account asks,
      its lease is unexpired, some view node still leaves by its address and the
      quota admits it. */
  predicate Undisturbed(p: Platform, w: World, step: Step, account: Account)
    requires ValidStep(w, step)
  {
    && account in w.table.leases
    && var lease := w.table.leases[account];
       match step
       case Request(nodes, a, _, nowNs) =>
         a == account ==>
           && !lease.IsExpired(nowNs)
           && (exists h :: h in nodes.view && nodes.LiveOn(h, lease.egressIP))
           && Readmit(p, SlideTo(p, w.table, nowNs).window, lease.egressIP, account, nowNs).Some?
       case Bind(a, _, _, _) => a != account
       case Unbind(a) => a != account
       case SweepLease(a, nowNs) => a == account ==> !lease.IsExpired(nowNs)
       case SweepWindow(_) => true
  }

  predicate SameTerms(a: Lease, b: Lease) {
    a.egressIP == b.egressIP && a.createdAtNs == b.createdAtNs && a.expiryNs == b.expiryNs
  }

  lemma OthersKeepLease(p: Platform, nodes: Nodes, t: Table, a: Account, draw: Draw, nowNs: int, account: Account)
    requires ValidDraw(nodes, draw) && a != account && account in t.leases
    ensures var t' := Route(p, nodes, t, a, draw, nowNs).0;
            account in t'.leases && t'.leases[account] == t.leases[account]
  {
    hide Select, SameIPCandidate, Readmit;
  }

  lemma StickyAnswer(p: Platform, nodes: Nodes, t: Table, account: Account, draw: Draw, nowNs: int)
    requires ValidDraw(nodes, draw) && account in t.leases && !t.leases[account].IsExpired(nowNs)
    requires exists h :: h in nodes.view && nodes.LiveOn(h, t.leases[account].egressIP)
    requires Readmit(p, t.window, t.leases[account].egressIP, account, nowNs).Some?
    ensures var (t', out) := Route(p, nodes, t, account, draw, nowNs);
            && out.Routed? && !out.leaseCreated && out.egressIP == t.leases[account].egressIP
            && out.nodeHash in nodes.view && nodes.LiveOn(out.nodeHash, out.egressIP)
            && account in t'.leases && SameTerms(t'.leases[account], t.leases[account])
  {
    hide Readmit, BestKnown, FirstOn;
  }

  /** One undisturbed step: the lease keeps its terms, and if the account asked
      it was answered from a view node on the same address. */
  lemma StickyStep(p: Platform, w: World, step: Step, account: Account)
    requires ValidStep(w, step) && Undisturbed(p, w, step, account)
    ensures var w' := Apply(p, w, step);
            account in w'.table.leases && SameTerms(w'.table.leases[account], w.table.leases[account])
    ensures step.Request? && step.account == account ==>
              var out := Answer(p, w, step).1;
              && out.Routed? && !out.leaseCreated && out.egressIP == w.table.leases[account].egressIP
              && out.nodeHash in step.nodes.view && step.nodes.LiveOn(out.nodeHash, out.egressIP)
  {
    hide Route, Readmit, Recent;
    if step.Request? {
      var t := SlideTo(p, w.table, step.nowNs);
      if step.account == account {
        StickyAnswer(p, step.nodes, t, account, step.draw, step.nowNs);
      } else {
        OthersKeepLease(p, step.nodes, t, step.account, step.draw, step.nowNs, account);
      }
    }
  }

  predicate UndisturbedRun(p: Platform, w: World, steps: seq<Step>, account: Account)
    requires ValidRun(p, w, steps)
    decreases |steps|
  {
    steps == [] ||
    (UndisturbedRun(p, w, steps[..|steps| - 1], account) &&
     Undisturbed(p, Run(p, w, steps[..|steps| - 1]), steps[|steps| - 1], account))
  }

  /** Every request of the account during the run was answered on the address,
      from a node of the view, without creating a lease. */
  predicate AnsweredOn(p: Platform, w: World, steps: seq<Step>, account: Account, ip: Addr)
    requires ValidRun(p, w, steps)
    decreases |steps|
  {
    steps == [] ||
    var before, last := steps[..|steps| - 1], steps[|steps| - 1];
    && AnsweredOn(p, w, before, account, ip)
    && (last.Request? && last.account == account ==>
          var out := Answer(p, Run(p, w, before), last).1;
          out.Routed? && !out.leaseCreated && out.egressIP == ip && out.nodeHash in last.nodes.view)
  }

  /** Stickiness over whole runs: as long as no step disturbs the account, its
      lease keeps address, creation time and expiry, and every one of its
      requests is answered on that address from a node of the view. */
  lemma {:induction false} StickyRun(p: Platform, w: World, steps: seq<Step>, account: Account)
    requires ValidRun(p, w, steps) && account in w.table.leases
    requires UndisturbedRun(p, w, steps, account)
    ensures var w' := Run(p, w, steps);
            account in w'.table.leases && SameTerms(w'.table.leases[account], w.table.leases[account])
    ensures AnsweredOn(p, w, steps, account, w.table.leases[account].egressIP)
    decreases |steps|
  {
    if steps != [] {
      var before := steps[..|steps| - 1];
      StickyRun(p, w, before, account);
      hide Apply, Answer, Undisturbed, ValidStep;
      StickyStep(p, Run(p, w, before), steps[|steps| - 1], account);
    }
  }

  /** The quota never moves an account that keeps asking: if it was last routed
      to its lease's address less than a window ago, it is admitted there. */
  lemma ActiveAccountAdmitted(p: Platform, records: seq<Restored>, bootNs: int, steps: seq<Step>, account: Account, nowNs: int)
    requires ValidRun(p, Boot(p, records, bootNs), steps)
    requires var w := Run(p, Boot(p, records, bootNs), steps);
             && nowNs >= w.clockNs
             && account in w.table.leases
             && LastServed(w.log, w.table.leases[account].egressIP, account).Some?
             && nowNs - LastServed(w.log, w.table.leases[account].egressIP, account).value < p.WindowNs()
    ensures var w := Run(p, Boot(p, records, bootNs), steps);
            Readmit(p, SlideTo(p, w.table, nowNs).window, w.table.leases[account].egressIP, account, nowNs).Some?
  {
    hide Run, Boot, ValidRun;
    var w := Run(p, Boot(p, records, bootNs), steps);
    var ip := w.table.leases[account].egressIP;
    if p.IPQuotaEnabled() && ip.IsValid() {
      RunQuota(p, records, bootNs, steps);
      assert Agrees(w, ip, account, p.WindowNs());
      hide LogAgrees, QuotaHolds;
      RecentAt(w.table.window, nowNs - p.WindowNs(), ip);
      hide Recent, LastServed;
    }
  }

  // ------------------------------------------------------------------
  // When creation fails
  // ------------------------------------------------------------------

  lemma {:induction false} LightestIsLightest(nodes: Nodes, w: Entries, load: map<Addr, int>, n: nat)
    requires n <= |nodes.view|
    ensures var best := LightestSpare(nodes, w, load, n);
            forall i :: 0 <= i < n && Spare(nodes, nodes.view[i]) ==>
              best.Some? && !Lighter(w, load, nodes.pool[nodes.view[i]], nodes.pool[best.value])
  {
    hide CountOn, Load;
    if n > 0 {
      LightestIsLightest(nodes, w, load, n - 1);
    }
  }

  function IPOf(nodes: Nodes, h: Hash): Addr {
    if h in nodes.pool then nodes.pool[h] else NoAddr
  }

  /** Rotation prefers the lowest latency known on the address. */
  lemma {:induction false} RotationIsFastest(nodes: Nodes, ip: Addr, latencies: map<Hash, int>, n: nat)
    requires n <= |nodes.view|
    ensures var best := BestKnown(nodes, ip, latencies, n);
            forall i :: 0 <= i < n && HasLatency(nodes, nodes.view[i], ip, latencies) ==>
              best.Some? && latencies[best.value] <= latencies[nodes.view[i]]
  {
    if n > 0 {
      RotationIsFastest(nodes, ip, latencies, n - 1);
    }
  }

  /** Fail-open is complete.  With a non-empty view of live nodes on known
      addresses, creating a lease under the quota fails exactly when every
      routable address already has one account more than the limit in its
      window and none of the addresses tried counts this account. */
  lemma CreationFailsIff(p: Platform, nodes: Nodes, t: Table, account: Account, draw: Draw, nowNs: int)
    requires ValidDraw(nodes, draw) && p.IPQuotaEnabled() && account != NoAccount
    requires nodes.view != [] && forall h :: h in nodes.view ==> Spare(nodes, h)
    ensures var best := LightestSpare(nodes, t.window, t.load, |nodes.view|);
            best.Some? &&
            (Select(p, nodes, t, account, draw, nowNs).Nothing? <==>
              && (forall h :: h in nodes.view ==> CountOn(t.window, IPOf(nodes, h)) >= p.maxAccountsPerIP + 1)
              && (forall i :: 0 <= i < |draw.picks| ==> !Counted(t.window, IPOf(nodes, draw.picks[i]), account))
              && !Counted(t.window, IPOf(nodes, best.value), account))
  {
    LightestIsLightest(nodes, t.window, t.load, |nodes.view|);
    var best := LightestSpare(nodes, t.window, t.load, |nodes.view|);
    assert Spare(nodes, nodes.view[0]);
    hide CountOn, Counted, Seen, LightestSpare;
    var picked := FirstAdmitted(nodes, t.window, account, nowNs, p.maxAccountsPerIP, draw.picks, 0);
    forall i | 0 <= i < |draw.picks| ensures Spare(nodes, draw.picks[i]) {
      assert draw.picks[i] in nodes.view;
    }
    if forall h :: h in nodes.view ==> CountOn(t.window, IPOf(nodes, h)) >= p.maxAccountsPerIP + 1 {
      if picked.Some? {
        assert picked.value in nodes.view;
      }
    } else {
      var h :| h in nodes.view && CountOn(t.window, IPOf(nodes, h)) <= p.maxAccountsPerIP;
      assert !Lighter(t.window, t.load, nodes.pool[h], nodes.pool[best.value]);
    }
  }
}
