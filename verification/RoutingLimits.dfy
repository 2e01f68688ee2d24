/** Where routing keeps less than the quota promises, and exactly when. */
module RoutingLimits {
  import opened Types
  import opened FiniteSets
  import opened AccountWindow
  import opened StickyRouting
  import opened RoutingRuns

  // ------------------------------------------------------------------
  // Bindings nobody admits
  // ------------------------------------------------------------------

  function BindAll(ip: Addr, n: nat, nowNs: int): seq<Step> {
    if n == 0 then [] else BindAll(ip, n - 1, nowNs) + [Bind(Account(n), Lease(ZERO_HASH, ip, nowNs, nowNs, nowNs), nowNs, false)]
  }

  /** All of n bindings made at one instant are on the address. */
  ghost predicate Crowded(w: World, ip: Addr, n: nat, nowNs: int) {
    var m := SlotsAt(w.table.window, ip);
    && w.clockNs == nowNs && |m| == n
    && forall a :: a in m ==> a.Account? && a.id <= n && m[a].lastSeenNs == nowNs
  }

  lemma BindSlots(p: Platform, w: World, account: Account, lease: Lease, nowNs: int)
    requires p.IPQuotaEnabled() && lease.egressIP.IsValid() && account != NoAccount && nowNs >= w.clockNs
    requires account !in SlotsAt(w.table.window, lease.egressIP)
    ensures var w' := Apply(p, w, Bind(account, lease, nowNs, false));
            && w'.clockNs == nowNs
            && SlotsAt(w'.table.window, lease.egressIP)
            == Live(SlotsAt(w.table.window, lease.egressIP), nowNs - p.WindowNs())[account := WindowEntry(nowNs, false)]
  {
    var recent := Recent(w.table.window, nowNs - p.WindowNs());
    UpsertWindow(p, Advance(p, w, nowNs).table, account, lease, nowNs, false);
    RecentAt(w.table.window, nowNs - p.WindowNs(), lease.egressIP);
    SeenSlots(recent, lease.egressIP, account, nowNs, false);
    hide Recent, Seen, Upsert;
  }

  lemma BindOneMore(p: Platform, w: World, ip: Addr, n: nat, lease: Lease, nowNs: int)
    requires p.IPQuotaEnabled() && ip.IsValid() && lease.egressIP == ip && Crowded(w, ip, n, nowNs)
    ensures Crowded(Apply(p, w, Bind(Account(n + 1), lease, nowNs, false)), ip, n + 1, nowNs)
  {
    hide Apply, SlotsAt;
    var m := SlotsAt(w.table.window, ip);
    assert Account(n + 1) !in m;
    BindSlots(p, w, Account(n + 1), lease, nowNs);
    assert Live(m, nowNs - p.WindowNs()) == m;
  }

  /** Control-plane bindings take slots but no admission stops them: n of them
      put n accounts on one address at once, whatever the limit is. */
  lemma {:induction false} BindingsIgnoreTheLimit(p: Platform, ip: Addr, n: nat, nowNs: int)
    requires p.IPQuotaEnabled() && ip.IsValid()
    ensures ValidRun(p, Boot(p, [], nowNs), BindAll(ip, n, nowNs))
    ensures Crowded(Run(p, Boot(p, [], nowNs), BindAll(ip, n, nowNs)), ip, n, nowNs)
  {
    if n == 0 {
      assert SlotsAt(map[], ip) == map[];
    } else {
      BindingsIgnoreTheLimit(p, ip, n - 1, nowNs);
      var w := Run(p, Boot(p, [], nowNs), BindAll(ip, n - 1, nowNs));
      var last := Bind(Account(n), Lease(ZERO_HASH, ip, nowNs, nowNs, nowNs), nowNs, false);
      hide Apply, Run, ValidRun, Boot;
      BindOneMore(p, w, ip, n - 1, last.lease, nowNs);
      RunExtends(p, Boot(p, [], nowNs), BindAll(ip, n - 1, nowNs), last);
    }
  }

  /** At most one account beyond the limit on every address. */
  ghost predicate LimitKept(p: Platform, window: Entries) {
    forall ip: Addr :: ip.IsValid() ==> CountOn(window, ip) <= p.maxAccountsPerIP + 1
  }

  /** There is room for the binding, or the account is counted there already. */
  predicate BindFits(p: Platform, w: World, step: Step)
    requires step.Bind?
  {
    var window := Advance(p, w, step.nowNs).table.window;
    var ip := step.lease.egressIP;
    Anonymous(ip, step.account) || Counted(window, ip, step.account) || CountOn(window, ip) <= p.maxAccountsPerIP
  }

  lemma SeenCount(w: Entries, ip: Addr, account: Account, nowNs: int, viaFallback: bool)
    ensures CountOn(Seen(w, ip, account, nowNs, viaFallback), ip) == CountOn(w, ip) + if Counted(w, ip, account) then 0 else 1
    ensures forall q :: q != ip ==> CountOn(Seen(w, ip, account, nowNs, viaFallback), q) == CountOn(w, q)
  {
    SeenSlots(w, ip, account, nowNs, viaFallback);
    var m := SlotsAt(w, ip);
    var m' := SlotsAt(Seen(w, ip, account, nowNs, viaFallback), ip);
    hide Seen, SlotsAt;
    if account in m {
      assert m'.Keys == m.Keys;
    } else {
      assert m'.Keys == m.Keys + {account};
    }
  }

  lemma AdvanceLimit(p: Platform, w: World, nowNs: int)
    requires LimitKept(p, w.table.window)
    ensures LimitKept(p, Advance(p, w, nowNs).table.window)
  {
    forall ip: Addr | ip.IsValid() ensures CountOn(Advance(p, w, nowNs).table.window, ip) <= p.maxAccountsPerIP + 1 {
      RecentAt(w.table.window, nowNs - p.WindowNs(), ip);
      hide Recent;
      var m := SlotsAt(w.table.window, ip);
      SubsetCard(Live(m, nowNs - p.WindowNs()).Keys, m.Keys);
    }
  }

  /** A binding keeps the limit if and only if it fits. */
  lemma BindKeepsLimitIff(p: Platform, w: World, step: Step)
    requires p.IPQuotaEnabled() && step.Bind? && ValidStep(w, step) && LimitKept(p, w.table.window)
    ensures LimitKept(p, Apply(p, w, step).table.window) <==> BindFits(p, w, step)
  {
    AdvanceLimit(p, w, step.nowNs);
    var a := Advance(p, w, step.nowNs);
    UpsertWindow(p, a.table, step.account, step.lease, step.nowNs, step.lingeringMark);
    hide Upsert, Advance, Seen, CountOn, Counted;
    SeenCount(a.table.window, step.lease.egressIP, step.account, step.nowNs, step.lingeringMark);
  }

  /** Requests never go beyond it, and nothing else adds accounts. */
  lemma StepKeepsLimit(p: Platform, w: World, step: Step)
    requires p.IPQuotaEnabled() && !step.Bind? && ValidStep(w, step) && LimitKept(p, w.table.window)
    ensures LimitKept(p, Apply(p, w, step).table.window)
  {
    hide Route, ExpireLease, EndLease, LimitKept;
    if step.Unbind? {
      EndLeaseWindow(w.table, step.account, LeaseRemove);
      return;
    }
    AdvanceLimit(p, w, step.nowNs);
    var a := Advance(p, w, step.nowNs);
    match step
    case Request(nodes, account, draw, nowNs) =>
      RouteWindow(p, nodes, a.table, account, draw, nowNs);
      var (t, out) := Answer(p, w, step);
      if out.Routed? {
        AdmittedLimit(p, a.table.window, t.window, out.egressIP, account, nowNs);
      }
    case SweepLease(account, nowNs) =>
      ExpireLeaseWindow(a.table, account, nowNs);
    case SweepWindow(nowNs) =>
  }

  lemma AdmittedLimit(p: Platform, w: Entries, w': Entries, ip: Addr, account: Account, nowNs: int)
    requires Admitted(w, w', ip, account, nowNs, p.maxAccountsPerIP) && LimitKept(p, w)
    ensures LimitKept(p, w')
  {
    hide Seen, CountOn, Counted;
    SeenCount(w, ip, account, nowNs, false);
    SeenCount(w, ip, account, nowNs, true);
  }

  predicate EveryBindFits(p: Platform, w: World, steps: seq<Step>)
    requires ValidRun(p, w, steps)
    decreases |steps|
  {
    steps == [] ||
    var before, last := steps[..|steps| - 1], steps[|steps| - 1];
    EveryBindFits(p, w, before) && (last.Bind? ==> BindFits(p, Run(p, w, before), last))
  }

  /** The limit holds at the start and after every step. */
  ghost predicate AlwaysKept(p: Platform, w: World, steps: seq<Step>)
    requires ValidRun(p, w, steps)
    decreases |steps|
  {
    LimitKept(p, Run(p, w, steps).table.window) && (steps == [] || AlwaysKept(p, w, steps[..|steps| - 1]))
  }

  lemma {:induction false} AlwaysKeptIff(p: Platform, w: World, steps: seq<Step>)
    requires p.IPQuotaEnabled() && ValidRun(p, w, steps)
    ensures AlwaysKept(p, w, steps) <==> LimitKept(p, w.table.window) && EveryBindFits(p, w, steps)
    decreases |steps|
  {
    if steps != [] {
      var before, last := steps[..|steps| - 1], steps[|steps| - 1];
      AlwaysKeptIff(p, w, before);
      KeptNow(p, w, before);
      var v := Run(p, w, before);
      hide Apply, LimitKept, BindFits;
      if LimitKept(p, v.table.window) {
        if last.Bind? {
          BindKeepsLimitIff(p, v, last);
        } else {
          StepKeepsLimit(p, v, last);
        }
      }
    }
  }

  lemma KeptNow(p: Platform, w: World, steps: seq<Step>)
    requires ValidRun(p, w, steps)
    ensures AlwaysKept(p, w, steps) ==> LimitKept(p, Run(p, w, steps).table.window)
  {
  }

  // ------------------------------------------------------------------
  // Restored leases
  // ------------------------------------------------------------------

  predicate RecentlyActive(p: Platform, r: Restored, nowNs: int) {
    nowNs - (if r.lease.lastAccessedNs <= 0 then r.lease.createdAtNs else r.lease.lastAccessedNs) < p.WindowNs()
  }

  /** The accounts whose restored leases on the address were used within the
      window. */
  function RestoredOn(p: Platform, records: seq<Restored>, ip: Addr, nowNs: int): set<Account> {
    set r | r in records && r.lease.egressIP == ip && r.account != NoAccount && RecentlyActive(p, r, nowNs) :: r.account
  }

  lemma BootTouch(p: Platform, front: seq<Restored>, r: Restored, nowNs: int)
    requires p.IPQuotaEnabled()
    ensures var w := Boot(p, front, nowNs).table.window;
            var lastActive := if r.lease.lastAccessedNs <= 0 then r.lease.createdAtNs else r.lease.lastAccessedNs;
            Boot(p, front + [r], nowNs).table.window ==
              if RecentlyActive(p, r, nowNs) && !Anonymous(r.lease.egressIP, r.account)
              then Seen(w, r.lease.egressIP, r.account, lastActive, false) else w
  {
    hide Seen;
    assert (front + [r])[..|front|] == front;
  }

  lemma {:induction false} BootSlots(p: Platform, records: seq<Restored>, nowNs: int, ip: Addr)
    requires p.IPQuotaEnabled() && ip.IsValid()
    ensures SlotsAt(Boot(p, records, nowNs).table.window, ip).Keys == RestoredOn(p, records, ip, nowNs)
  {
    if records != [] {
      var front, r := records[..|records| - 1], records[|records| - 1];
      assert records == front + [r];
      BootSlots(p, front, nowNs, ip);
      var w := Boot(p, front, nowNs).table.window;
      var lastActive := if r.lease.lastAccessedNs <= 0 then r.lease.createdAtNs else r.lease.lastAccessedNs;
      SeenSlots(w, r.lease.egressIP, r.account, lastActive, false);
      BootTouch(p, front, r, nowNs);
      hide Seen, SlotsAt, Boot;
      assert RestoredOn(p, records, ip, nowNs) == RestoredOn(p, front, ip, nowNs) + RestoredOn(p, [r], ip, nowNs);
    }
  }

  /** The limit holds from start-up through a whole run if and only if no address
      was restored with more accounts than that, and every binding fits. */
  lemma LimitHoldsIff(p: Platform, records: seq<Restored>, bootNs: int, steps: seq<Step>)
    requires p.IPQuotaEnabled() && ValidRun(p, Boot(p, records, bootNs), steps)
    ensures AlwaysKept(p, Boot(p, records, bootNs), steps) <==>
              && (forall ip: Addr :: ip.IsValid() ==> |RestoredOn(p, records, ip, bootNs)| <= p.maxAccountsPerIP + 1)
              && EveryBindFits(p, Boot(p, records, bootNs), steps)
  {
    hide Boot, ValidRun, Run, AlwaysKept, EveryBindFits, RestoredOn;
    AlwaysKeptIff(p, Boot(p, records, bootNs), steps);
    forall ip: Addr | ip.IsValid() ensures CountOn(Boot(p, records, bootNs).table.window, ip) == |RestoredOn(p, records, ip, bootNs)| {
      BootSlots(p, records, bootNs, ip);
    }
  }

  // ------------------------------------------------------------------
  // Idle accounts
  // ------------------------------------------------------------------

  /** An idle account can be moved although its lease is alive and its node is
      healthy: its slot slid out and others filled the address. */
  lemma IdleAccountMoved(p: Platform, nodes: Nodes, t: Table, account: Account, draw: Draw, nowNs: int)
    requires ValidDraw(nodes, draw) && p.IPQuotaEnabled() && account != NoAccount
    requires account in t.leases && !t.leases[account].IsExpired(nowNs) && t.leases[account].egressIP.IsValid()
    requires nodes.LiveOn(t.leases[account].nodeHash, t.leases[account].egressIP) && t.leases[account].nodeHash in nodes.view
    ensures var ip := t.leases[account].egressIP;
            var (t', out) := Route(p, nodes, t, account, draw, nowNs);
            (account in t'.leases && out.Routed? && !out.leaseCreated)
            <==> (Counted(t.window, ip, account) || CountOn(t.window, ip) <= p.maxAccountsPerIP)
  {
    hide Select, SameIPCandidate, Seen, Counted, CountOn;
  }

  /** One node, and every pick falls on it. */
  function Only(h: Hash, ip: Addr): Nodes {
    Nodes(map[h := ip], [h])
  }

  function Picks(h: Hash): Draw {
    Draw(seq(QUOTA_PICK_ATTEMPTS, _ => h), map[])
  }

  function Ask(h: Hash, ip: Addr, i: nat, nowNs: int): Step {
    Request(Only(h, ip), Account(i), Picks(h), nowNs)
  }

  /** n accounts took slots at one instant; the idle one still has its lease. */
  ghost predicate Filled(w: World, h: Hash, ip: Addr, n: nat, nowNs: int) {
    var m := SlotsAt(w.table.window, ip);
    && w.clockNs == nowNs && |m| == n
    && (forall a :: a in m ==> a.Account? && 0 < a.id <= n && m[a].lastSeenNs == nowNs)
    && (forall a :: a in w.table.leases ==> a.Account? && a.id <= n)
    && Account(0) in w.table.leases
    && var lease := w.table.leases[Account(0)];
       lease.nodeHash == h && lease.egressIP == ip && !lease.IsExpired(nowNs)
  }

  /** On the only node an account without lease is let in while there is a slot. */
  lemma NewAccountRouted(p: Platform, t: Table, h: Hash, ip: Addr, account: Account, nowNs: int)
    requires p.IPQuotaEnabled() && ip.IsValid() && account != NoAccount && h != ZERO_HASH
    requires account !in t.leases && !Counted(t.window, ip, account) && CountOn(t.window, ip) <= p.maxAccountsPerIP
    ensures var (t', out) := Route(p, Only(h, ip), t, account, Picks(h), nowNs);
            && t'.leases == t.leases[account := NewLease(p, h, ip, nowNs)]
            && CountOn(t'.window, ip) == CountOn(t.window, ip) + 1
            && forall a :: a in SlotsAt(t'.window, ip) ==>
                 if a == account then SlotsAt(t'.window, ip)[a].lastSeenNs == nowNs
                 else a in SlotsAt(t.window, ip) && SlotsAt(t'.window, ip)[a] == SlotsAt(t.window, ip)[a]
  {
    var nodes, draw := Only(h, ip), Picks(h);
    OnlySpare(h, ip);
    CreationFailsIff(p, nodes, t, account, draw, nowNs);
    RouteWindow(p, nodes, t, account, draw, nowNs);
    hide Select, LightestSpare, Seen, SlotsAt, CountOn, Counted;
    SeenSlots(t.window, ip, account, nowNs, false);
    SeenSlots(t.window, ip, account, nowNs, true);
    SeenCount(t.window, ip, account, nowNs, false);
    SeenCount(t.window, ip, account, nowNs, true);
    CountIs(t.window, ip);
  }

  lemma OnlySpare(h: Hash, ip: Addr)
    requires ip.IsValid()
    ensures h in Only(h, ip).view && forall g :: g in Only(h, ip).view ==> g == h && Spare(Only(h, ip), g) && IPOf(Only(h, ip), g) == ip
  {
  }

  /** At that same instant nothing has slid out. */
  lemma FilledNow(p: Platform, w: World, h: Hash, ip: Addr, n: nat, nowNs: int)
    requires Filled(w, h, ip, n, nowNs)
    ensures SlotsAt(SlideTo(p, w.table, nowNs).window, ip) == SlotsAt(w.table.window, ip)
    ensures SlideTo(p, w.table, nowNs).leases == w.table.leases
  {
    RecentAt(w.table.window, nowNs - p.WindowNs(), ip);
    hide Recent, SlotsAt;
    var m := SlotsAt(w.table.window, ip);
    assert Live(m, nowNs - p.WindowNs()) == m;
  }

  lemma FillOne(p: Platform, w: World, h: Hash, ip: Addr, n: nat, nowNs: int)
    requires p.IPQuotaEnabled() && ip.IsValid() && h != ZERO_HASH && n <= p.maxAccountsPerIP
    requires Filled(w, h, ip, n, nowNs)
    ensures ValidStep(w, Ask(h, ip, n + 1, nowNs))
    ensures Filled(Apply(p, w, Ask(h, ip, n + 1, nowNs)), h, ip, n + 1, nowNs)
  {
    hide Route, SlideTo, StillSeeded, SlotsAt;
    var account, t := Account(n + 1), SlideTo(p, w.table, nowNs);
    FilledNow(p, w, h, ip, n, nowNs);
    CountIs(t.window, ip);
    assert account !in SlotsAt(t.window, ip) && account !in t.leases;
    NewAccountRouted(p, t, h, ip, account, nowNs);
    var (t', out) := Route(p, Only(h, ip), t, account, Picks(h), nowNs);
    CountIs(t'.window, ip);
    hide CountOn, Counted;
    assert Apply(p, w, Ask(h, ip, n + 1, nowNs)).table == t';
  }

  lemma CountIs(w: Entries, ip: Addr)
    ensures CountOn(w, ip) == |SlotsAt(w, ip)|
    ensures forall a :: Counted(w, ip, a) <==> a in SlotsAt(w, ip)
  {
  }

  /** The idle account's request, once the address is full: its lease is alive and
      so is its node, yet the lease ends and nothing replaces it. */
  lemma IdleTurnedAway(p: Platform, t: Table, h: Hash, ip: Addr, account: Account, nowNs: int)
    requires p.IPQuotaEnabled() && ip.IsValid() && account != NoAccount && h != ZERO_HASH
    requires account in t.leases && t.leases[account].egressIP == ip && t.leases[account].nodeHash == h && !t.leases[account].IsExpired(nowNs)
    requires !Counted(t.window, ip, account) && CountOn(t.window, ip) == p.maxAccountsPerIP + 1
    ensures var (t', out) := Route(p, Only(h, ip), t, account, Picks(h), nowNs);
            out.NoAvailableNodes? && account !in t'.leases
  {
    var nodes, draw := Only(h, ip), Picks(h);
    assert forall g :: g in nodes.view ==> Spare(nodes, g) && IPOf(nodes, g) == ip;
    assert h in nodes.view;
    CreationFailsIff(p, nodes, t, account, draw, nowNs);
    var best := LightestSpare(nodes, t.window, t.load, |nodes.view|);
    assert best.value in nodes.view;
    assert Select(p, nodes, t, account, draw, nowNs).Nothing?;
    hide Select, SameIPCandidate, LightestSpare;
  }

  /** Requests alone bring it about, whatever the limit: one account is routed, and
      one window later, its lease unexpired, limit plus one others are. */
  lemma {:induction false} IdleRun(p: Platform, h: Hash, ip: Addr, nowNs: int, n: nat) returns (steps: seq<Step>)
    requires p.IPQuotaEnabled() && ip.IsValid() && h != ZERO_HASH && p.TTLNs() >= p.WindowNs() && n <= p.maxAccountsPerIP + 1
    ensures NoBinding(steps)
    ensures ValidRun(p, Boot(p, [], nowNs), steps)
    ensures Filled(Run(p, Boot(p, [], nowNs), steps), h, ip, n, nowNs + p.WindowNs())
  {
    var w0 := Boot(p, [], nowNs);
    if n == 0 {
      var first, slide := Ask(h, ip, 0, nowNs), SweepWindow(nowNs + p.WindowNs());
      steps := [first] + [slide];
      hide Boot, Filled, Apply, ValidStep;
      FirstLease(p, h, ip, nowNs);
      assert NoBinding(steps);
      RunExtends(p, w0, [], first);
      assert [] + [first] == [first];
      RunExtends(p, w0, [first], slide);
    } else {
      var before := IdleRun(p, h, ip, nowNs, n - 1);
      hide Run, ValidRun, Boot, Filled, Apply;
      FillOne(p, Run(p, w0, before), h, ip, n - 1, nowNs + p.WindowNs());
      RunExtends(p, w0, before, Ask(h, ip, n, nowNs + p.WindowNs()));
      steps := before + [Ask(h, ip, n, nowNs + p.WindowNs())];
    }
  }

  /** Account 0 has a fresh lease, alone, and nobody was seen after now. */
  ghost predicate FirstServed(p: Platform, w: World, h: Hash, ip: Addr, nowNs: int) {
    && w.clockNs == nowNs
    && w.table.leases == map[Account(0) := NewLease(p, h, ip, nowNs)]
    && forall a :: a in SlotsAt(w.table.window, ip) ==> SlotsAt(w.table.window, ip)[a].lastSeenNs <= nowNs
  }

  lemma FirstLease(p: Platform, h: Hash, ip: Addr, nowNs: int)
    requires p.IPQuotaEnabled() && ip.IsValid() && h != ZERO_HASH && p.TTLNs() >= p.WindowNs()
    ensures var w0, first, slide := Boot(p, [], nowNs), Ask(h, ip, 0, nowNs), SweepWindow(nowNs + p.WindowNs());
            && ValidStep(w0, first) && ValidStep(Apply(p, w0, first), slide)
            && Filled(Apply(p, Apply(p, w0, first), slide), h, ip, 0, nowNs + p.WindowNs())
  {
    FirstIsServed(p, h, ip, nowNs);
    hide Apply, Boot, FirstServed, Filled;
    FirstSlidOut(p, Apply(p, Boot(p, [], nowNs), Ask(h, ip, 0, nowNs)), h, ip, nowNs);
  }

  lemma FirstIsServed(p: Platform, h: Hash, ip: Addr, nowNs: int)
    requires p.IPQuotaEnabled() && ip.IsValid() && h != ZERO_HASH
    ensures ValidStep(Boot(p, [], nowNs), Ask(h, ip, 0, nowNs))
    ensures FirstServed(p, Apply(p, Boot(p, [], nowNs), Ask(h, ip, 0, nowNs)), h, ip, nowNs)
  {
    hide Route, StillSeeded;
    var t := SlideTo(p, Boot(p, [], nowNs).table, nowNs);
    assert SlotsAt(t.window, ip) == map[];
    hide Recent;
    CountIs(t.window, ip);
    NewAccountRouted(p, t, h, ip, Account(0), nowNs);
    hide CountOn, Counted, SlotsAt, SlideTo;
  }

  lemma FirstSlidOut(p: Platform, w: World, h: Hash, ip: Addr, nowNs: int)
    requires p.IPQuotaEnabled() && p.TTLNs() >= p.WindowNs() && FirstServed(p, w, h, ip, nowNs)
    ensures var slide := SweepWindow(nowNs + p.WindowNs());
            ValidStep(w, slide) && Filled(Apply(p, w, slide), h, ip, 0, nowNs + p.WindowNs())
  {
    hide Recent, SlotsAt, StillSeeded;
    AllSlidOut(w.table.window, ip, nowNs);
  }

  lemma AllSlidOut(w: Entries, ip: Addr, cutoff: int)
    requires forall a :: a in SlotsAt(w, ip) ==> SlotsAt(w, ip)[a].lastSeenNs <= cutoff
    ensures SlotsAt(Recent(w, cutoff), ip) == map[]
  {
    RecentAt(w, cutoff, ip);
    hide Recent, SlotsAt;
    assert Live(SlotsAt(w, ip), cutoff) == map[];
  }

  /** The full address turns the idle account away. */
  lemma FullTurnsAway(p: Platform, w: World, h: Hash, ip: Addr, nowNs: int)
    requires p.IPQuotaEnabled() && ip.IsValid() && h != ZERO_HASH && Filled(w, h, ip, p.maxAccountsPerIP + 1, nowNs)
    ensures var last := Ask(h, ip, 0, nowNs);
            ValidStep(w, last) && Answer(p, w, last).1.NoAvailableNodes? && Account(0) !in Apply(p, w, last).table.leases
  {
    hide Route, SlideTo, StillSeeded, SlotsAt;
    var t := SlideTo(p, w.table, nowNs);
    FilledNow(p, w, h, ip, p.maxAccountsPerIP + 1, nowNs);
    CountIs(t.window, ip);
    hide CountOn, Counted;
    IdleTurnedAway(p, t, h, ip, Account(0), nowNs);
  }

  /** An idle account loses a live lease on a live node in a run of requests. */
  lemma IdleAccountLosesLease(p: Platform, h: Hash, ip: Addr, nowNs: int) returns (steps: seq<Step>, last: Step)
    requires p.IPQuotaEnabled() && ip.IsValid() && h != ZERO_HASH && p.TTLNs() >= p.WindowNs()
    ensures ValidRun(p, Boot(p, [], nowNs), steps) && NoBinding(steps)
    ensures var w := Run(p, Boot(p, [], nowNs), steps);
            && ValidStep(w, last) && last.Request? && last.account in w.table.leases
            && var lease := w.table.leases[last.account];
               && !lease.IsExpired(last.nowNs) && last.nodes.LiveOn(lease.nodeHash, lease.egressIP) && lease.nodeHash in last.nodes.view
               && Answer(p, w, last).1.NoAvailableNodes?
               && last.account !in Apply(p, w, last).table.leases
  {
    hide Run, Boot, ValidRun, Answer, Apply;
    var t1 := nowNs + p.WindowNs();
    steps := IdleRun(p, h, ip, nowNs, p.maxAccountsPerIP + 1);
    last := Ask(h, ip, 0, t1);
    FullTurnsAway(p, Run(p, Boot(p, [], nowNs), steps), h, ip, t1);
  }

  // ------------------------------------------------------------------
  // Leases shorter than the window
  // ------------------------------------------------------------------

  /** The lease was made by routing: it lives for the time to live, and its account
      was last routed to its address no earlier than it was made. */
  predicate Earned(p: Platform, log: seq<Serve>, a: Account, lease: Lease) {
    && lease.expiryNs == lease.createdAtNs + p.TTLNs()
    && var last := LastServed(log, lease.egressIP, a);
       last.Some? && last.value >= lease.createdAtNs
  }

  ghost predicate AllEarned(p: Platform, w: World) {
    && LogInOrder(w)
    && forall a :: a in w.table.leases ==> Earned(p, w.log, a, w.table.leases[a]) && w.table.leases[a].createdAtNs <= w.clockNs
  }

  /** One more answer leaves every account's last one where it was, or moves it on. */
  lemma ServedOn(log: seq<Serve>, s: Serve, ip: Addr, a: Account)
    ensures LastServed(log + [s], ip, a) == if s.ip == ip && s.account == a then Some(s.atNs) else LastServed(log, ip, a)
  {
    assert (log + [s])[..|log|] == log;
  }

  /** What a request leaves of the leases: the others as they were, and its own, if
      answered, with its old terms or newly made. */
  lemma RouteLeases(p: Platform, nodes: Nodes, t: Table, account: Account, draw: Draw, nowNs: int)
    requires ValidDraw(nodes, draw)
    ensures var (t', out) := Route(p, nodes, t, account, draw, nowNs);
            && (forall a :: a in t'.leases && a != account ==> a in t.leases && t'.leases[a] == t.leases[a])
            && (account in t'.leases ==>
                  && out.Routed? && out.egressIP == t'.leases[account].egressIP
                  && (|| (account in t.leases && SameTerms(t'.leases[account], t.leases[account]))
                      || t'.leases[account] == NewLease(p, out.nodeHash, out.egressIP, nowNs)))
  {
    hide Select, SameIPCandidate, Readmit;
  }

  lemma RequestEarned(p: Platform, w: World, step: Step)
    requires step.Request? && ValidStep(w, step) && AllEarned(p, w)
    ensures AllEarned(p, Apply(p, w, step))
  {
    hide Route, SlideTo, StillSeeded, LastServed;
    var w' := Apply(p, w, step);
    RouteLeases(p, step.nodes, SlideTo(p, w.table, step.nowNs), step.account, step.draw, step.nowNs);
    assert SlideTo(p, w.table, step.nowNs).leases == w.table.leases by {
      SlideLeases(p, w.table, step.nowNs);
    }
    var out := Answer(p, w, step).1;
    forall a | a in w'.table.leases ensures Earned(p, w'.log, a, w'.table.leases[a]) && w'.table.leases[a].createdAtNs <= w'.clockNs {
      var lease := w'.table.leases[a];
      if out.Routed? {
        ServedOn(w.log, Serve(out.egressIP, step.account, out.nodeHash, step.nowNs, out.leaseCreated), lease.egressIP, a);
      }
    }
  }

  lemma SlideLeases(p: Platform, t: Table, nowNs: int)
    ensures SlideTo(p, t, nowNs).leases == t.leases
  {
  }

  lemma StepEarned(p: Platform, w: World, step: Step)
    requires !step.Bind? && ValidStep(w, step) && AllEarned(p, w)
    ensures AllEarned(p, Apply(p, w, step))
  {
    if step.Request? {
      RequestEarned(p, w, step);
    } else {
      hide Route, SlideTo, StillSeeded, LastServed;
      var w' := Apply(p, w, step);
      if !step.Unbind? {
        SlideLeases(p, w.table, step.nowNs);
      }
      assert w'.log == w.log && forall a :: a in w'.table.leases ==> a in w.table.leases && w'.table.leases[a] == w.table.leases[a];
    }
  }

  predicate NoBinding(steps: seq<Step>) {
    forall i :: 0 <= i < |steps| ==> !steps[i].Bind?
  }

  lemma {:induction false} RunEarned(p: Platform, bootNs: int, steps: seq<Step>)
    requires ValidRun(p, Boot(p, [], bootNs), steps) && NoBinding(steps)
    ensures AllEarned(p, Run(p, Boot(p, [], bootNs), steps))
  {
    if steps != [] {
      RunEarned(p, bootNs, steps[..|steps| - 1]);
      hide Apply, AllEarned, Boot;
      StepEarned(p, Run(p, Boot(p, [], bootNs), steps[..|steps| - 1]), steps[|steps| - 1]);
    }
  }

  /** In runs of routing alone the quota never refuses an account its own unexpired
      lease. */
  ghost predicate NeverTurnedAway(p: Platform) {
    forall bootNs, steps, account, nowNs ::
      ValidRun(p, Boot(p, [], bootNs), steps) && NoBinding(steps) ==> Welcome(p, Run(p, Boot(p, [], bootNs), steps), account, nowNs)
  }

  predicate Welcome(p: Platform, w: World, account: Account, nowNs: int) {
    nowNs >= w.clockNs && account in w.table.leases && !w.table.leases[account].IsExpired(nowNs) ==>
      Readmit(p, SlideTo(p, w.table, nowNs).window, w.table.leases[account].egressIP, account, nowNs).Some?
  }

  lemma ShortLeaseWelcome(p: Platform, bootNs: int, steps: seq<Step>, account: Account, nowNs: int)
    requires ValidRun(p, Boot(p, [], bootNs), steps) && NoBinding(steps) && p.TTLNs() < p.WindowNs()
    ensures Welcome(p, Run(p, Boot(p, [], bootNs), steps), account, nowNs)
  {
    hide Run, ValidRun, Boot, Readmit, SlideTo, LastServed;
    RunEarned(p, bootNs, steps);
    var w := Run(p, Boot(p, [], bootNs), steps);
    if nowNs >= w.clockNs && account in w.table.leases && !w.table.leases[account].IsExpired(nowNs) {
      assert Earned(p, w.log, account, w.table.leases[account]);
      ActiveAccountAdmitted(p, [], bootNs, steps, account, nowNs);
    }
  }

  /** It is a matter of configuration: no account ever loses an unexpired lease to
      the quota if and only if leases live shorter than the window. */
  lemma NeverTurnedAwayIff(p: Platform)
    requires p.IPQuotaEnabled()
    ensures NeverTurnedAway(p) <==> p.TTLNs() < p.WindowNs()
  {
    hide Welcome, ValidRun, Run, Boot, NoBinding;
    if p.TTLNs() < p.WindowNs() {
      forall bootNs, steps, account, nowNs | ValidRun(p, Boot(p, [], bootNs), steps) && NoBinding(steps)
        ensures Welcome(p, Run(p, Boot(p, [], bootNs), steps), account, nowNs)
      {
        ShortLeaseWelcome(p, bootNs, steps, account, nowNs);
      }
    } else {
      var steps, last := IdleAccountLosesLease(p, Hash(1, 0), Addr(1), 0);
      TurnedAway(p, Run(p, Boot(p, [], 0), steps), last);
      assert !Welcome(p, Run(p, Boot(p, [], 0), steps), last.account, last.nowNs);
    }
  }

  /** Turned away with a live lease on a live node means refused by the quota. */
  lemma TurnedAway(p: Platform, w: World, last: Step)
    requires last.Request? && ValidStep(w, last) && last.account in w.table.leases
    requires var lease := w.table.leases[last.account];
             !lease.IsExpired(last.nowNs) && last.nodes.LiveOn(lease.nodeHash, lease.egressIP) && lease.nodeHash in last.nodes.view
    requires Answer(p, w, last).1.NoAvailableNodes?
    ensures !Welcome(p, w, last.account, last.nowNs)
  {
    hide Route, Readmit, SlideTo;
    var t := SlideTo(p, w.table, last.nowNs);
    SlideLeases(p, w.table, last.nowNs);
    if Readmit(p, t.window, t.leases[last.account].egressIP, last.account, last.nowNs).Some? {
      StickyAnswer(p, last.nodes, t, last.account, last.draw, last.nowNs);
    }
  }
}
