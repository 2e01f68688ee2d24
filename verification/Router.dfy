/** One platform's routing state, updated in place by requests, the control
    plane and the sweep. */
module Router {
  import opened Types
  import opened AccountWindow
  import opened StickyRouting

  /** The table's iteration order, as one Range call meets it. */
  ghost predicate Enumerates(order: seq<Account>, leases: map<Account, Lease>) {
    && (forall a :: a in order <==> a in leases)
    && forall i, j :: 0 <= i < j < |order| ==> order[i] != order[j]
  }

  /** Unbinding, or sweeping, the first accounts of an order. */
  function DeleteEach(t: Table, order: seq<Account>): Table {
    if order == [] then t else Delete(DeleteEach(t, order[..|order| - 1]), order[|order| - 1])
  }

  function ExpireEach(t: Table, order: seq<Account>, nowNs: int): Table {
    if order == [] then t else ExpireLease(ExpireEach(t, order[..|order| - 1], nowNs), order[|order| - 1], nowNs)
  }

  lemma {:induction false} DeletedLeft(t: Table, order: seq<Account>)
    ensures forall a :: a in DeleteEach(t, order).leases <==> a in t.leases && a !in order
  {
    if order != [] {
      var front, last := order[..|order| - 1], order[|order| - 1];
      DeletedLeft(t, front);
      assert order == front + [last];
    }
  }

  /** A sweep leaves the leases it does not meet, and those that have not expired. */
  lemma {:induction false} ExpiredLeft(t: Table, order: seq<Account>, nowNs: int)
    ensures forall a :: a in ExpireEach(t, order, nowNs).leases <==> a in t.leases && !(a in order && t.leases[a].IsExpired(nowNs))
    ensures forall a :: a in ExpireEach(t, order, nowNs).leases ==> ExpireEach(t, order, nowNs).leases[a] == t.leases[a]
  {
    if order != [] {
      var front, last := order[..|order| - 1], order[|order| - 1];
      ExpiredLeft(t, front, nowNs);
      assert order == front + [last];
      ExpiredOne(ExpireEach(t, front, nowNs), last, nowNs);
      hide ExpireLease;
    }
  }

  lemma ExpiredOne(t: Table, account: Account, nowNs: int)
    ensures ExpireLease(t, account, nowNs).leases ==
              if account in t.leases && t.leases[account].IsExpired(nowNs) then t.leases - {account} else t.leases
  {
  }

  class PlatformRoutingState {
    var leases: map<Account, Lease>
    var counts: map<Addr, int>
    var events: seq<LeaseEvent>
    const window: IPAccountWindow

    /** The state as a value, the window read at the given cutoff. */
    ghost function State(cutoff: int): Table
      reads this, window
    {
      Table(leases, counts, Recent(window.entries, cutoff), events)
    }

    constructor ()
      ensures leases == map[] && counts == map[] && events == [] && fresh(window) && window.entries == map[]
    {
      leases, counts, events := map[], map[], [];
      window := new IPAccountWindow();
    }

    method IncCount(ip: Addr)
      modifies `counts
      ensures counts == Inc(old(counts), ip)
    {
      if !ip.IsValid() {
        return;
      }
      if ip !in counts {
        counts := counts[ip := 0];
      }
      counts := counts[ip := counts[ip] + 1];
    }

    method DecCount(ip: Addr)
      modifies `counts
      ensures counts == Dec(old(counts), ip)
    {
      if !ip.IsValid() {
        return;
      }
      if ip in counts {
        counts := counts[ip := counts[ip] - 1];
      }
    }

    method Emit(kind: LeaseEventType, account: Account, nodeHash: Hash, egressIP: Addr, createdAtNs: int)
      modifies `events
      ensures events == old(events) + [LeaseEvent(kind, account, nodeHash, egressIP, createdAtNs)]
    {
      events := events + [LeaseEvent(kind, account, nodeHash, egressIP, createdAtNs)];
    }

    // ----------------------------------------------------------------
    // Choosing a node
    // ----------------------------------------------------------------

    /** The two best-so-far variables of the scan, with the zero hash for none. */
    method ChooseSameIPRotationCandidate(nodes: Nodes, targetIP: Addr, latencies: map<Hash, int>) returns (h: Hash, ok: bool)
      requires ZERO_HASH !in nodes.view
      ensures var c := SameIPCandidate(nodes, targetIP, latencies);
              ok == c.Some? && (ok ==> h == c.value)
    {
      var bestKnownHash, bestKnownLatency, fallbackHash := ZERO_HASH, MAX_INT64, ZERO_HASH;
      for i := 0 to |nodes.view|
        invariant fallbackHash == (var f := FirstOn(nodes, targetIP, i); if f.Some? then f.value else ZERO_HASH)
        invariant var b := BestKnown(nodes, targetIP, latencies, i);
                  if b.Some? then bestKnownHash == b.value && bestKnownLatency == latencies[b.value]
                  else bestKnownHash == ZERO_HASH && bestKnownLatency == MAX_INT64
      {
        var n := nodes.view[i];
        if n !in nodes.pool || nodes.pool[n] != targetIP {
          continue;
        }
        if fallbackHash == ZERO_HASH {
          fallbackHash := n;
        }
        if n in latencies && latencies[n] < bestKnownLatency {
          bestKnownHash, bestKnownLatency := n, latencies[n];
        }
      }
      if bestKnownHash != ZERO_HASH {
        return bestKnownHash, true;
      }
      if fallbackHash != ZERO_HASH {
        return fallbackHash, true;
      }
      return ZERO_HASH, false;
    }

    /** One candidate per address, kept when strictly better than the best. */
    method FallbackQuotaRoute(p: Platform, nodes: Nodes, account: Account, nowNs: int) returns (h: Hash, ok: bool)
      modifies window
      ensures var t := old(State(nowNs - p.WindowNs()));
              var s := SelectFallback(p, nodes, t, account, nowNs);
              && ok == s.Selected?
              && (ok ==> h == s.nodeHash)
              && State(nowNs - p.WindowNs()) == t.(window := if ok then s.window else t.window)
    {
      hide Recent, ForceReserve, CountOn;
      ghost var t := State(nowNs - p.WindowNs());
      var byIP := window.CountsByIP(nowNs, p.WindowNs());
      var seen: set<Addr> := {};
      var best: Option<Hash> := None;
      for i := 0 to |nodes.view|
        invariant best == LightestSpare(nodes, t.window, t.load, i)
        invariant forall ip :: ip in seen ==>
                    best.Some? && ip.IsValid() && !Lighter(t.window, t.load, ip, nodes.pool[best.value])
      {
        var n := nodes.view[i];
        if n !in nodes.pool {
          continue;
        }
        var ip := nodes.pool[n];
        if !ip.IsValid() || ip in seen {
          continue;
        }
        seen := seen + {ip};
        var count := if ip in byIP then byIP[ip] else 0;
        var load := if ip in counts then counts[ip] else 0;
        if best.None? {
          best := Some(n);
        } else {
          var bestIP := nodes.pool[best.value];
          var bestCount := if bestIP in byIP then byIP[bestIP] else 0;
          var bestLoad := if bestIP in counts then counts[bestIP] else 0;
          if count < bestCount || (count == bestCount && load < bestLoad) {
            best := Some(n);
          }
        }
      }
      if best.None? {
        return ZERO_HASH, false;
      }
      ok := window.ReserveForcedFallback(nodes.pool[best.value], account, nowNs, p.WindowNs(), p.maxAccountsPerIP);
      h := if ok then best.value else ZERO_HASH;
    }

    method SelectLiveRandomRoute(nodes: Nodes, draw: Draw) returns (h: Hash, ok: bool)
      requires ValidDraw(nodes, draw) && nodes.view != []
      ensures var s := FirstLive(nodes, draw.picks, 0, LIVE_PICK_ATTEMPTS);
              ok == s.Some? && (ok ==> h == s.value)
    {
      for i := 0 to LIVE_PICK_ATTEMPTS
        invariant FirstLive(nodes, draw.picks, 0, LIVE_PICK_ATTEMPTS) == FirstLive(nodes, draw.picks, i, LIVE_PICK_ATTEMPTS)
      {
        if draw.picks[i] in nodes.pool {
          return draw.picks[i], true;
        }
      }
      return ZERO_HASH, false;
    }

    method SelectRouteForLease(p: Platform, nodes: Nodes, account: Account, draw: Draw, nowNs: int) returns (h: Hash, ok: bool)
      requires ValidDraw(nodes, draw)
      modifies window
      ensures var t := old(State(nowNs - p.WindowNs()));
              var s := Select(p, nodes, t, account, draw, nowNs);
              && ok == s.Selected?
              && (ok ==> h == s.nodeHash)
              && State(nowNs - p.WindowNs()) == t.(window := if ok then s.window else t.window)
    {
      hide Recent, Reserve, SelectFallback;
      if |nodes.view| == 0 {
        return ZERO_HASH, false;
      }
      if !p.IPQuotaEnabled() {
        h, ok := SelectLiveRandomRoute(nodes, draw);
        return;
      }
      ghost var w := Recent(window.entries, nowNs - p.WindowNs());
      for i := 0 to QUOTA_PICK_ATTEMPTS
        invariant Recent(window.entries, nowNs - p.WindowNs()) == w
        invariant FirstAdmitted(nodes, w, account, nowNs, p.maxAccountsPerIP, draw.picks, 0)
               == FirstAdmitted(nodes, w, account, nowNs, p.maxAccountsPerIP, draw.picks, i)
      {
        var pick := draw.picks[i];
        if pick !in nodes.pool {
          continue;
        }
        var admitted := window.ReserveIfEligible(nodes.pool[pick], account, nowNs, p.WindowNs(), p.maxAccountsPerIP);
        if admitted {
          return pick, true;
        }
      }
      h, ok := FallbackQuotaRoute(p, nodes, account, nowNs);
    }

    // ----------------------------------------------------------------
    // A sticky request
    // ----------------------------------------------------------------

    method RefreshIfQuota(p: Platform, ip: Addr, account: Account, nowNs: int) returns (ok: bool)
      modifies window
      ensures var w := Recent(old(window.entries), nowNs - p.WindowNs());
              var r := Readmit(p, w, ip, account, nowNs);
              ok == r.Some? && Recent(window.entries, nowNs - p.WindowNs()) == (if ok then r.value else w)
    {
      ok := true;
      if p.IPQuotaEnabled() {
        ok := window.RefreshOnHit(ip, account, nowNs, p.WindowNs(), p.maxAccountsPerIP);
      }
    }

    /** Dropping the previous lease: its slot is given back and the reason told,
        whether or not a new lease was found. */
    method CleanupPreviousLease(account: Account, why: LeaseEventType)
      modifies this
      ensures forall c :: State(c) == EndLease(old(State(c)), account, why)
    {
      if account !in leases {
        return;
      }
      var lease := leases[account];
      DecCount(lease.egressIP);
      Emit(why, account, lease.nodeHash, lease.egressIP, lease.createdAtNs);
      leases := leases - {account};
    }

    method CreateOrAbortStickyLease(p: Platform, nodes: Nodes, account: Account, draw: Draw, nowNs: int, why: LeaseEventType) returns (out: Outcome)
      requires ValidDraw(nodes, draw)
      modifies this, window
      ensures (State(nowNs - p.WindowNs()), out) == Rebuild(p, nodes, old(State(nowNs - p.WindowNs())), account, why, draw, nowNs)
    {
      hide Recent, Select;
      var h, ok := SelectRouteForLease(p, nodes, account, draw, nowNs);
      ghost var t := State(nowNs - p.WindowNs());
      if !ok {
        CleanupPreviousLease(account, why);
        assert State(nowNs - p.WindowNs()) == EndLease(t, account, why);
        return NoAvailableNodes;
      }
      var lease := Lease(h, nodes.pool[h], nowNs, nowNs + p.TTLNs(), nowNs);
      CleanupPreviousLease(account, why);
      assert State(nowNs - p.WindowNs()) == EndLease(t, account, why);
      IncCount(lease.egressIP);
      Emit(LeaseCreate, account, lease.nodeHash, lease.egressIP, 0);
      leases := leases[account := lease];
      return Routed(lease.nodeHash, lease.egressIP, true);
    }

    method TryLeaseHit(p: Platform, nodes: Nodes, account: Account, current: Lease, nowNs: int) returns (out: Outcome)
      requires account in leases && leases[account] == current
      modifies this, window
      ensures var t := old(State(nowNs - p.WindowNs()));
              var hit := Hit(p, nodes, t, account, nowNs);
              if hit.Some? then
                && State(nowNs - p.WindowNs()) == KeepLease(t, account, current.nodeHash, LeaseTouch, hit.value, nowNs)
                && out == Routed(current.nodeHash, current.egressIP, false)
              else
                State(nowNs - p.WindowNs()) == t && out.NoAvailableNodes?
    {
      hide Recent, Readmit;
      if current.nodeHash !in nodes.pool || current.nodeHash !in nodes.view || nodes.pool[current.nodeHash] != current.egressIP {
        return NoAvailableNodes;
      }
      var ok := RefreshIfQuota(p, nodes.pool[current.nodeHash], account, nowNs);
      if !ok {
        return NoAvailableNodes;
      }
      Emit(LeaseTouch, account, current.nodeHash, current.egressIP, 0);
      leases := leases[account := current.(lastAccessedNs := nowNs)];
      return Routed(current.nodeHash, current.egressIP, false);
    }

    method TryLeaseSameIPRotation(p: Platform, nodes: Nodes, account: Account, current: Lease, draw: Draw, nowNs: int) returns (out: Outcome)
      requires ValidDraw(nodes, draw) && account in leases && leases[account] == current
      modifies this, window
      ensures var t := old(State(nowNs - p.WindowNs()));
              var c := SameIPCandidate(nodes, current.egressIP, draw.latencies);
              var moved := if c.None? then None else Readmit(p, t.window, current.egressIP, account, nowNs);
              if moved.Some? then
                && State(nowNs - p.WindowNs()) == KeepLease(t, account, c.value, LeaseReplace, moved.value, nowNs)
                && out == Routed(c.value, current.egressIP, false)
              else
                State(nowNs - p.WindowNs()) == t && out.NoAvailableNodes?
    {
      hide Recent, Readmit, SameIPCandidate;
      var bestHash, found := ChooseSameIPRotationCandidate(nodes, current.egressIP, draw.latencies);
      if !found {
        return NoAvailableNodes;
      }
      var ok := RefreshIfQuota(p, current.egressIP, account, nowNs);
      if !ok {
        return NoAvailableNodes;
      }
      Emit(LeaseReplace, account, bestHash, current.egressIP, 0);
      leases := leases[account := current.(nodeHash := bestHash, lastAccessedNs := nowNs)];
      return Routed(bestHash, current.egressIP, false);
    }

    method RouteSticky(p: Platform, nodes: Nodes, account: Account, draw: Draw, nowNs: int) returns (out: Outcome)
      requires ValidDraw(nodes, draw)
      modifies this, window
      ensures (State(nowNs - p.WindowNs()), out) == Route(p, nodes, old(State(nowNs - p.WindowNs())), account, draw, nowNs)
    {
      hide Recent, Readmit, SameIPCandidate, Rebuild, KeepLease, Hit;
      if account !in leases || leases[account].IsExpired(nowNs) {
        out := CreateOrAbortStickyLease(p, nodes, account, draw, nowNs, LeaseExpire);
        return;
      }
      var current := leases[account];
      out := TryLeaseHit(p, nodes, account, current, nowNs);
      if out.Routed? {
        return;
      }
      out := TryLeaseSameIPRotation(p, nodes, account, current, draw, nowNs);
      if out.Routed? {
        return;
      }
      out := CreateOrAbortStickyLease(p, nodes, account, draw, nowNs, LeaseRemove);
    }

    // ----------------------------------------------------------------
    // Control plane, start-up and sweep
    // ----------------------------------------------------------------

    method StoreLease(account: Account, lease: Lease) returns (replaced: bool)
      modifies `leases, `counts
      ensures replaced == (account in old(leases)) && leases == old(leases)[account := lease]
      ensures counts == Inc(if replaced then Dec(old(counts), old(leases)[account].egressIP) else old(counts), lease.egressIP)
    {
      replaced := account in leases;
      if replaced {
        DecCount(leases[account].egressIP);
      }
      IncCount(lease.egressIP);
      leases := leases[account := lease];
    }

    method UpsertLease(p: Platform, account: Account, lease: Lease, nowNs: int)
      modifies this, window
      ensures State(nowNs - p.WindowNs()) == Upsert(p, old(State(nowNs - p.WindowNs())), account, lease, nowNs,
                                                    LingeringMark(old(window.entries), lease.egressIP, account))
    {
      hide Recent, Touched, LingeringMark;
      TouchRecent(window.entries, lease.egressIP, account, nowNs, nowNs - p.WindowNs());
      var replaced := StoreLease(account, lease);
      if p.IPQuotaEnabled() {
        window.Touch(lease.egressIP, account, nowNs);
      }
      Emit(if replaced then LeaseReplace else LeaseCreate, account, lease.nodeHash, lease.egressIP, 0);
    }

    method RestoreLease(p: Platform, account: Account, lease: Lease, nowNs: int)
      modifies this, window
      ensures State(nowNs - p.WindowNs()) == Restore(p, old(State(nowNs - p.WindowNs())), account, lease, nowNs,
                                                     LingeringMark(old(window.entries), lease.egressIP, account))
      ensures var lastActive := if lease.lastAccessedNs <= 0 then lease.createdAtNs else lease.lastAccessedNs;
              window.entries == old(window.entries) || window.entries == Touched(old(window.entries), lease.egressIP, account, lastActive, false)
    {
      hide Recent, Touched, LingeringMark;
      var _ := StoreLease(account, lease);
      if p.IPQuotaEnabled() {
        var lastActive := lease.lastAccessedNs;
        if lastActive <= 0 {
          lastActive := lease.createdAtNs;
        }
        if nowNs - lastActive < p.WindowNs() {
          TouchRecent(window.entries, lease.egressIP, account, lastActive, nowNs - p.WindowNs());
          window.Touch(lease.egressIP, account, lastActive);
        }
      }
    }

    method DeleteLease(account: Account) returns (deleted: bool)
      modifies this
      ensures deleted == (account in old(leases)) && leases == old(leases) - {account}
      ensures forall c :: State(c) == Delete(old(State(c)), account)
    {
      deleted := account in leases;
      CleanupPreviousLease(account, LeaseRemove);
      assert leases == State(0).leases;
    }

    method DeleteAllLeases(order: seq<Account>) returns (count: nat)
      requires Enumerates(order, leases)
      modifies this
      ensures leases == map[] && count == |order|
      ensures forall c :: State(c) == DeleteEach(old(State(c)), order)
    {
      count := 0;
      for i := 0 to |order|
        invariant forall c :: State(c) == DeleteEach(old(State(c)), order[..i])
        invariant count == i
      {
        hide Delete;
        DeletedLeft(old(State(0)), order[..i]);
        assert order[i] in State(0).leases;
        assert order[..i + 1][..i] == order[..i];
        var deleted := DeleteLease(order[i]);
        if deleted {
          count := count + 1;
        }
      }
      assert order[..|order|] == order;
      DeletedLeft(old(State(0)), order);
      assert State(0).leases == map[];
    }

    /** The sweep: the window is pruned, then every lease seen expired is looked
        at again and ended if it still is. */
    method SweepPlatformState(p: Platform, order: seq<Account>, nowNs: int)
      requires Enumerates(order, leases)
      modifies this, window
      ensures State(nowNs - p.WindowNs()) == ExpireEach(old(State(nowNs - p.WindowNs())), order, nowNs)
      ensures forall a :: a in leases <==> a in old(leases) && !old(leases)[a].IsExpired(nowNs)
      ensures window.entries == if p.IPQuotaEnabled() then Recent(old(window.entries), nowNs - p.WindowNs()) else old(window.entries)
    {
      hide Recent;
      if p.IPQuotaEnabled() {
        RecentSlides(window.entries, nowNs - p.WindowNs(), nowNs - p.WindowNs());
        window.Prune(nowNs, p.WindowNs());
      }
      SweepLeases(order, nowNs);
    }

    method SweepLeases(order: seq<Account>, nowNs: int)
      requires Enumerates(order, leases)
      modifies this
      ensures forall c :: State(c) == ExpireEach(old(State(c)), order, nowNs)
      ensures forall a :: a in leases <==> a in old(leases) && !old(leases)[a].IsExpired(nowNs)
    {
      hide EndLease, ExpireLease, Recent;
      for i := 0 to |order|
        invariant forall c :: State(c) == ExpireEach(old(State(c)), order[..i], nowNs)
      {
        assert order[..i + 1][..i] == order[..i];
        ExpireOnLeases(order[i], nowNs);
      }
      assert order[..|order|] == order;
      ExpiredLeft(old(State(0)), order, nowNs);
      assert leases == State(0).leases;
    }

    method ExpireOnLeases(account: Account, nowNs: int)
      modifies this
      ensures forall c :: State(c) == ExpireLease(old(State(c)), account, nowNs)
      ensures leases == if account in old(leases) && old(leases)[account].IsExpired(nowNs) then old(leases) - {account} else old(leases)
    {
      if account in leases && leases[account].expiryNs < nowNs {
        CleanupPreviousLease(account, LeaseExpire);
      }
      assert leases == State(0).leases;
    }
  }
}
