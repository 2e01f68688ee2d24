/** Sticky routing of one platform, as steps on a value: the lease table, the
    per-address load counters, the in-window accounts and the emitted events. */
module StickyRouting {
  import opened Types
  import opened AccountWindow

  const DEFAULT_IP_ACCOUNT_WINDOW_NS := 7_200_000_000_000
  const DEFAULT_STICKY_TTL_NS := 86_400_000_000_000
  const MAX_INT64 := 0x7FFF_FFFF_FFFF_FFFF
  const LIVE_PICK_ATTEMPTS: nat := 2
  const QUOTA_PICK_ATTEMPTS: nat := 8

  datatype Platform = Platform(maxAccountsPerIP: int, ipAccountWindowNs: int, stickyTTLNs: int) {
    predicate IPQuotaEnabled() {
      maxAccountsPerIP > 0
    }

    function WindowNs(): (ns: int)
      ensures ns > 0
    {
      if ipAccountWindowNs > 0 then ipAccountWindowNs else DEFAULT_IP_ACCOUNT_WINDOW_NS
    }

    function TTLNs(): (ns: int)
      ensures ns > 0
    {
      if stickyTTLNs <= 0 then DEFAULT_STICKY_TTL_NS else stickyTTLNs
    }
  }

  datatype Lease = Lease(nodeHash: Hash, egressIP: Addr, createdAtNs: int, expiryNs: int, lastAccessedNs: int) {
    predicate IsExpired(nowNs: int) {
      expiryNs < nowNs
    }
  }

  datatype LeaseEventType = LeaseCreate | LeaseTouch | LeaseReplace | LeaseRemove | LeaseExpire

  /** createdAtNs is filled in on removal and expiry only. */
  datatype LeaseEvent = LeaseEvent(kind: LeaseEventType, account: Account, nodeHash: Hash, egressIP: Addr, createdAtNs: int)

  /** What one request sees of the pool: the live nodes with their egress
      address, and the platform's routable view in its iteration order. */
  datatype Nodes = Nodes(pool: map<Hash, Addr>, view: seq<Hash>) {
    predicate LiveOn(h: Hash, ip: Addr) {
      h in pool && pool[h] == ip
    }
  }

  /** What one request draws from outside: the nodes its random picks yield and
      the recent latencies it can read. */
  datatype Draw = Draw(picks: seq<Hash>, latencies: map<Hash, int>)

  predicate ValidDraw(nodes: Nodes, draw: Draw) {
    && |draw.picks| == QUOTA_PICK_ATTEMPTS
    && ZERO_HASH !in nodes.view
    && (nodes.view != [] ==> forall i :: 0 <= i < |draw.picks| ==> draw.picks[i] in nodes.view)
  }

  datatype Table = Table(leases: map<Account, Lease>, load: map<Addr, int>, window: Entries, events: seq<LeaseEvent>)

  datatype Outcome = Routed(nodeHash: Hash, egressIP: Addr, leaseCreated: bool) | NoAvailableNodes

  // ------------------------------------------------------------------
  // Load counters
  // ------------------------------------------------------------------

  function Load(load: map<Addr, int>, ip: Addr): int {
    if ip.IsValid() && ip in load then load[ip] else 0
  }

  function Inc(load: map<Addr, int>, ip: Addr): map<Addr, int> {
    if ip.IsValid() then load[ip := Load(load, ip) + 1] else load
  }

  /** A counter that was never created is left alone. */
  function Dec(load: map<Addr, int>, ip: Addr): map<Addr, int> {
    if ip.IsValid() && ip in load then load[ip := load[ip] - 1] else load
  }

  // ------------------------------------------------------------------
  // Choosing a node
  // ------------------------------------------------------------------

  predicate HasLatency(nodes: Nodes, h: Hash, ip: Addr, latencies: map<Hash, int>) {
    nodes.LiveOn(h, ip) && h in latencies && latencies[h] < MAX_INT64
  }

  /** Among the first n view nodes on the address: the lowest known latency,
      the earliest on ties. */
  function BestKnown(nodes: Nodes, ip: Addr, latencies: map<Hash, int>, n: nat): (best: Option<Hash>)
    requires n <= |nodes.view|
    ensures best.Some? ==> HasLatency(nodes, best.value, ip, latencies) && best.value in nodes.view
  {
    if n == 0 then None
    else
      var prev := BestKnown(nodes, ip, latencies, n - 1);
      var h := nodes.view[n - 1];
      if HasLatency(nodes, h, ip, latencies) && (prev.None? || latencies[h] < latencies[prev.value]) then Some(h) else prev
  }

  function FirstOn(nodes: Nodes, ip: Addr, n: nat): (first: Option<Hash>)
    requires n <= |nodes.view|
    ensures first.Some? ==> nodes.LiveOn(first.value, ip) && first.value in nodes.view
    ensures first.None? ==> forall i :: 0 <= i < n ==> !nodes.LiveOn(nodes.view[i], ip)
  {
    if n == 0 then None
    else
      var prev := FirstOn(nodes, ip, n - 1);
      if prev.None? && nodes.LiveOn(nodes.view[n - 1], ip) then Some(nodes.view[n - 1]) else prev
  }

  function SameIPCandidate(nodes: Nodes, ip: Addr, latencies: map<Hash, int>): (c: Option<Hash>)
    ensures c.Some? ==> nodes.LiveOn(c.value, ip) && c.value in nodes.view
    ensures c.None? ==> forall h :: h in nodes.view ==> !nodes.LiveOn(h, ip)
  {
    var known := BestKnown(nodes, ip, latencies, |nodes.view|);
    if known.Some? then known else FirstOn(nodes, ip, |nodes.view|)
  }

  /** A node may carry a fallback binding when it is live on a known address. */
  predicate Spare(nodes: Nodes, h: Hash) {
    h in nodes.pool && nodes.pool[h].IsValid()
  }

  predicate Lighter(w: Entries, load: map<Addr, int>, a: Addr, b: Addr) {
    CountOn(w, a) < CountOn(w, b) || (CountOn(w, a) == CountOn(w, b) && Load(load, a) < Load(load, b))
  }

  /** Among the first n view nodes: the address with the fewest in-window
      accounts, then the fewest leases; the earliest on ties. */
  function LightestSpare(nodes: Nodes, w: Entries, load: map<Addr, int>, n: nat): (best: Option<Hash>)
    requires n <= |nodes.view|
    ensures best.Some? ==> Spare(nodes, best.value) && best.value in nodes.view[..n]
  {
    if n == 0 then None
    else
      var prev := LightestSpare(nodes, w, load, n - 1);
      var h := nodes.view[n - 1];
      assert nodes.view[..n] == nodes.view[..n - 1] + [h];
      if Spare(nodes, h) && (prev.None? || Lighter(w, load, nodes.pool[h], nodes.pool[prev.value])) then Some(h) else prev
  }

  /** The first of the picks that is still in the pool, from pick i on. */
  function FirstLive(nodes: Nodes, picks: seq<Hash>, i: nat, attempts: nat): (h: Option<Hash>)
    requires attempts <= |picks|
    ensures h.Some? ==> h.value in nodes.pool && h.value in picks
    decreases attempts - i
  {
    if i >= attempts then None
    else if picks[i] in nodes.pool then Some(picks[i])
    else FirstLive(nodes, picks, i + 1, attempts)
  }

  predicate Admissible(nodes: Nodes, w: Entries, h: Hash, account: Account, nowNs: int, max: int) {
    h in nodes.pool && Reserve(w, nodes.pool[h], account, nowNs, max).Some?
  }

  /** The first of the picks the quota admits, from pick i on. */
  function FirstAdmitted(nodes: Nodes, w: Entries, account: Account, nowNs: int, max: int, picks: seq<Hash>, i: nat): (h: Option<Hash>)
    ensures h.Some? ==> h.value in picks && Admissible(nodes, w, h.value, account, nowNs, max)
    ensures h.None? ==> forall j :: i <= j < |picks| ==> !Admissible(nodes, w, picks[j], account, nowNs, max)
    decreases |picks| - i
  {
    if i >= |picks| then None
    else if Admissible(nodes, w, picks[i], account, nowNs, max) then Some(picks[i])
    else FirstAdmitted(nodes, w, account, nowNs, max, picks, i + 1)
  }

  datatype Selection = Selected(nodeHash: Hash, window: Entries) | Nothing

  function SelectFallback(p: Platform, nodes: Nodes, t: Table, account: Account, nowNs: int): (s: Selection)
    ensures s.Selected? ==> s.nodeHash in nodes.pool && s.nodeHash in nodes.view
  {
    var best := LightestSpare(nodes, t.window, t.load, |nodes.view|);
    if best.None? then Nothing
    else
      var r := ForceReserve(t.window, nodes.pool[best.value], account, nowNs, p.maxAccountsPerIP);
      if r.None? then Nothing else Selected(best.value, r.value)
  }

  function Select(p: Platform, nodes: Nodes, t: Table, account: Account, draw: Draw, nowNs: int): (s: Selection)
    requires ValidDraw(nodes, draw)
    ensures s.Selected? ==> s.nodeHash in nodes.pool && s.nodeHash in nodes.view
  {
    if nodes.view == [] then Nothing
    else if !p.IPQuotaEnabled() then
      var h := FirstLive(nodes, draw.picks, 0, LIVE_PICK_ATTEMPTS);
      if h.None? then Nothing else Selected(h.value, t.window)
    else
      var h := FirstAdmitted(nodes, t.window, account, nowNs, p.maxAccountsPerIP, draw.picks, 0);
      if h.None? then SelectFallback(p, nodes, t, account, nowNs)
      else Selected(h.value, Reserve(t.window, nodes.pool[h.value], account, nowNs, p.maxAccountsPerIP).value)
  }

  // ------------------------------------------------------------------
  // One sticky request
  // ------------------------------------------------------------------

  /** Admission of a live lease: only asked when the quota is on. */
  function Readmit(p: Platform, w: Entries, ip: Addr, account: Account, nowNs: int): Option<Entries> {
    if p.IPQuotaEnabled() then Refresh(w, ip, account, nowNs, p.maxAccountsPerIP) else Some(w)
  }

  function Hit(p: Platform, nodes: Nodes, t: Table, account: Account, nowNs: int): Option<Entries>
    requires account in t.leases
  {
    var cur := t.leases[account];
    if nodes.LiveOn(cur.nodeHash, cur.egressIP) && cur.nodeHash in nodes.view
    then Readmit(p, t.window, cur.egressIP, account, nowNs)
    else None
  }

  /** Ends the account's lease, if any, giving its slot back and saying why. */
  function EndLease(t: Table, account: Account, kind: LeaseEventType): Table {
    if account !in t.leases then t
    else
      var cur := t.leases[account];
      t.(leases := t.leases - {account},
         load := Dec(t.load, cur.egressIP),
         events := t.events + [LeaseEvent(kind, account, cur.nodeHash, cur.egressIP, cur.createdAtNs)])
  }

  function StartLease(t: Table, account: Account, lease: Lease): Table
    requires account !in t.leases
  {
    t.(leases := t.leases[account := lease],
       load := Inc(t.load, lease.egressIP),
       events := t.events + [LeaseEvent(LeaseCreate, account, lease.nodeHash, lease.egressIP, 0)])
  }

  function KeepLease(t: Table, account: Account, nodeHash: Hash, kind: LeaseEventType, window: Entries, nowNs: int): Table
    requires account in t.leases
  {
    var cur := t.leases[account];
    t.(leases := t.leases[account := cur.(nodeHash := nodeHash, lastAccessedNs := nowNs)],
       window := window,
       events := t.events + [LeaseEvent(kind, account, nodeHash, cur.egressIP, 0)])
  }

  function NewLease(p: Platform, nodeHash: Hash, egressIP: Addr, nowNs: int): Lease {
    Lease(nodeHash, egressIP, nowNs, nowNs + p.TTLNs(), nowNs)
  }

  /** A lease is built anew, or creation fails; the previous one ends either way. */
  function Rebuild(p: Platform, nodes: Nodes, t: Table, account: Account, why: LeaseEventType, draw: Draw, nowNs: int): (Table, Outcome)
    requires ValidDraw(nodes, draw)
  {
    var s := Select(p, nodes, t, account, draw, nowNs);
    var ended := EndLease(t, account, why);
    if s.Nothing? then (ended, NoAvailableNodes)
    else
      var lease := NewLease(p, s.nodeHash, nodes.pool[s.nodeHash], nowNs);
      (StartLease(ended.(window := s.window), account, lease), Routed(lease.nodeHash, lease.egressIP, true))
  }

  function Route(p: Platform, nodes: Nodes, t: Table, account: Account, draw: Draw, nowNs: int): (Table, Outcome)
    requires ValidDraw(nodes, draw)
  {
    if account !in t.leases || t.leases[account].IsExpired(nowNs) then
      Rebuild(p, nodes, t, account, LeaseExpire, draw, nowNs)
    else
      var cur := t.leases[account];
      var hit := Hit(p, nodes, t, account, nowNs);
      if hit.Some? then
        (KeepLease(t, account, cur.nodeHash, LeaseTouch, hit.value, nowNs), Routed(cur.nodeHash, cur.egressIP, false))
      else
        var c := SameIPCandidate(nodes, cur.egressIP, draw.latencies);
        var moved := if c.None? then None else Readmit(p, t.window, cur.egressIP, account, nowNs);
        if moved.Some? then
          (KeepLease(t, account, c.value, LeaseReplace, moved.value, nowNs), Routed(c.value, cur.egressIP, false))
        else
          Rebuild(p, nodes, t, account, LeaseRemove, draw, nowNs)
  }

  // ------------------------------------------------------------------
  // The other steps
  // ------------------------------------------------------------------

  /** A binding written by the control plane; it is counted, never refused. */
  function Upsert(p: Platform, t: Table, account: Account, lease: Lease, nowNs: int, lingeringMark: bool): Table {
    var had := account in t.leases;
    t.(leases := t.leases[account := lease],
       load := Inc(if had then Dec(t.load, t.leases[account].egressIP) else t.load, lease.egressIP),
       window := if p.IPQuotaEnabled() then Touched(t.window, lease.egressIP, account, nowNs, lingeringMark) else t.window,
       events := t.events + [LeaseEvent(if had then LeaseReplace else LeaseCreate, account, lease.nodeHash, lease.egressIP, 0)])
  }

  /** A lease read back at start-up: no event, and its slot counts only if it
      was used within the window. */
  function Restore(p: Platform, t: Table, account: Account, lease: Lease, nowNs: int, lingeringMark: bool): Table {
    var lastActive := if lease.lastAccessedNs <= 0 then lease.createdAtNs else lease.lastAccessedNs;
    var had := account in t.leases;
    t.(leases := t.leases[account := lease],
       load := Inc(if had then Dec(t.load, t.leases[account].egressIP) else t.load, lease.egressIP),
       window := if p.IPQuotaEnabled() && nowNs - lastActive < p.WindowNs()
                 then Touched(t.window, lease.egressIP, account, lastActive, lingeringMark) else t.window)
  }

  function Delete(t: Table, account: Account): Table {
    EndLease(t, account, LeaseRemove)
  }

  /** The sweep's second look at one lease. */
  function ExpireLease(t: Table, account: Account, nowNs: int): Table {
    if account in t.leases && t.leases[account].IsExpired(nowNs) then EndLease(t, account, LeaseExpire) else t
  }

  /** Time passing, as far as the window is concerned. */
  function SlideTo(p: Platform, t: Table, nowNs: int): Table {
    t.(window := Recent(t.window, nowNs - p.WindowNs()))
  }
}
