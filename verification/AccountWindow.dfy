/** The per-IP account window: which accounts were active on which egress
    address during the rolling window, and who may still be admitted. */
module AccountWindow {
  import opened Types

  datatype WindowEntry = WindowEntry(lastSeenNs: int, viaFallback: bool)

  type Slots = map<Account, WindowEntry>
  type Entries = map<Addr, Slots>

  function SlotsAt(e: Entries, ip: Addr): Slots {
    if ip in e then e[ip] else map[]
  }

  function Put(e: Entries, ip: Addr, account: Account, entry: WindowEntry): Entries {
    e[ip := SlotsAt(e, ip)[account := entry]]
  }

  function Live(m: Slots, cutoff: int): Slots {
    map a | a in m && m[a].lastSeenNs > cutoff :: m[a]
  }

  // ------------------------------------------------------------------
  // What the store means
  // ------------------------------------------------------------------

  /** The window at a cutoff: entries seen after it.  The store itself keeps
      expired entries until some operation happens to prune them; two stores
      with the same window behave alike. */
  function Recent(e: Entries, cutoff: int): Entries {
    map ip | ip in e && Live(e[ip], cutoff) != map[] :: Live(e[ip], cutoff)
  }

  function CountOn(w: Entries, ip: Addr): nat {
    |SlotsAt(w, ip)|
  }

  predicate Counted(w: Entries, ip: Addr, account: Account) {
    account in SlotsAt(w, ip)
  }

  /** Refreshing keeps the fallback mark; a new entry takes the one given. */
  function Seen(w: Entries, ip: Addr, account: Account, nowNs: int, viaFallback: bool): Entries {
    Put(w, ip, account,
        if Counted(w, ip, account) then w[ip][account].(lastSeenNs := nowNs) else WindowEntry(nowNs, viaFallback))
  }

  predicate Anonymous(ip: Addr, account: Account) {
    !ip.IsValid() || account == NoAccount
  }

  /** Admission of a new binding: already counted, or below the limit. */
  function Reserve(w: Entries, ip: Addr, account: Account, nowNs: int, max: int): Option<Entries> {
    if Anonymous(ip, account) || max <= 0 then Some(w)
    else if Counted(w, ip, account) || CountOn(w, ip) < max then Some(Seen(w, ip, account, nowNs, false))
    else None
  }

  /** Admission of an existing lease: one marked slot beyond the limit. */
  function Refresh(w: Entries, ip: Addr, account: Account, nowNs: int, max: int): Option<Entries> {
    if Anonymous(ip, account) || max <= 0 then Some(w)
    else if Counted(w, ip, account) || CountOn(w, ip) <= max
    then Some(Seen(w, ip, account, nowNs, CountOn(w, ip) >= max))
    else None
  }

  /** The fail-open admission, bounded by one slot beyond the limit. */
  function ForceReserve(w: Entries, ip: Addr, account: Account, nowNs: int, max: int): Option<Entries> {
    if Anonymous(ip, account) then Some(w)
    else if Counted(w, ip, account) || CountOn(w, ip) <= max then Some(Seen(w, ip, account, nowNs, true))
    else None
  }

  /** An activity recorded without any admission.  No pruning comes first, so
      an expired entry that still lingers passes its mark on. */
  function Touched(w: Entries, ip: Addr, account: Account, nowNs: int, lingeringMark: bool): Entries {
    if Anonymous(ip, account) then w else Seen(w, ip, account, nowNs, lingeringMark)
  }

  function LingeringMark(e: Entries, ip: Addr, account: Account): bool {
    Counted(e, ip, account) && e[ip][account].viaFallback
  }

  // ------------------------------------------------------------------
  // How the store represents it
  // ------------------------------------------------------------------

  function Pruned(e: Entries, ip: Addr, cutoff: int): Entries {
    if ip !in e then e
    else if Live(e[ip], cutoff) == map[] then e - {ip}
    else e[ip := Live(e[ip], cutoff)]
  }

  lemma RecentAt(e: Entries, cutoff: int, ip: Addr)
    ensures SlotsAt(Recent(e, cutoff), ip) == Live(SlotsAt(e, ip), cutoff)
  {
  }

  lemma LiveAt(m: Slots, cutoff: int)
    ensures forall a :: a in Live(m, cutoff) <==> a in m && m[a].lastSeenNs > cutoff
    ensures forall a :: a in Live(m, cutoff) ==> Live(m, cutoff)[a] == m[a]
  {
  }

  lemma LiveLive(m: Slots, early: int, late: int)
    requires early <= late
    ensures Live(Live(m, early), late) == Live(m, late)
  {
  }

  /** What pruning one address does: nothing inside the window changes, and
      that address is left with exactly its in-window accounts. */
  ghost predicate IsPruned(e: Entries, e': Entries, ip: Addr, cutoff: int) {
    && Recent(e', cutoff) == Recent(e, cutoff)
    && SlotsAt(e', ip) == SlotsAt(Recent(e, cutoff), ip)
    && (forall q :: q != ip ==> (q in e' <==> q in e) && SlotsAt(e', q) == SlotsAt(e, q))
    && (ip in e' ==> ip in e && e'[ip] != map[])
  }

  lemma PruneIsPruned(e: Entries, ip: Addr, cutoff: int)
    ensures IsPruned(e, Pruned(e, ip, cutoff), ip, cutoff)
    ensures CountOn(Recent(e, cutoff), ip) == |Live(SlotsAt(e, ip), cutoff)|
  {
    hide Live, Recent;
    RecentAt(e, cutoff, ip);
    if ip in e {
      var e' := Pruned(e, ip, cutoff);
      LiveLive(e[ip], cutoff, cutoff);
      PrunedSlots(e, ip, cutoff);
      hide Pruned;
      SameRecent(e, e', cutoff);
    } else {
      LiveNothing(cutoff);
    }
  }

  lemma PrunedSlots(e: Entries, ip: Addr, cutoff: int)
    requires ip in e
    ensures SlotsAt(Pruned(e, ip, cutoff), ip) == Live(e[ip], cutoff)
    ensures forall q :: q != ip ==> (q in Pruned(e, ip, cutoff) <==> q in e) && SlotsAt(Pruned(e, ip, cutoff), q) == SlotsAt(e, q)
    ensures ip in Pruned(e, ip, cutoff) ==> Pruned(e, ip, cutoff)[ip] != map[]
  {
    hide Live;
  }

  lemma AbsentCounts(e: Entries, cutoff: int)
    ensures forall ip :: ip !in e ==> CountOn(Recent(e, cutoff), ip) == 0
  {
  }

  /** Stores with the same in-window accounts at every address. */
  lemma SameRecent(e: Entries, e': Entries, cutoff: int)
    requires forall q :: Live(SlotsAt(e', q), cutoff) == Live(SlotsAt(e, q), cutoff)
    ensures Recent(e', cutoff) == Recent(e, cutoff)
  {
    hide Live;
    var r, r' := Recent(e, cutoff), Recent(e', cutoff);
    assert Live(map[], cutoff) == map[] by { LiveNothing(cutoff); }
    forall q: Addr ensures (q in r <==> q in r') && (q in r ==> r[q] == r'[q]) {
      assert Live(SlotsAt(e', q), cutoff) == Live(SlotsAt(e, q), cutoff);
    }
  }

  lemma LiveNothing(cutoff: int)
    ensures Live(map[], cutoff) == map[]
  {
  }

  /** Recording an activity in a store whose slots for the address were just
      pruned records it in the window. */
  lemma SeenRecent(e: Entries, ip: Addr, account: Account, nowNs: int, viaFallback: bool, cutoff: int)
    requires nowNs > cutoff
    requires SlotsAt(e, ip) == SlotsAt(Recent(e, cutoff), ip)
    ensures Recent(Seen(e, ip, account, nowNs, viaFallback), cutoff)
         == Seen(Recent(e, cutoff), ip, account, nowNs, viaFallback)
  {
    var entry := SeenAs(e, ip, account, nowNs, viaFallback);
    RecentAt(e, cutoff, ip);
    LiveAt(SlotsAt(e, ip), cutoff);
    hide Recent, Live, Seen;
    SeenIs(e, ip, account, nowNs, viaFallback);
    SeenIs(Recent(e, cutoff), ip, account, nowNs, viaFallback);
    PutRecent(e, ip, account, entry, cutoff);
  }

  lemma TouchRecent(e: Entries, ip: Addr, account: Account, atNs: int, cutoff: int)
    requires atNs > cutoff
    ensures Recent(Touched(e, ip, account, atNs, false), cutoff)
         == Touched(Recent(e, cutoff), ip, account, atNs, LingeringMark(e, ip, account))
  {
    if !Anonymous(ip, account) {
      var mark := LingeringMark(e, ip, account);
      RecentAt(e, cutoff, ip);
      SeenEntry(e, ip, account, atNs, cutoff);
      hide Recent, Live, Seen;
      SeenIs(e, ip, account, atNs, false);
      SeenIs(Recent(e, cutoff), ip, account, atNs, mark);
      PutRecent(e, ip, account, SeenAs(e, ip, account, atNs, false), cutoff);
    }
  }

  /** The entry an activity leaves. */
  function SeenAs(e: Entries, ip: Addr, account: Account, nowNs: int, viaFallback: bool): WindowEntry {
    if Counted(e, ip, account) then e[ip][account].(lastSeenNs := nowNs) else WindowEntry(nowNs, viaFallback)
  }

  lemma SeenIs(e: Entries, ip: Addr, account: Account, nowNs: int, viaFallback: bool)
    ensures Seen(e, ip, account, nowNs, viaFallback) == Put(e, ip, account, SeenAs(e, ip, account, nowNs, viaFallback))
  {
  }

  lemma SeenEntry(e: Entries, ip: Addr, account: Account, atNs: int, cutoff: int)
    ensures SeenAs(e, ip, account, atNs, false) == SeenAs(Recent(e, cutoff), ip, account, atNs, LingeringMark(e, ip, account))
  {
    RecentAt(e, cutoff, ip);
    LiveAt(SlotsAt(e, ip), cutoff);
    hide Recent, Live;
  }

  lemma PutRecent(e: Entries, ip: Addr, account: Account, entry: WindowEntry, cutoff: int)
    requires entry.lastSeenNs > cutoff
    ensures Recent(Put(e, ip, account, entry), cutoff) == Put(Recent(e, cutoff), ip, account, entry)
  {
    var m := SlotsAt(e, ip);
    var e' := Put(e, ip, account, entry);
    RecentAt(e, cutoff, ip);
    LivePut(m, account, entry, cutoff);
    hide Live;
    var r, s := Recent(e', cutoff), Put(Recent(e, cutoff), ip, account, entry);
    forall q: Addr ensures (q in r <==> q in s) && (q in r ==> r[q] == s[q]) {
    }
  }

  lemma LivePut(m: Slots, account: Account, entry: WindowEntry, cutoff: int)
    requires entry.lastSeenNs > cutoff
    ensures Live(m[account := entry], cutoff) == Live(m, cutoff)[account := entry]
    ensures Live(m[account := entry], cutoff) != map[]
  {
    assert account in Live(m[account := entry], cutoff);
  }

  /** Read later, the window has only lost its expired entries, whatever was
      or was not pruned in between. */
  lemma {:induction false} RecentSlides(e: Entries, early: int, late: int)
    requires early <= late
    ensures Recent(e, late) == Recent(Recent(e, early), late)
  {
    forall ip | ip in e ensures Live(Live(e[ip], early), late) == Live(e[ip], late) {
      LiveLive(e[ip], early, late);
    }
    forall ip | ip in e && Live(e[ip], early) == map[] ensures Live(e[ip], late) == map[] {
      assert Live(map[], late) == map[];
    }
  }

  /** A scan with the accounts of todo still to come: expired ones seen so far
      are gone, and count says how many were kept. */
  ghost predicate Scanned(slots: Slots, m: Slots, count: nat, todo: set<Account>, cutoff: int) {
    ScannedFor(slots, m, count, todo, Live(slots, cutoff).Keys)
  }

  ghost predicate ScannedFor(slots: Slots, m: Slots, count: nat, todo: set<Account>, kept: set<Account>) {
    && todo <= slots.Keys
    && m.Keys == todo + kept
    && (forall a :: a in m ==> a in slots && m[a] == slots[a])
    && count == |kept - todo|
  }

  lemma ScanDrops(slots: Slots, m: Slots, count: nat, todo: set<Account>, cutoff: int, acc: Account)
    requires Scanned(slots, m, count, todo, cutoff) && acc in todo && slots[acc].lastSeenNs <= cutoff
    ensures Scanned(slots, m - {acc}, count, todo - {acc}, cutoff)
  {
    var kept := Live(slots, cutoff).Keys;
    assert acc !in kept;
    hide Live, ScannedFor;
    DropScanned(slots, m, count, todo, kept, acc);
  }

  lemma DropScanned(slots: Slots, m: Slots, count: nat, todo: set<Account>, kept: set<Account>, acc: Account)
    requires ScannedFor(slots, m, count, todo, kept) && acc in todo && acc !in kept
    ensures ScannedFor(slots, m - {acc}, count, todo - {acc}, kept)
  {
    DropSets(m.Keys, kept, todo, acc);
    assert (m - {acc}).Keys == m.Keys - {acc};
  }

  lemma DropSets(keys: set<Account>, kept: set<Account>, todo: set<Account>, acc: Account)
    requires keys == todo + kept && acc in todo && acc !in kept
    ensures keys - {acc} == (todo - {acc}) + kept && kept - (todo - {acc}) == kept - todo
  {
  }

  lemma ScanKeeps(slots: Slots, m: Slots, count: nat, todo: set<Account>, cutoff: int, acc: Account)
    requires Scanned(slots, m, count, todo, cutoff) && acc in todo && slots[acc].lastSeenNs > cutoff
    ensures Scanned(slots, m, count + 1, todo - {acc}, cutoff)
  {
    var kept := Live(slots, cutoff).Keys;
    assert acc in kept;
    hide Live;
    assert kept - (todo - {acc}) == (kept - todo) + {acc};
  }

  lemma ScanStart(slots: Slots, cutoff: int)
    ensures Scanned(slots, slots, 0, slots.Keys, cutoff)
  {
    assert Live(slots, cutoff).Keys - slots.Keys == {};
  }

  lemma ScanEnd(slots: Slots, m: Slots, count: nat, cutoff: int)
    requires Scanned(slots, m, count, {}, cutoff)
    ensures m == Live(slots, cutoff) && count == |m|
  {
    LiveAt(slots, cutoff);
    hide Live;
    assert Live(slots, cutoff).Keys - {} == m.Keys;
  }

  /** The scan of one address' accounts: expired ones go, the others count. */
  method DropExpired(slots: Slots, cutoff: int) returns (m: Slots, count: nat)
    ensures m == Live(slots, cutoff)
    ensures count == |m|
  {
    m, count := slots, 0;
    ScanStart(slots, cutoff);
    var todo := slots.Keys;
    while todo != {}
      invariant Scanned(slots, m, count, todo, cutoff)
      decreases todo
    {
      var acc :| acc in todo;
      assert acc in m && m[acc] == slots[acc];
      hide Scanned;
      if m[acc].lastSeenNs <= cutoff {
        ScanDrops(slots, m, count, todo, cutoff, acc);
        m := m - {acc};
      } else {
        ScanKeeps(slots, m, count, todo, cutoff, acc);
        count := count + 1;
      }
      todo := todo - {acc};
    }
    ScanEnd(slots, m, count, cutoff);
  }

  class IPAccountWindow {
    var entries: Entries
    var blockedTotal: int
    var fallbackTotal: int

    constructor ()
      ensures entries == map[] && blockedTotal == 0 && fallbackTotal == 0
    {
      entries, blockedTotal, fallbackTotal := map[], 0, 0;
    }

    /** Records an activity.  An entry still stored keeps its fallback mark,
        even one that slid out and was not pruned yet. */
    method Touch(ip: Addr, account: Account, nowNs: int)
      modifies `entries
      ensures entries == Touched(old(entries), ip, account, nowNs, false)
    {
      if !ip.IsValid() || account == NoAccount {
        return;
      }
      TouchLocked(ip, account, nowNs);
    }

    method TouchLocked(ip: Addr, account: Account, nowNs: int)
      modifies `entries
      ensures entries == Seen(old(entries), ip, account, nowNs, false)
    {
      var m := if ip in entries then entries[ip] else map[];
      var e := if account in m then m[account].(lastSeenNs := nowNs) else WindowEntry(nowNs, false);
      entries := entries[ip := m[account := e]];
    }

    method InsertLocked(ip: Addr, account: Account, nowNs: int, viaFallback: bool)
      modifies `entries
      ensures entries == Put(old(entries), ip, account, WindowEntry(nowNs, viaFallback))
    {
      var m := if ip in entries then entries[ip] else map[];
      entries := entries[ip := m[account := WindowEntry(nowNs, viaFallback)]];
    }

    /** Prunes one address while counting it. */
    method CountLocked(ip: Addr, nowNs: int, windowNs: int) returns (count: nat)
      modifies `entries
      ensures IsPruned(old(entries), entries, ip, nowNs - windowNs)
      ensures count == CountOn(Recent(old(entries), nowNs - windowNs), ip)
    {
      hide Recent, Live, IsPruned;
      PruneIsPruned(entries, ip, nowNs - windowNs);
      if ip !in entries {
        AbsentCounts(entries, nowNs - windowNs);
        return 0;
      }
      var m;
      m, count := DropExpired(entries[ip], nowNs - windowNs);
      assert |m| == 0 <==> m == map[];
      entries := if |m| == 0 then entries - {ip} else entries[ip := m];
    }

    /** Every address that has in-window accounts, with their number. */
    method CountsByIP(nowNs: int, windowNs: int) returns (out: map<Addr, nat>)
      modifies `entries
      ensures Recent(entries, nowNs - windowNs) == Recent(old(entries), nowNs - windowNs)
      ensures forall ip :: (if ip in out then out[ip] else 0) == CountOn(Recent(old(entries), nowNs - windowNs), ip)
    {
      hide Recent, Live;
      ghost var r := Recent(entries, nowNs - windowNs);
      AbsentCounts(entries, nowNs - windowNs);
      out := map[];
      var todo := entries.Keys;
      while todo != {}
        invariant Recent(entries, nowNs - windowNs) == r
        invariant forall ip :: ip in out ==> ip !in todo
        invariant forall ip :: ip !in todo ==> (if ip in out then out[ip] else 0) == CountOn(r, ip)
        decreases todo
      {
        var ip :| ip in todo;
        todo := todo - {ip};
        var n := CountLocked(ip, nowNs, windowNs);
        if n > 0 {
          out := out[ip := n];
        }
      }
    }

    method ReserveIfEligible(ip: Addr, account: Account, nowNs: int, windowNs: int, max: int) returns (ok: bool)
      requires windowNs > 0
      modifies this
      ensures var w := Recent(old(entries), nowNs - windowNs);
              var r := Reserve(w, ip, account, nowNs, max);
              ok == r.Some? && Recent(entries, nowNs - windowNs) == (if ok then r.value else w)
      ensures blockedTotal == old(blockedTotal) + (if ok then 0 else 1) && fallbackTotal == old(fallbackTotal)
    {
      hide Recent, Live;
      if !ip.IsValid() || account == NoAccount || max <= 0 {
        return true;
      }
      var count := CountLocked(ip, nowNs, windowNs);
      ghost var before := entries;
      if ip in entries && account in entries[ip] {
        TouchLocked(ip, account, nowNs);
        SeenRecent(before, ip, account, nowNs, false, nowNs - windowNs);
        return true;
      }
      if count >= max {
        blockedTotal := blockedTotal + 1;
        return false;
      }
      TouchLocked(ip, account, nowNs);
      SeenRecent(before, ip, account, nowNs, false, nowNs - windowNs);
      return true;
    }

    method RefreshOnHit(ip: Addr, account: Account, nowNs: int, windowNs: int, max: int) returns (ok: bool)
      requires windowNs > 0
      modifies this
      ensures var w := Recent(old(entries), nowNs - windowNs);
              var r := Refresh(w, ip, account, nowNs, max);
              && ok == r.Some? && Recent(entries, nowNs - windowNs) == (if ok then r.value else w)
              && blockedTotal == old(blockedTotal) + (if ok then 0 else 1)
              && fallbackTotal == old(fallbackTotal) +
                 (if !Anonymous(ip, account) && max > 0 && !Counted(w, ip, account) && CountOn(w, ip) == max then 1 else 0)
    {
      hide Recent, Live;
      if !ip.IsValid() || account == NoAccount || max <= 0 {
        return true;
      }
      var count := CountLocked(ip, nowNs, windowNs);
      ghost var before := entries;
      if ip in entries && account in entries[ip] {
        var e := entries[ip][account].(lastSeenNs := nowNs);
        entries := entries[ip := entries[ip][account := e]];
        SeenRecent(before, ip, account, nowNs, false, nowNs - windowNs);
        return true;
      }
      if count >= max + 1 {
        blockedTotal := blockedTotal + 1;
        return false;
      }
      var viaFallback := count >= max;
      if viaFallback {
        fallbackTotal := fallbackTotal + 1;
      }
      InsertLocked(ip, account, nowNs, viaFallback);
      SeenRecent(before, ip, account, nowNs, viaFallback, nowNs - windowNs);
      return true;
    }

    method ReserveForcedFallback(ip: Addr, account: Account, nowNs: int, windowNs: int, max: int) returns (ok: bool)
      requires windowNs > 0
      modifies this
      ensures var w := Recent(old(entries), nowNs - windowNs);
              var r := ForceReserve(w, ip, account, nowNs, max);
              && ok == r.Some? && Recent(entries, nowNs - windowNs) == (if ok then r.value else w)
              && blockedTotal == old(blockedTotal)
              && fallbackTotal == old(fallbackTotal) +
                 (if ok && !Anonymous(ip, account) && !Counted(w, ip, account) then 1 else 0)
    {
      hide Recent, Live;
      if !ip.IsValid() || account == NoAccount {
        return true;
      }
      var count := CountLocked(ip, nowNs, windowNs);
      ghost var before := entries;
      if ip in entries && account in entries[ip] {
        TouchLocked(ip, account, nowNs);
        SeenRecent(before, ip, account, nowNs, false, nowNs - windowNs);
        return true;
      }
      if count >= max + 1 {
        return false;
      }
      InsertLocked(ip, account, nowNs, true);
      SeenRecent(before, ip, account, nowNs, true, nowNs - windowNs);
      fallbackTotal := fallbackTotal + 1;
      return true;
    }

    /** The sweep's pruning leaves exactly the in-window entries. */
    method Prune(nowNs: int, windowNs: int)
      modifies `entries
      ensures entries == Recent(old(entries), nowNs - windowNs)
    {
      hide Live;
      var cutoff := nowNs - windowNs;
      ghost var r := Recent(entries, cutoff);
      var todo := entries.Keys;
      while todo != {}
        invariant todo <= entries.Keys
        invariant Recent(entries, cutoff) == r
        invariant forall ip :: ip in entries && ip !in todo ==> ip in r && entries[ip] == r[ip]
        decreases todo
      {
        var ip :| ip in todo;
        todo := todo - {ip};
        var _ := CountLocked(ip, nowNs, windowNs);
      }
    }
  }
}
