/** The pipeline from subscriptions to pool nodes to platform views: what each
    operation does, and what every sequence of operations keeps - exact reference
    counting, and views equal to a full re-filter of the pool. */
module Topology {
  import opened Types
  import opened NodeFilter

  datatype PlatformId = PlatformId(number: int)

  datatype PlatformView = PlatformView(config: PlatformFilter, view: set<Hash>)

  /** detached: subscription objects already unregistered, which a refresh still
      in flight may hold. */
  datatype World = World(
    nodes: map<Hash, Entry>,
    reg: Registry,
    detached: Registry,
    platforms: map<PlatformId, PlatformView>)

  function NodeAt(nodes: map<Hash, Entry>, h: Hash): Option<Entry> {
    if h in nodes then Some(nodes[h]) else None
  }

  function PutNode(nodes: map<Hash, Entry>, h: Hash, e: Option<Entry>): map<Hash, Entry> {
    if e.Some? then nodes[h := e.value] else nodes - {h}
  }

  ghost predicate RoutableAt(env: Env, reg: Registry, p: PlatformFilter, h: Hash, e: Option<Entry>) {
    e.Some? && Routable(env, reg, p, h, e.value)
  }

  // ------------------------------------------------------------------
  // What happens to one entry
  // ------------------------------------------------------------------

  function WithId(ids: seq<SubId>, id: SubId): seq<SubId> {
    if id in ids then ids else ids + [id]
  }

  function WithoutId(ids: seq<SubId>, id: SubId): seq<SubId> {
    if ids == [] then [] else if ids[0] == id then ids[1..] else [ids[0]] + WithoutId(ids[1..], id)
  }

  /** A new node starts circuit-open; its outbound is built, or the error kept. */
  function AddedEntry(e: Option<Entry>, raw: int, id: SubId, built: bool): Entry {
    if e.Some? then e.value.(subIDs := WithId(e.value.subIDs, id))
    else Entry([id], raw, true, 0, NoAddr, None, false, built, !built)
  }

  function RemovedEntry(e: Option<Entry>, id: SubId): Option<Entry> {
    if e.None? then None
    else
      var ids := WithoutId(e.value.subIDs, id);
      if ids == [] then None else Some(e.value.(subIDs := ids))
  }

  datatype Change = Change(entry: Entry, notify: bool)

  function ResultChange(e: Entry, success: bool, maxFailures: int): Change {
    if success then Change(e.(failures := 0, circuitOpen := false), e.circuitOpen)
    else
      var opens := maxFailures > 0 && e.failures + 1 >= maxFailures && !e.circuitOpen;
      Change(e.(failures := e.failures + 1, circuitOpen := e.circuitOpen || opens), opens)
  }

  function LatencyChange(e: Entry, sampled: bool): Change {
    Change(e.(hasLatency := e.hasLatency || sampled), sampled && !e.hasLatency)
  }

  /** loc: an explicit region, possibly blank.  A changed address without a
      region clears the stale one. */
  function EgressChange(e: Entry, ip: Option<Addr>, loc: Option<Region>): Change {
    var ipChanged := ip.Some? && e.egressIP != ip.value;
    var region := if loc.Some? then loc.value else if ipChanged then None else e.egressRegion;
    Change(e.(egressIP := if ip.Some? then ip.value else e.egressIP, egressRegion := region),
           ipChanged || region != e.egressRegion)
  }

  predicate Unhealthy(e: Entry) {
    e.circuitOpen || (!e.hasOutbound && e.hasError)
  }

  // ------------------------------------------------------------------
  // What happens to the views
  // ------------------------------------------------------------------

  /** One notification: every platform re-evaluates the node. */
  ghost function Notified(env: Env, reg: Registry, ps: map<PlatformId, PlatformView>, h: Hash, e: Option<Entry>): map<PlatformId, PlatformView> {
    map p | p in ps ::
      ps[p].(view := if RoutableAt(env, reg, ps[p].config, h, e) then ps[p].view + {h} else ps[p].view - {h})
  }

  /** Exactly the touched nodes were re-evaluated, on every platform. */
  ghost predicate ViewsUpdated(env: Env, w: World, w': World, touched: set<Hash>) {
    && w'.platforms.Keys == w.platforms.Keys
    && forall p :: p in w.platforms ==>
         && w'.platforms[p].config == w.platforms[p].config
         && forall h :: h in w'.platforms[p].view <==>
              if h in touched then RoutableAt(env, w'.reg, w.platforms[p].config, h, NodeAt(w'.nodes, h))
              else h in w.platforms[p].view
  }

  ghost function FullView(env: Env, reg: Registry, nodes: map<Hash, Entry>, p: PlatformFilter): set<Hash> {
    set h | h in nodes && Routable(env, reg, p, h, nodes[h])
  }

  ghost function Rebuilt(env: Env, reg: Registry, nodes: map<Hash, Entry>, ps: map<PlatformId, PlatformView>): map<PlatformId, PlatformView> {
    map p | p in ps :: ps[p].(view := FullView(env, reg, nodes, ps[p].config))
  }

  ghost function SetNode(env: Env, w: World, h: Hash, e: Option<Entry>, notify: bool): World {
    w.(nodes := PutNode(w.nodes, h, e),
       platforms := if notify then Notified(env, w.reg, w.platforms, h, e) else w.platforms)
  }

  // ------------------------------------------------------------------
  // Refreshing a subscription
  // ------------------------------------------------------------------

  datatype Parsed = Parsed(tag: Tag, hash: Hash, raw: int)

  function TagsOf(parsed: seq<Parsed>, h: Hash): seq<Tag> {
    if parsed == [] then []
    else
      var last := parsed[|parsed| - 1];
      TagsOf(parsed[..|parsed| - 1], h) + (if last.hash == h then [last.tag] else [])
  }

  function RawOf(parsed: seq<Parsed>, h: Hash): int {
    if parsed == [] then 0 else if parsed[0].hash == h then parsed[0].raw else RawOf(parsed[1..], h)
  }

  function Listed(parsed: seq<Parsed>): set<Hash> {
    set p | p in parsed :: p.hash
  }

  /** What the subscription manages after the refresh: what was parsed, plus in
      incremental mode the old nodes that are evicted or still healthy; eviction
      is remembered for every hash that stays. */
  ghost function Merged(sub: Subscription, nodes: map<Hash, Entry>, parsed: seq<Parsed>): map<Hash, Managed> {
    map h | h in sub.managed.Keys + Listed(parsed) &&
            (h in Listed(parsed) || (sub.incremental && (sub.managed[h].evicted || (h in nodes && !Unhealthy(nodes[h])))))
         :: Managed(if h in Listed(parsed) then TagsOf(parsed, h) else sub.managed[h].tags,
                    h in sub.managed && sub.managed[h].evicted)
  }

  /** The raw options a node is (re-)added with. */
  function RawFor(nodes: map<Hash, Entry>, parsed: seq<Parsed>, h: Hash): int {
    if RawOf(parsed, h) != 0 then RawOf(parsed, h) else if h in nodes then nodes[h].raw else 0
  }

  function RefreshedNode(nodes: map<Hash, Entry>, sub: Subscription, merged: map<Hash, Managed>, parsed: seq<Parsed>, id: SubId, built: set<Hash>, h: Hash): Option<Entry> {
    if h in merged then
      if merged[h].evicted || RawFor(nodes, parsed, h) == 0 then NodeAt(nodes, h)
      else Some(AddedEntry(NodeAt(nodes, h), RawFor(nodes, parsed, h), id, h in built))
    else if h in sub.managed then RemovedEntry(NodeAt(nodes, h), id)
    else NodeAt(nodes, h)
  }

  function RefreshTouches(nodes: map<Hash, Entry>, sub: Subscription, merged: map<Hash, Managed>, parsed: seq<Parsed>): set<Hash> {
    set h | h in merged.Keys + sub.managed.Keys &&
            (h in merged ==> !merged[h].evicted && RawFor(nodes, parsed, h) != 0)
  }

  function SubOf(w: World, id: SubId): Option<Subscription> {
    if id in w.reg then Some(w.reg[id]) else if id in w.detached then Some(w.detached[id]) else None
  }

  function PutSub(w: World, id: SubId, sub: Subscription): World {
    if id in w.reg then w.(reg := w.reg[id := sub]) else w.(detached := w.detached[id := sub])
  }

  predicate Discards(sub: Subscription, a: Attempt) {
    sub.configVersion != a.version || sub.lastAppliedSeq > a.seqNo
  }

  ghost predicate RefreshMoves(env: Env, w: World, w': World, id: SubId, a: Attempt, parsed: seq<Parsed>, built: set<Hash>)
    requires SubOf(w, id).Some?
  {
    var sub := SubOf(w, id).value;
    if Discards(sub, a) then w' == PutSub(w, id, sub.(inFlight := sub.inFlight - {a}))
    else
      var merged := Merged(sub, w.nodes, parsed);
      var w1 := PutSub(w, id, sub.(managed := merged, lastAppliedSeq := a.seqNo, inFlight := sub.inFlight - {a}));
      && w'.reg == w1.reg && w'.detached == w1.detached
      && (forall h :: NodeAt(w'.nodes, h) == RefreshedNode(w.nodes, sub, merged, parsed, id, built, h))
      && ViewsUpdated(env, w, w', RefreshTouches(w.nodes, sub, merged, parsed))
  }

  // ------------------------------------------------------------------
  // The other subscription operations
  // ------------------------------------------------------------------

  function HeldInPool(sub: Subscription, nodes: map<Hash, Entry>): set<Hash> {
    set h | h in sub.managed && !sub.managed[h].evicted && h in nodes
  }

  ghost predicate RenameMoves(env: Env, w: World, w': World, id: SubId, name: Name)
    requires id in w.reg
  {
    var sub := w.reg[id];
    && w'.reg == w.reg[id := sub.(name := name)] && w'.detached == w.detached
    && (forall h :: NodeAt(w'.nodes, h) ==
                      if h in HeldInPool(sub, w.nodes) then Some(AddedEntry(NodeAt(w.nodes, h), 0, id, true)) else NodeAt(w.nodes, h))
    && ViewsUpdated(env, w, w', HeldInPool(sub, w.nodes))
  }

  /** Both scans found the node, in the pool, fit for removal. */
  function Confirmed(sub: Subscription, nodes: map<Hash, Entry>, first: set<Hash>, second: set<Hash>): set<Hash> {
    HeldInPool(sub, nodes) * first * second
  }

  ghost predicate EvictMoves(env: Env, w: World, w': World, id: SubId, first: set<Hash>, second: set<Hash>)
    requires id in w.reg
  {
    var sub := w.reg[id];
    var gone := Confirmed(sub, w.nodes, first, second);
    && w'.reg == w.reg[id := sub.(managed := map h | h in sub.managed :: if h in gone then sub.managed[h].(evicted := true) else sub.managed[h])]
    && w'.detached == w.detached
    && (forall h :: NodeAt(w'.nodes, h) == if h in gone then RemovedEntry(NodeAt(w.nodes, h), id) else NodeAt(w.nodes, h))
    && ViewsUpdated(env, w, w', gone)
  }

  ghost predicate UnregisterMoves(env: Env, w: World, w': World, id: SubId)
    requires id in w.reg
  {
    var sub := w.reg[id];
    && w'.reg == w.reg - {id} && w'.detached == w.detached[id := sub]
    && (forall h :: NodeAt(w'.nodes, h) == if h in sub.managed then RemovedEntry(NodeAt(w.nodes, h), id) else NodeAt(w.nodes, h))
    && ViewsUpdated(env, w, w', sub.managed.Keys)
  }

  // ------------------------------------------------------------------
  // Enabling and disabling
  // ------------------------------------------------------------------

  function EnabledReg(reg: Registry, id: SubId, enabled: bool): Registry
    requires id in reg
  {
    reg[id := reg[id].(enabled := enabled)]
  }

  predicate EnabledHeld(reg: Registry, ids: seq<SubId>, h: Hash) {
    exists id :: id in ids && HoldsEnabled(reg, id, h)
  }

  /** An attempt to build the outbound of a node that has none. */
  function Ensured(e: Entry, built: bool): Entry {
    if e.hasOutbound then e else if built then e.(hasOutbound := true) else e.(hasError := true)
  }

  /** The held pool nodes that were disabled and now are not: re-enabling checks
      their outbounds, after the views were rebuilt. */
  function Rechecked(w: World, id: SubId, enabled: bool): set<Hash>
    requires id in w.reg
  {
    if w.reg[id].enabled || !enabled then {}
    else set h | h in HeldInPool(w.reg[id], w.nodes) &&
                 !EnabledHeld(w.reg, w.nodes[h].subIDs, h) && EnabledHeld(EnabledReg(w.reg, id, enabled), w.nodes[h].subIDs, h)
  }

  ghost predicate SetEnabledMoves(env: Env, w: World, w': World, id: SubId, enabled: bool, built: set<Hash>)
    requires id in w.reg
  {
    && w'.reg == EnabledReg(w.reg, id, enabled) && w'.detached == w.detached
    && w'.platforms == Rebuilt(env, w'.reg, w.nodes, w.platforms)
    && forall h :: NodeAt(w'.nodes, h) ==
                     if h in Rechecked(w, id, enabled) then Some(Ensured(w.nodes[h], h in built)) else NodeAt(w.nodes, h)
  }

  // ------------------------------------------------------------------
  // Every operation
  // ------------------------------------------------------------------

  datatype Step =
    | Result(h: Hash, success: bool, maxFailures: int)
    | Latency(h: Hash, sampled: bool)
    | Egress(h: Hash, ip: Option<Addr>, loc: Option<Region>)
    | Register(id: SubId, name: Name, enabled: bool, incremental: bool)
    | BeginRefresh(id: SubId)
    | Refresh(id: SubId, attempt: Attempt, parsed: seq<Parsed>, built: set<Hash>)
    | FailRefresh(id: SubId, attempt: Attempt)
    | Reconfigure(id: SubId, incremental: bool, refetch: bool)
    | Rename(id: SubId, name: Name)
    | SetEnabled(id: SubId, enabled: bool, built: set<Hash>)
    | Evict(id: SubId, first: set<Hash>, second: set<Hash>)
    | Unregister(id: SubId)
    | AddPlatform(p: PlatformId, config: PlatformFilter)
    | ReplacePlatform(p: PlatformId, config: PlatformFilter)
    | DropPlatform(p: PlatformId)
    | RebuildAll

  ghost predicate Moves(env: Env, w: World, w': World, step: Step) {
    match step
    case Result(h, ok, max) =>
      w' == if h in w.nodes then var c := ResultChange(w.nodes[h], ok, max); SetNode(env, w, h, Some(c.entry), c.notify) else w
    case Latency(h, sampled) =>
      w' == if h in w.nodes then var c := LatencyChange(w.nodes[h], sampled); SetNode(env, w, h, Some(c.entry), c.notify) else w
    case Egress(h, ip, loc) =>
      w' == if h in w.nodes then var c := EgressChange(w.nodes[h], ip, loc); SetNode(env, w, h, Some(c.entry), c.notify) else w
    case Register(id, name, enabled, incremental) =>
      && id !in w.reg && id !in w.detached
      && w' == w.(reg := w.reg[id := Subscription(name, enabled, incremental, map[], 1, 0, 0, {})])
    case BeginRefresh(id) =>
      && SubOf(w, id).Some?
      && var sub := SubOf(w, id).value;
         w' == PutSub(w, id, sub.(attemptSeq := sub.attemptSeq + 1,
                                  inFlight := sub.inFlight + {Attempt(sub.attemptSeq + 1, sub.configVersion)}))
    case Refresh(id, a, parsed, built) =>
      && SubOf(w, id).Some? && a in SubOf(w, id).value.inFlight
      && (forall i :: 0 <= i < |parsed| ==> parsed[i].raw != 0)
      && RefreshMoves(env, w, w', id, a, parsed, built)
    case FailRefresh(id, a) =>
      && SubOf(w, id).Some? && a in SubOf(w, id).value.inFlight
      && w' == PutSub(w, id, SubOf(w, id).value.(inFlight := SubOf(w, id).value.inFlight - {a}))
    case Reconfigure(id, incremental, refetch) =>
      && id in w.reg
      && w' == w.(reg := w.reg[id := w.reg[id].(incremental := incremental,
                                               configVersion := w.reg[id].configVersion + (if refetch then 1 else 0))])
    case Rename(id, name) => id in w.reg && RenameMoves(env, w, w', id, name)
    case SetEnabled(id, enabled, built) => id in w.reg && SetEnabledMoves(env, w, w', id, enabled, built)
    case Evict(id, first, second) => id in w.reg && EvictMoves(env, w, w', id, first, second)
    case Unregister(id) => id in w.reg && UnregisterMoves(env, w, w', id)
    case AddPlatform(p, config) =>
      w' == if p in w.platforms then w
            else w.(platforms := w.platforms[p := PlatformView(config, FullView(env, w.reg, w.nodes, config))])
    case ReplacePlatform(p, config) =>
      w' == if p !in w.platforms then w
            else w.(platforms := w.platforms[p := PlatformView(config, FullView(env, w.reg, w.nodes, config))])
    case DropPlatform(p) => w' == w.(platforms := w.platforms - {p})
    case RebuildAll => w' == w.(platforms := Rebuilt(env, w.reg, w.nodes, w.platforms))
  }

  // ------------------------------------------------------------------
  // Views are exact
  // ------------------------------------------------------------------

  /** Each platform's view is exactly the pool nodes its filter admits. */
  ghost predicate ViewsExact(env: Env, w: World) {
    forall p :: p in w.platforms ==>
      forall h :: h in w.platforms[p].view <==> RoutableAt(env, w.reg, w.platforms[p].config, h, NodeAt(w.nodes, h))
  }

  predicate SameHold(reg: Registry, reg': Registry, id: SubId, h: Hash) {
    && (Holds(reg, id, h) <==> Holds(reg', id, h))
    && (Holds(reg, id, h) ==>
          && reg[id].name == reg'[id].name && reg[id].enabled == reg'[id].enabled
          && reg[id].managed[h].tags == reg'[id].managed[h].tags)
  }

  /** Eligibility only depends on the subscriptions the entry refers to. */
  lemma SameRoutable(env: Env, reg: Registry, reg': Registry, p: PlatformFilter, h: Hash, e: Entry)
    requires forall id :: id in e.subIDs ==> SameHold(reg, reg', id, h)
    ensures Routable(env, reg, p, h, e) <==> Routable(env, reg', p, h, e)
  {
    forall name, tag ensures Candidate(reg, e.subIDs, h, name, tag) <==> Candidate(reg', e.subIDs, h, name, tag) {
      hide Holds;
      if Candidate(reg, e.subIDs, h, name, tag) {
        var id :| id in e.subIDs && HoldsEnabled(reg, id, h) && reg[id].name == name && tag in reg[id].managed[h].tags;
        assert SameHold(reg, reg', id, h);
        assert HoldsEnabled(reg', id, h);
      }
      if Candidate(reg', e.subIDs, h, name, tag) {
        var id :| id in e.subIDs && HoldsEnabled(reg', id, h) && reg'[id].name == name && tag in reg'[id].managed[h].tags;
        assert SameHold(reg, reg', id, h);
        assert HoldsEnabled(reg, id, h);
      }
    }
    assert (exists id :: id in e.subIDs && HoldsEnabled(reg, id, h)) <==> (exists id :: id in e.subIDs && HoldsEnabled(reg', id, h)) by {
      forall id | id in e.subIDs ensures HoldsEnabled(reg, id, h) <==> HoldsEnabled(reg', id, h) {
        assert SameHold(reg, reg', id, h);
      }
    }
    hide Candidate, HoldsEnabled, RegionPasses, Positive, MatchesAny;
  }

  /** A node that was not re-evaluated must not have changed its eligibility. */
  ghost predicate Untouched(w: World, w': World, h: Hash) {
    && NodeAt(w'.nodes, h) == NodeAt(w.nodes, h)
    && (h in w.nodes ==> forall id :: id in w.nodes[h].subIDs ==> SameHold(w.reg, w'.reg, id, h))
  }

  lemma UpdatedExact(env: Env, w: World, w': World, touched: set<Hash>)
    requires ViewsExact(env, w) && ViewsUpdated(env, w, w', touched)
    requires forall h :: h !in touched ==> Untouched(w, w', h)
    ensures ViewsExact(env, w')
  {
    forall p, h | p in w'.platforms
      ensures h in w'.platforms[p].view <==> RoutableAt(env, w'.reg, w'.platforms[p].config, h, NodeAt(w'.nodes, h))
    {
      hide Routable;
      if h !in touched {
        assert Untouched(w, w', h);
        if h in w.nodes {
          SameRoutable(env, w.reg, w'.reg, w.platforms[p].config, h, w.nodes[h]);
        }
      }
    }
  }

  lemma NotifiedUpdates(env: Env, w: World, h: Hash, e: Option<Entry>)
    ensures ViewsUpdated(env, w, SetNode(env, w, h, e, true), {h})
  {
    hide Routable;
  }

  lemma SetNodeExact(env: Env, w: World, h: Hash, c: Change)
    requires ViewsExact(env, w) && h in w.nodes && c.entry.subIDs == w.nodes[h].subIDs
    requires !c.notify ==>
               && c.entry.circuitOpen == w.nodes[h].circuitOpen && c.entry.hasOutbound == w.nodes[h].hasOutbound
               && c.entry.egressIP == w.nodes[h].egressIP && c.entry.egressRegion == w.nodes[h].egressRegion
               && c.entry.hasLatency == w.nodes[h].hasLatency
    ensures ViewsExact(env, SetNode(env, w, h, Some(c.entry), c.notify))
  {
    var w' := SetNode(env, w, h, Some(c.entry), c.notify);
    if c.notify {
      NotifiedUpdates(env, w, h, Some(c.entry));
      hide ViewsUpdated, ViewsExact;
      forall g | g !in {h} ensures Untouched(w, w', g) {
      }
      UpdatedExact(env, w, w', {h});
    } else {
      SilentExact(env, w, h, c.entry);
    }
  }

  /** Nothing the filter looks at has changed. */
  lemma SilentExact(env: Env, w: World, h: Hash, e: Entry)
    requires ViewsExact(env, w) && h in w.nodes && e.subIDs == w.nodes[h].subIDs
    requires e.circuitOpen == w.nodes[h].circuitOpen && e.hasOutbound == w.nodes[h].hasOutbound
    requires e.egressIP == w.nodes[h].egressIP && e.egressRegion == w.nodes[h].egressRegion && e.hasLatency == w.nodes[h].hasLatency
    ensures ViewsExact(env, SetNode(env, w, h, Some(e), false))
  {
    var w' := SetNode(env, w, h, Some(e), false);
    forall p, g | p in w'.platforms
      ensures g in w'.platforms[p].view <==> RoutableAt(env, w'.reg, w'.platforms[p].config, g, NodeAt(w'.nodes, g))
    {
      assert g in w.platforms[p].view <==> RoutableAt(env, w.reg, w.platforms[p].config, g, NodeAt(w.nodes, g));
      hide ViewsExact;
      SameFactsRoutable(env, w.reg, w.platforms[p].config, h, w.nodes[h], e);
      hide Routable;
    }
  }

  lemma SameFactsRoutable(env: Env, reg: Registry, p: PlatformFilter, h: Hash, e: Entry, e': Entry)
    requires e'.subIDs == e.subIDs && e'.circuitOpen == e.circuitOpen && e'.hasOutbound == e.hasOutbound
    requires e'.egressIP == e.egressIP && e'.egressRegion == e.egressRegion && e'.hasLatency == e.hasLatency
    ensures Routable(env, reg, p, h, e') <==> Routable(env, reg, p, h, e)
  {
    hide TagsPass, RegionPasses, HoldsEnabled;
  }
}
