/** What every sequence of pool and subscription operations keeps. */
module TopologyRuns {
  import opened Types
  import opened FiniteSets
  import opened NodeFilter
  import opened Topology

  // ------------------------------------------------------------------
  // Exact reference counting
  // ------------------------------------------------------------------

  /** The node is in the pool exactly when some registered subscription holds it,
      and its entry names exactly those. */
  ghost predicate RefsExactAt(w: World, h: Hash) {
    match NodeAt(w.nodes, h)
    case None => forall id :: !Holds(w.reg, id, h)
    case Some(e) => Distinct(e.subIDs) && e.subIDs != [] && e.raw != 0 && forall id :: id in e.subIDs <==> Holds(w.reg, id, h)
  }

  ghost predicate RefsExact(w: World) {
    forall h :: RefsExactAt(w, h)
  }

  /** Attempts in flight carry distinct numbers, none of them applied already. */
  predicate AttemptsFit(sub: Subscription) {
    && sub.lastAppliedSeq <= sub.attemptSeq
    && (forall a :: a in sub.inFlight ==> a.seqNo <= sub.attemptSeq && a.seqNo != sub.lastAppliedSeq)
    && (forall a, b :: a in sub.inFlight && b in sub.inFlight && a.seqNo == b.seqNo ==> a == b)
  }

  ghost predicate SubsFit(w: World) {
    && w.reg.Keys !! w.detached.Keys
    && (forall id :: id in w.reg ==> AttemptsFit(w.reg[id]))
    && (forall id :: id in w.detached ==> AttemptsFit(w.detached[id]))
  }

  ghost predicate Inv(env: Env, w: World) {
    RefsExact(w) && ViewsExact(env, w) && SubsFit(w)
  }

  lemma {:induction false} WithoutIdExact(ids: seq<SubId>, id: SubId)
    requires Distinct(ids)
    ensures Distinct(WithoutId(ids, id))
    ensures forall x :: x in WithoutId(ids, id) <==> x in ids && x != id
    decreases ids
  {
    if ids != [] {
      if ids[0] != id {
        WithoutIdExact(ids[1..], id);
        var rest := WithoutId(ids[1..], id);
        assert forall x :: x in ids <==> x == ids[0] || x in ids[1..];
        assert forall x :: x in [ids[0]] + rest <==> x == ids[0] || x in rest;
        assert ids[0] !in ids[1..];
      } else {
        assert forall x :: x in ids <==> x == ids[0] || x in ids[1..];
        assert ids[0] !in ids[1..];
      }
    }
  }

  lemma WithIdExact(ids: seq<SubId>, id: SubId)
    requires Distinct(ids)
    ensures Distinct(WithId(ids, id))
    ensures forall x :: x in WithId(ids, id) <==> x in ids || x == id
  {
  }

  lemma {:induction false} WithoutAbsent(ids: seq<SubId>, id: SubId)
    requires id !in ids
    ensures WithoutId(ids, id) == ids
  {
    if ids != [] {
      WithoutAbsent(ids[1..], id);
    }
  }

  /** Adding a reference for a subscription that has come to hold the node. */
  lemma AddKeepsRefs(w: World, w': World, h: Hash, id: SubId, raw: int, built: bool)
    requires RefsExactAt(w, h) && Holds(w'.reg, id, h) && (NodeAt(w.nodes, h).None? ==> raw != 0)
    requires forall x :: x != id ==> (Holds(w'.reg, x, h) <==> Holds(w.reg, x, h))
    requires NodeAt(w'.nodes, h) == Some(AddedEntry(NodeAt(w.nodes, h), raw, id, built))
    ensures RefsExactAt(w', h)
  {
    hide Holds;
    if NodeAt(w.nodes, h).Some? {
      WithIdExact(w.nodes[h].subIDs, id);
    }
  }

  /** Dropping the reference of a subscription that no longer holds the node. */
  lemma RemoveKeepsRefs(w: World, w': World, h: Hash, id: SubId)
    requires RefsExactAt(w, h) && !Holds(w'.reg, id, h)
    requires forall x :: x != id ==> (Holds(w'.reg, x, h) <==> Holds(w.reg, x, h))
    requires NodeAt(w'.nodes, h) == RemovedEntry(NodeAt(w.nodes, h), id)
    ensures RefsExactAt(w', h)
  {
    hide Holds;
    if NodeAt(w.nodes, h).Some? {
      var ids := w.nodes[h].subIDs;
      WithoutIdExact(ids, id);
      if WithoutId(ids, id) == [] {
        forall x ensures !Holds(w'.reg, x, h) {
          assert x !in WithoutId(ids, id);
        }
      }
    }
  }

  /** Nothing about the node or its holders changed. */
  lemma SameKeepsRefs(w: World, w': World, h: Hash)
    requires RefsExactAt(w, h) && NodeAt(w'.nodes, h) == NodeAt(w.nodes, h)
    requires forall x :: Holds(w'.reg, x, h) <==> Holds(w.reg, x, h)
    ensures RefsExactAt(w', h)
  {
    hide Holds;
  }

  // ------------------------------------------------------------------
  // A refresh
  // ------------------------------------------------------------------

  lemma {:induction false} RawOfListed(parsed: seq<Parsed>, h: Hash)
    requires forall i :: 0 <= i < |parsed| ==> parsed[i].raw != 0
    ensures RawOf(parsed, h) != 0 <==> h in Listed(parsed)
  {
    if parsed != [] {
      RawOfListed(parsed[1..], h);
      assert parsed == [parsed[0]] + parsed[1..];
      if h in Listed(parsed) {
        var p :| p in parsed && p.hash == h;
      } else {
        assert parsed[0] in parsed;
        forall p | p in parsed[1..] ensures p.hash != h {
          assert p in parsed;
        }
      }
      if h in Listed(parsed[1..]) {
        var p :| p in parsed[1..] && p.hash == h;
        assert p in parsed;
      }
    }
  }

  /** A hash that stays managed and not evicted has raw options to be added with. */
  lemma RefreshHasRaw(w: World, id: SubId, parsed: seq<Parsed>, h: Hash)
    requires RefsExactAt(w, h) && SubOf(w, id).Some?
    requires forall i :: 0 <= i < |parsed| ==> parsed[i].raw != 0
    requires var m := Merged(SubOf(w, id).value, w.nodes, parsed); h in m && !m[h].evicted
    ensures RawFor(w.nodes, parsed, h) != 0
  {
    RawOfListed(parsed, h);
  }

  /** What an applied refresh changes about one hash. */
  lemma RefreshAt(env: Env, w: World, w': World, id: SubId, a: Attempt, parsed: seq<Parsed>, built: set<Hash>, h: Hash)
    requires id in w.reg && RefreshMoves(env, w, w', id, a, parsed, built) && !Discards(w.reg[id], a)
    ensures var sub := w.reg[id];
            var merged := Merged(sub, w.nodes, parsed);
            && NodeAt(w'.nodes, h) == RefreshedNode(w.nodes, sub, merged, parsed, id, built, h)
            && (forall x :: x != id ==> (Holds(w'.reg, x, h) <==> Holds(w.reg, x, h)))
            && (Holds(w'.reg, id, h) <==> h in merged && !merged[h].evicted)
  {
    hide ViewsUpdated, Merged, RefreshedNode, RefreshTouches;
  }

  lemma RefreshRefs(env: Env, w: World, w': World, id: SubId, a: Attempt, parsed: seq<Parsed>, built: set<Hash>, h: Hash)
    requires id in w.reg && RefsExactAt(w, h) && RefreshMoves(env, w, w', id, a, parsed, built)
    requires forall i :: 0 <= i < |parsed| ==> parsed[i].raw != 0
    ensures RefsExactAt(w', h)
  {
    hide ViewsUpdated, RefsExactAt, Merged, RawFor, RemovedEntry, AddedEntry, RefreshTouches;
    var sub := w.reg[id];
    if Discards(sub, a) {
      SameKeepsRefs(w, w', h);
      return;
    }
    RefreshAt(env, w, w', id, a, parsed, built, h);
    hide RefreshMoves;
    EvictedWasEvicted(sub, w.nodes, parsed, h);
    var merged := Merged(sub, w.nodes, parsed);
    if h in merged && !merged[h].evicted {
      RefreshHasRaw(w, id, parsed, h);
      hide Holds;
      AddKeepsRefs(w, w', h, id, RawFor(w.nodes, parsed, h), h in built);
    } else if h !in merged && h in sub.managed {
      hide Holds;
      RemoveKeepsRefs(w, w', h, id);
    } else {
      SameKeepsRefs(w, w', h);
    }
  }

  lemma EvictedWasEvicted(sub: Subscription, nodes: map<Hash, Entry>, parsed: seq<Parsed>, h: Hash)
    ensures var m := Merged(sub, nodes, parsed);
            h in m && m[h].evicted ==> h in sub.managed && sub.managed[h].evicted
  {
  }

  lemma RefreshViews(env: Env, w: World, w': World, id: SubId, a: Attempt, parsed: seq<Parsed>, built: set<Hash>)
    requires SubOf(w, id).Some? && RefreshMoves(env, w, w', id, a, parsed, built)
    requires RefsExact(w) && ViewsExact(env, w)
    requires forall i :: 0 <= i < |parsed| ==> parsed[i].raw != 0
    ensures ViewsExact(env, w')
  {
    var sub := SubOf(w, id).value;
    if Discards(sub, a) {
      assert w'.nodes == w.nodes && w'.platforms == w.platforms;
      SameSubsExact(env, w, w');
      return;
    }
    hide ViewsExact, Untouched, Merged, RefreshTouches, ViewsUpdated, Settled, RefreshedNode;
    var touched := RefreshTouches(w.nodes, sub, Merged(sub, w.nodes, parsed), parsed);
    assert ViewsUpdated(env, w, w', touched);
    hide RefreshMoves;
    forall h | h !in touched ensures Untouched(w, w', h) {
      RefreshUntouched(env, w, w', id, a, parsed, built, h);
    }
    UpdatedExact(env, w, w', touched);
  }

  lemma RefreshUntouched(env: Env, w: World, w': World, id: SubId, a: Attempt, parsed: seq<Parsed>, built: set<Hash>, h: Hash)
    requires SubOf(w, id).Some? && RefreshMoves(env, w, w', id, a, parsed, built) && !Discards(SubOf(w, id).value, a)
    requires RefsExactAt(w, h)
    requires forall i :: 0 <= i < |parsed| ==> parsed[i].raw != 0
    requires h !in RefreshTouches(w.nodes, SubOf(w, id).value, Merged(SubOf(w, id).value, w.nodes, parsed), parsed)
    ensures Untouched(w, w', h)
  {
    hide ViewsUpdated, Merged, RawFor;
    var sub := SubOf(w, id).value;
    var merged := Merged(sub, w.nodes, parsed);
    assert NodeAt(w'.nodes, h) == RefreshedNode(w.nodes, sub, merged, parsed, id, built, h);
    EvictedWasEvicted(sub, w.nodes, parsed, h);
    if h in merged && !merged[h].evicted {
      RefreshHasRaw(w, id, parsed, h);
    }
  }

  /** Same nodes and views, and every subscription holds what it held. */
  lemma SameSubsExact(env: Env, w: World, w': World)
    requires ViewsExact(env, w) && w'.nodes == w.nodes && w'.platforms == w.platforms
    requires forall id, h :: SameHold(w.reg, w'.reg, id, h)
    ensures ViewsExact(env, w')
  {
    assert ViewsUpdated(env, w, w', {}) by { hide Routable; }
    forall h ensures Untouched(w, w', h) {
    }
    UpdatedExact(env, w, w', {});
  }

  // ------------------------------------------------------------------
  // Every operation
  // ------------------------------------------------------------------

  /** Nothing but a missing outbound is in the way of the node on the platform. */
  ghost predicate Awaits(env: Env, reg: Registry, p: PlatformFilter, h: Hash, e: Entry) {
    && !e.circuitOpen && e.egressIP.IsValid() && e.hasLatency
    && TagsPass(env, reg, p.tags, h, e.subIDs)
    && RegionPasses(RegionOf(env, e), p.regions)
  }

  /** No outbound built on re-enabling completes a node for some platform. */
  ghost predicate Harmless(env: Env, w: World, id: SubId, enabled: bool, built: set<Hash>)
    requires id in w.reg
  {
    forall h, p :: h in Rechecked(w, id, enabled) && h in built && !w.nodes[h].hasOutbound && p in w.platforms ==>
      !Awaits(env, EnabledReg(w.reg, id, enabled), w.platforms[p].config, h, w.nodes[h])
  }

  /** A refresh still in flight when its subscription was unregistered, and applied
      nevertheless. */
  predicate LateRefresh(w: World, step: Step) {
    step.Refresh? && SubOf(w, step.id).Some? && step.id !in w.reg && !Discards(SubOf(w, step.id).value, step.attempt)
  }

  /** Neither of the two operations that can leave the pool inexact. */
  ghost predicate Orderly(env: Env, w: World, step: Step) {
    && !LateRefresh(w, step)
    && (step.SetEnabled? && step.id in w.reg ==> Harmless(env, w, step.id, step.enabled, step.built))
  }

  lemma NodeStepRefs(env: Env, w: World, h: Hash, c: Change)
    requires RefsExact(w) && h in w.nodes && c.entry.subIDs == w.nodes[h].subIDs && c.entry.raw == w.nodes[h].raw
    ensures RefsExact(SetNode(env, w, h, Some(c.entry), c.notify))
  {
    var w' := SetNode(env, w, h, Some(c.entry), c.notify);
    forall g ensures RefsExactAt(w', g) {
      assert RefsExactAt(w, g);
    }
  }

  lemma SubStepRefs(w: World, w': World)
    requires RefsExact(w) && w'.nodes == w.nodes
    requires forall id, h :: Holds(w.reg, id, h) <==> Holds(w'.reg, id, h)
    ensures RefsExact(w')
  {
    forall h ensures RefsExactAt(w', h) {
      assert RefsExactAt(w, h);
      SameKeepsRefs(w, w', h);
    }
  }

  lemma RenameInv(env: Env, w: World, w': World, id: SubId, name: Name)
    requires id in w.reg && RefsExact(w) && ViewsExact(env, w) && RenameMoves(env, w, w', id, name)
    ensures RefsExact(w') && ViewsExact(env, w')
  {
    var held := HeldInPool(w.reg[id], w.nodes);
    hide ViewsUpdated;
    forall h ensures RefsExactAt(w', h) {
      assert RefsExactAt(w, h);
      assert forall x :: Holds(w'.reg, x, h) <==> Holds(w.reg, x, h);
      if h in held {
        AddKeepsRefs(w, w', h, id, 0, true);
      } else {
        SameKeepsRefs(w, w', h);
      }
    }
    forall h | h !in held ensures Untouched(w, w', h) {
      assert RefsExactAt(w, h);
    }
    hide Untouched, ViewsExact;
    UpdatedExact(env, w, w', held);
  }

  lemma EvictInv(env: Env, w: World, w': World, id: SubId, first: set<Hash>, second: set<Hash>)
    requires id in w.reg && RefsExact(w) && ViewsExact(env, w) && EvictMoves(env, w, w', id, first, second)
    ensures RefsExact(w') && ViewsExact(env, w')
  {
    var gone := Confirmed(w.reg[id], w.nodes, first, second);
    hide ViewsUpdated;
    forall h ensures RefsExactAt(w', h) {
      assert RefsExactAt(w, h);
      if h in gone {
        RemoveKeepsRefs(w, w', h, id);
      } else {
        SameKeepsRefs(w, w', h);
      }
    }
    forall h | h !in gone ensures Untouched(w, w', h) {
    }
    hide Untouched, ViewsExact;
    UpdatedExact(env, w, w', gone);
  }

  lemma UnregisterInv(env: Env, w: World, w': World, id: SubId)
    requires id in w.reg && RefsExact(w) && ViewsExact(env, w) && UnregisterMoves(env, w, w', id)
    ensures RefsExact(w') && ViewsExact(env, w')
  {
    var gone := w.reg[id].managed.Keys;
    hide ViewsUpdated;
    forall h ensures RefsExactAt(w', h) {
      assert RefsExactAt(w, h);
      if h in gone {
        RemoveKeepsRefs(w, w', h, id);
      } else {
        SameKeepsRefs(w, w', h);
      }
    }
    forall h | h !in gone ensures Untouched(w, w', h) {
      assert RefsExactAt(w, h);
    }
    hide Untouched, ViewsExact;
    UpdatedExact(env, w, w', gone);
  }

  lemma PutSubInv(env: Env, w: World, id: SubId, sub: Subscription)
    requires SubOf(w, id).Some? && RefsExact(w) && ViewsExact(env, w)
    requires sub.managed == SubOf(w, id).value.managed && sub.name == SubOf(w, id).value.name && sub.enabled == SubOf(w, id).value.enabled
    ensures RefsExact(PutSub(w, id, sub)) && ViewsExact(env, PutSub(w, id, sub))
  {
    var w' := PutSub(w, id, sub);
    SubStepRefs(w, w');
    SameSubsExact(env, w, w');
  }

  lemma ChangeInv(env: Env, w: World, h: Hash, c: Change)
    requires RefsExact(w) && ViewsExact(env, w) && h in w.nodes
    requires c.entry.subIDs == w.nodes[h].subIDs && c.entry.raw == w.nodes[h].raw
    requires !c.notify ==>
               && c.entry.circuitOpen == w.nodes[h].circuitOpen && c.entry.hasOutbound == w.nodes[h].hasOutbound
               && c.entry.egressIP == w.nodes[h].egressIP && c.entry.egressRegion == w.nodes[h].egressRegion
               && c.entry.hasLatency == w.nodes[h].hasLatency
    ensures RefsExact(SetNode(env, w, h, Some(c.entry), c.notify)) && ViewsExact(env, SetNode(env, w, h, Some(c.entry), c.notify))
  {
    NodeStepRefs(env, w, h, c);
    SetNodeExact(env, w, h, c);
  }

  lemma NodeStepInv(env: Env, w: World, w': World, step: Step)
    requires RefsExact(w) && ViewsExact(env, w) && Moves(env, w, w', step)
    requires step.Result? || step.Latency? || step.Egress?
    ensures RefsExact(w') && ViewsExact(env, w')
  {
    if step.h in w.nodes {
      var e := w.nodes[step.h];
      var c := if step.Result? then ResultChange(e, step.success, step.maxFailures)
               else if step.Latency? then LatencyChange(e, step.sampled)
               else EgressChange(e, step.ip, step.loc);
      hide RefsExact, ViewsExact, SetNode;
      ChangeInv(env, w, step.h, c);
    }
  }

  lemma PlatformStepInv(env: Env, w: World, w': World, step: Step)
    requires RefsExact(w) && ViewsExact(env, w) && Moves(env, w, w', step)
    requires step.AddPlatform? || step.ReplacePlatform? || step.DropPlatform? || step.RebuildAll?
    ensures RefsExact(w') && ViewsExact(env, w')
  {
    hide Routable;
    SubStepRefs(w, w');
  }

  lemma EnsuredRoutable(env: Env, reg: Registry, p: PlatformFilter, h: Hash, e: Entry, built: bool)
    ensures Routable(env, reg, p, h, Ensured(e, built)) <==>
              if e.hasOutbound then Routable(env, reg, p, h, e) else built && Awaits(env, reg, p, h, e)
  {
    hide Candidate, RegionPasses, HoldsEnabled;
  }

  /** Re-enabling leaves the views exact if and only if no outbound it built was
      all that some platform was missing: the node's circuit closed, its address
      and a latency known, its tags and region passing. */
  lemma SetEnabledExactIff(env: Env, w: World, w': World, id: SubId, enabled: bool, built: set<Hash>)
    requires id in w.reg && SetEnabledMoves(env, w, w', id, enabled, built)
    ensures ViewsExact(env, w') <==> Harmless(env, w, id, enabled, built)
  {
    hide Routable, Rechecked, Ensured, Awaits;
    var checked := Rechecked(w, id, enabled);
    forall h ensures h in checked ==> h in w.nodes {
      RecheckedHeld(w, id, enabled, h);
    }
    forall p, h | p in w.platforms
      ensures (h in w'.platforms[p].view <==> RoutableAt(env, w'.reg, w'.platforms[p].config, h, NodeAt(w'.nodes, h))) <==>
              (h in checked && h in built && !w.nodes[h].hasOutbound ==> !Awaits(env, w'.reg, w.platforms[p].config, h, w.nodes[h]))
    {
      if h in checked {
        EnsuredRoutable(env, w'.reg, w.platforms[p].config, h, w.nodes[h], h in built);
        NeedsOutbound(env, w'.reg, w.platforms[p].config, h, w.nodes[h]);
      }
    }
    hide RoutableAt;
  }

  lemma RecheckedHeld(w: World, id: SubId, enabled: bool, h: Hash)
    requires id in w.reg
    ensures h in Rechecked(w, id, enabled) ==> h in w.nodes
  {
  }

  lemma NeedsOutbound(env: Env, reg: Registry, p: PlatformFilter, h: Hash, e: Entry)
    ensures Routable(env, reg, p, h, e) ==> e.hasOutbound
  {
  }

  lemma SetEnabledRefs(env: Env, w: World, w': World, id: SubId, enabled: bool, built: set<Hash>)
    requires id in w.reg && RefsExact(w) && SetEnabledMoves(env, w, w', id, enabled, built)
    ensures RefsExact(w')
  {
    hide Rechecked, Rebuilt;
    forall h ensures RefsExactAt(w', h) {
      assert RefsExactAt(w, h);
      RecheckedHeld(w, id, enabled, h);
      assert forall x :: Holds(w'.reg, x, h) <==> Holds(w.reg, x, h);
      hide Holds;
    }
  }

  lemma StepExact(env: Env, w: World, w': World, step: Step)
    requires RefsExact(w) && ViewsExact(env, w) && Moves(env, w, w', step) && Orderly(env, w, step)
    ensures RefsExact(w') && ViewsExact(env, w')
  {
    if step.Result? || step.Latency? || step.Egress? {
      NodeStepInv(env, w, w', step);
    } else if step.AddPlatform? || step.ReplacePlatform? || step.DropPlatform? || step.RebuildAll? {
      PlatformStepInv(env, w, w', step);
    } else {
      hide SetNode, RefsExact, ViewsExact, RenameMoves, EvictMoves, UnregisterMoves, SetEnabledMoves, RefreshMoves, Harmless;
      match step
      case Register(id, _, _, _) => RegisterInv(env, w, w', id);
      case BeginRefresh(id) => PutSubInv(env, w, id, SubOf(w', id).value);
      case FailRefresh(id, _) => PutSubInv(env, w, id, SubOf(w', id).value);
      case Reconfigure(id, _, _) => PutSubInv(env, w, id, w'.reg[id]);
      case Refresh(id, a, parsed, built) =>
        RefreshViews(env, w, w', id, a, parsed, built);
        RefreshAllRefs(env, w, w', id, a, parsed, built);
      case Rename(id, name) => RenameInv(env, w, w', id, name);
      case Evict(id, first, second) => EvictInv(env, w, w', id, first, second);
      case Unregister(id) => UnregisterInv(env, w, w', id);
      case SetEnabled(id, enabled, built) =>
        SetEnabledRefs(env, w, w', id, enabled, built);
        SetEnabledExactIff(env, w, w', id, enabled, built);
    }
  }

  lemma RegisterInv(env: Env, w: World, w': World, id: SubId)
    requires RefsExact(w) && ViewsExact(env, w) && id !in w.reg && id in w'.reg && w'.reg[id].managed == map[]
    requires w' == w.(reg := w.reg[id := w'.reg[id]])
    ensures RefsExact(w') && ViewsExact(env, w')
  {
    SubStepRefs(w, w');
    forall x, h ensures SameHold(w.reg, w'.reg, x, h) {
    }
    SameSubsExact(env, w, w');
  }

  lemma RefreshAllRefs(env: Env, w: World, w': World, id: SubId, a: Attempt, parsed: seq<Parsed>, built: set<Hash>)
    requires RefsExact(w) && SubOf(w, id).Some? && RefreshMoves(env, w, w', id, a, parsed, built)
    requires forall i :: 0 <= i < |parsed| ==> parsed[i].raw != 0
    requires id in w.reg || Discards(SubOf(w, id).value, a)
    ensures RefsExact(w')
  {
    if id in w.reg {
      hide RefreshMoves, RefsExactAt;
      forall h ensures RefsExactAt(w', h) {
        assert RefsExactAt(w, h);
        RefreshRefs(env, w, w', id, a, parsed, built, h);
      }
    } else {
      SubStepRefs(w, w');
    }
  }

  predicate SameAttempts(a: Subscription, b: Subscription) {
    a.attemptSeq == b.attemptSeq && a.lastAppliedSeq == b.lastAppliedSeq && a.inFlight == b.inFlight
  }

  lemma PutSubFits(w: World, id: SubId, sub: Subscription)
    requires SubsFit(w) && SubOf(w, id).Some? && AttemptsFit(sub)
    ensures SubsFit(PutSub(w, id, sub))
  {
    hide AttemptsFit;
  }

  lemma AttemptStepFits(env: Env, w: World, w': World, step: Step)
    requires SubsFit(w) && Moves(env, w, w', step)
    requires step.BeginRefresh? || step.Refresh? || step.FailRefresh?
    ensures SubsFit(w')
  {
    hide ViewsUpdated, Merged, RefreshedNode, RefreshTouches, SubsFit, AttemptsFit;
    var id := step.id;
    var sub := SubOf(w, id).value;
    FitOf(w, id);
    if step.Refresh? {
      var a := step.attempt;
      var merged := Merged(sub, w.nodes, step.parsed);
      var sub' := if Discards(sub, a) then Settled(sub, a) else Settled(sub, a).(managed := merged, lastAppliedSeq := a.seqNo);
      SettledFits(sub, a, merged);
      PutSubFits(w, id, sub');
      SameRegistriesFit(PutSub(w, id, sub'), w');
    } else if step.FailRefresh? {
      SettledFits(sub, step.attempt, sub.managed);
      PutSubFits(w, id, Settled(sub, step.attempt));
    } else {
      BegunFits(sub);
      PutSubFits(w, id, Begun(sub));
    }
  }

  /** The attempt is in flight no more. */
  function Settled(sub: Subscription, a: Attempt): Subscription {
    sub.(inFlight := sub.inFlight - {a})
  }

  function Begun(sub: Subscription): Subscription {
    sub.(attemptSeq := sub.attemptSeq + 1, inFlight := sub.inFlight + {Attempt(sub.attemptSeq + 1, sub.configVersion)})
  }

  lemma SettledFits(sub: Subscription, a: Attempt, managed: map<Hash, Managed>)
    requires AttemptsFit(sub) && a in sub.inFlight
    ensures AttemptsFit(Settled(sub, a)) && AttemptsFit(Settled(sub, a).(managed := managed, lastAppliedSeq := a.seqNo))
  {
  }

  lemma BegunFits(sub: Subscription)
    requires AttemptsFit(sub)
    ensures AttemptsFit(Begun(sub))
  {
  }

  lemma FitOf(w: World, id: SubId)
    requires SubsFit(w) && SubOf(w, id).Some?
    ensures AttemptsFit(SubOf(w, id).value)
  {
  }

  lemma SameRegistriesFit(w: World, w': World)
    requires SubsFit(w) && w'.reg == w.reg && w'.detached == w.detached
    ensures SubsFit(w')
  {
  }

  lemma StepSubsFit(env: Env, w: World, w': World, step: Step)
    requires SubsFit(w) && Moves(env, w, w', step)
    ensures SubsFit(w')
  {
    hide ViewsUpdated, SetNode, Rebuilt, FullView, RefreshMoves;
    match step
    case BeginRefresh(_) => AttemptStepFits(env, w, w', step);
    case Refresh(_, _, _, _) => AttemptStepFits(env, w, w', step);
    case FailRefresh(_, _) => AttemptStepFits(env, w, w', step);
    case Unregister(id) =>
      FitOf(w, id);
      hide AttemptsFit;
    case Register(id, _, _, _) =>
      assert AttemptsFit(w'.reg[id]);
      hide AttemptsFit;
    case Reconfigure(id, _, _) => KeepAttempts(w, w', id);
    case Rename(id, _) => KeepAttempts(w, w', id);
    case Evict(id, _, _) => KeepAttempts(w, w', id);
    case SetEnabled(id, _, _) => KeepAttempts(w, w', id);
    case _ =>
      SetNodeSubs(env, w, w', step);
      SameRegistriesFit(w, w');
  }

  lemma KeepAttempts(w: World, w': World, id: SubId)
    requires SubsFit(w) && id in w.reg && id in w'.reg && SameAttempts(w.reg[id], w'.reg[id])
    requires w'.reg == w.reg[id := w'.reg[id]] && w'.detached == w.detached
    ensures SubsFit(w')
  {
    FitOf(w, id);
    assert AttemptsFit(w'.reg[id]);
    hide AttemptsFit;
  }

  lemma SetNodeSubs(env: Env, w: World, w': World, step: Step)
    requires Moves(env, w, w', step)
    requires step.Result? || step.Latency? || step.Egress? || step.AddPlatform? || step.ReplacePlatform? || step.DropPlatform? || step.RebuildAll?
    ensures w'.reg == w.reg && w'.detached == w.detached
  {
    hide Notified, Rebuilt, FullView;
  }

  // ------------------------------------------------------------------
  // Whole runs
  // ------------------------------------------------------------------

  const EMPTY := World(map[], map[], map[], map[])

  /** A run: the worlds it goes through and the operations between them. */
  ghost predicate ValidRun(env: Env, worlds: seq<World>, steps: seq<Step>) {
    && |worlds| == |steps| + 1
    && forall i :: 0 <= i < |steps| ==> Moves(env, worlds[i], worlds[i + 1], steps[i])
  }

  ghost predicate OrderlyRun(env: Env, worlds: seq<World>, steps: seq<Step>) {
    |worlds| == |steps| + 1 && forall i :: 0 <= i < |steps| ==> Orderly(env, worlds[i], steps[i])
  }

  lemma EmptyInv(env: Env)
    ensures Inv(env, EMPTY)
  {
  }

  /** Along every orderly run of operations, started empty: a node is in the pool
      exactly when a registered subscription holds it, its entry names exactly
      those subscriptions, and every platform's view is exactly a full re-filter
      of the pool. */
  lemma {:induction false} AlwaysExact(env: Env, worlds: seq<World>, steps: seq<Step>, n: nat)
    requires ValidRun(env, worlds, steps) && worlds[0] == EMPTY && OrderlyRun(env, worlds, steps)
    requires n < |worlds|
    ensures Inv(env, worlds[n])
  {
    hide Inv, Moves, Orderly;
    if n == 0 {
      EmptyInv(env);
    } else {
      AlwaysExact(env, worlds, steps, n - 1);
      StepInv(env, worlds[n - 1], worlds[n], steps[n - 1]);
    }
  }

  lemma StepInv(env: Env, w: World, w': World, step: Step)
    requires Inv(env, w) && Moves(env, w, w', step) && Orderly(env, w, step)
    ensures Inv(env, w')
  {
    hide RefsExact, ViewsExact, SubsFit, Moves, Orderly;
    StepExact(env, w, w', step);
    StepSubsFit(env, w, w', step);
  }

  /** An applied refresh always carries a higher number than the one before. */
  lemma AppliedIncreases(env: Env, w: World, w': World, step: Step)
    requires SubsFit(w) && Moves(env, w, w', step) && step.Refresh?
    ensures var sub, sub' := SubOf(w, step.id).value, SubOf(w', step.id).value;
            if Discards(sub, step.attempt) then sub'.managed == sub.managed && sub'.lastAppliedSeq == sub.lastAppliedSeq
            else sub'.lastAppliedSeq == step.attempt.seqNo > sub.lastAppliedSeq
  {
    hide ViewsUpdated, RefreshedNode, Merged;
    assert AttemptsFit(SubOf(w, step.id).value);
  }

  // ------------------------------------------------------------------
  // Evicted nodes stay out
  // ------------------------------------------------------------------

  predicate Evicted(w: World, id: SubId, h: Hash) {
    id in w.reg && h in w.reg[id].managed && w.reg[id].managed[h].evicted
  }

  /** The side condition: the subscription stays registered, and every refresh of
      it still lists the node (or runs in incremental mode, or is discarded). */
  predicate StillListed(w: World, step: Step, id: SubId, h: Hash) {
    && !(step.Unregister? && step.id == id)
    && (step.Refresh? && step.id == id && id in w.reg ==>
          Discards(w.reg[id], step.attempt) || w.reg[id].incremental || h in Listed(step.parsed))
  }

  /** A refresh remembers what was evicted, for every hash that stays. */
  lemma RefreshStays(env: Env, w: World, w': World, id: SubId, a: Attempt, parsed: seq<Parsed>, built: set<Hash>, h: Hash)
    requires id in w.reg && RefreshMoves(env, w, w', id, a, parsed, built) && Evicted(w, id, h)
    requires Discards(w.reg[id], a) || w.reg[id].incremental || h in Listed(parsed)
    ensures Evicted(w', id, h)
  {
    hide ViewsUpdated, RefreshedNode, RefreshTouches, TagsOf, Listed, Unhealthy;
  }

  lemma EvictedStays(env: Env, w: World, w': World, step: Step, id: SubId, h: Hash)
    requires Moves(env, w, w', step) && Evicted(w, id, h) && StillListed(w, step, id, h)
    ensures Evicted(w', id, h)
  {
    hide ViewsUpdated, RefreshTouches, Notified, Rebuilt, FullView, ResultChange, EgressChange, LatencyChange, Merged, Rechecked;
    if step.Refresh? && step.id == id {
      hide EvictMoves, RenameMoves, UnregisterMoves, SetEnabledMoves, SetNode, RefreshMoves;
      RefreshStays(env, w, w', id, step.attempt, step.parsed, step.built, h);
    } else if step.Evict? || step.Rename? || step.Unregister? || step.SetEnabled? {
      hide RefreshMoves, SetNode;
    } else {
      hide EvictMoves, RenameMoves, UnregisterMoves, SetEnabledMoves, StillListed;
    }
  }

  lemma {:induction false} EvictedRun(env: Env, worlds: seq<World>, steps: seq<Step>, m: nat, n: nat, id: SubId, h: Hash)
    requires ValidRun(env, worlds, steps)
    requires m <= n < |worlds| && Evicted(worlds[m], id, h)
    requires forall i :: m <= i < n ==> StillListed(worlds[i], steps[i], id, h)
    ensures Evicted(worlds[n], id, h)
    decreases n
  {
    hide Moves, Evicted, StillListed;
    if m < n {
      EvictedRun(env, worlds, steps, m, n - 1, id, h);
      EvictedStays(env, worlds[n - 1], worlds[n], steps[n - 1], id, h);
    }
  }

  /** A node once evicted from a subscription that keeps listing it is never added
      to the pool through that subscription again, in either update mode. */
  lemma EvictedNeverReturns(env: Env, worlds: seq<World>, steps: seq<Step>, m: nat, n: nat, id: SubId, h: Hash)
    requires ValidRun(env, worlds, steps) && worlds[0] == EMPTY && OrderlyRun(env, worlds, steps)
    requires m <= n < |worlds| && Evicted(worlds[m], id, h)
    requires forall i :: m <= i < n ==> StillListed(worlds[i], steps[i], id, h)
    ensures Evicted(worlds[n], id, h)
    ensures h in worlds[n].nodes ==> id !in worlds[n].nodes[h].subIDs
  {
    hide ValidRun, OrderlyRun, StillListed, ViewsExact, SubsFit;
    EvictedRun(env, worlds, steps, m, n, id, h);
    AlwaysExact(env, worlds, steps, n);
    assert RefsExactAt(worlds[n], h);
  }

  // ------------------------------------------------------------------
  // When a refresh outlives its subscription
  // ------------------------------------------------------------------

  /** Applied after its subscription was unregistered, a refresh keeps the
      counting exact if and only if it has no node to hold. */
  lemma LateRefreshExactIff(env: Env, w: World, w': World, id: SubId, a: Attempt, parsed: seq<Parsed>, built: set<Hash>)
    requires Inv(env, w) && Moves(env, w, w', Refresh(id, a, parsed, built))
    requires id !in w.reg && !Discards(w.detached[id], a)
    ensures RefsExact(w') <==>
              forall h :: h in Merged(w.detached[id], w.nodes, parsed) ==> Merged(w.detached[id], w.nodes, parsed)[h].evicted
  {
    var sub := w.detached[id];
    var merged := Merged(sub, w.nodes, parsed);
    hide ViewsUpdated, Merged, RawFor;
    if h :| h in merged && !merged[h].evicted {
      assert RefsExactAt(w, h);
      RefreshHasRaw(w, id, parsed, h);
      var e := AddedEntry(NodeAt(w.nodes, h), RawFor(w.nodes, parsed, h), id, h in built);
      assert NodeAt(w'.nodes, h) == Some(e);
      assert id in e.subIDs;
      assert !Holds(w'.reg, id, h);
      assert !RefsExactAt(w', h);
    } else {
      forall h ensures RefsExactAt(w', h) {
        assert RefsExactAt(w, h);
        assert NodeAt(w'.nodes, h) == RefreshedNode(w.nodes, sub, merged, parsed, id, built, h);
        if h in w.nodes {
          WithoutAbsent(w.nodes[h].subIDs, id);
        }
        SameKeepsRefs(w, w', h);
      }
    }
  }

  /** A subscription as it is registered, and as its first refresh begins. */
  function NewSub(name: Name): Subscription {
    Subscription(name, true, false, map[], 1, 0, 0, {})
  }

  function Refreshing(name: Name): Subscription {
    NewSub(name).(attemptSeq := 1, inFlight := {Attempt(1, 1)})
  }

  /** It happens: a subscription is deleted while its first refresh is fetching. */
  lemma LateRefreshLeaks(env: Env, id: SubId, name: Name, tag: Tag, h: Hash) returns (worlds: seq<World>, steps: seq<Step>)
    ensures ValidRun(env, worlds, steps) && worlds[0] == EMPTY && !RefsExact(worlds[|steps|])
  {
    hide Moves, RefsExactAt, NewSub, Refreshing;
    var a, parsed := Attempt(1, 1), [Parsed(tag, h, 1)];
    var w1 := EMPTY.(reg := map[id := NewSub(name)]);
    var w2 := EMPTY.(reg := map[id := Refreshing(name)]);
    var w3 := EMPTY.(detached := map[id := Refreshing(name)]);
    steps := [Register(id, name, true, false), BeginRefresh(id), Unregister(id), Refresh(id, a, parsed, {})];
    BeginMoves(env, w1, w2, w3, id, name);
    var w4 := LateLeak(env, w3, id, a, parsed, h);
    worlds := [EMPTY, w1, w2, w3, w4];
    Unheld(w4, h, id);
  }

  lemma BeginMoves(env: Env, w1: World, w2: World, w3: World, id: SubId, name: Name)
    requires w1 == EMPTY.(reg := map[id := NewSub(name)])
    requires w2 == EMPTY.(reg := map[id := Refreshing(name)])
    requires w3 == EMPTY.(detached := map[id := Refreshing(name)])
    ensures Moves(env, EMPTY, w1, Register(id, name, true, false)) && Moves(env, w1, w2, BeginRefresh(id)) && Moves(env, w2, w3, Unregister(id))
    ensures w3.detached[id].managed == map[] && Attempt(1, 1) in w3.detached[id].inFlight
    ensures !Discards(w3.detached[id], Attempt(1, 1)) && !w3.detached[id].incremental
  {
    assert {} + {Attempt(1, 1)} == {Attempt(1, 1)};
    assert w2.reg == w1.reg[id := w2.reg[id]];
    assert w2.reg - {id} == map[];
  }

  /** A node that names a subscription nobody registered is one too many. */
  lemma Unheld(w: World, h: Hash, id: SubId)
    requires w.reg == map[] && h in w.nodes && w.nodes[h].subIDs == [id]
    ensures !RefsExactAt(w, h)
  {
    assert id in w.nodes[h].subIDs && !Holds(w.reg, id, h);
  }

  lemma LateLeak(env: Env, w: World, id: SubId, a: Attempt, parsed: seq<Parsed>, h: Hash) returns (w': World)
    requires w.reg == map[] && w.nodes == map[] && w.platforms == map[] && id in w.detached
    requires var sub := w.detached[id]; sub.managed == map[] && a in sub.inFlight && !Discards(sub, a) && !sub.incremental
    requires |parsed| == 1 && parsed[0].hash == h && parsed[0].raw != 0
    ensures Moves(env, w, w', Refresh(id, a, parsed, {}))
    ensures w'.reg == map[] && h in w'.nodes && w'.nodes[h].subIDs == [id]
  {
    var sub := w.detached[id];
    var merged := Merged(sub, w.nodes, parsed);
    var w1 := PutSub(w, id, sub.(managed := merged, lastAppliedSeq := a.seqNo, inFlight := sub.inFlight - {a}));
    w' := w1.(nodes := map[h := AddedEntry(None, parsed[0].raw, id, false)]);
    OneListed(sub, w.nodes, parsed, h);
    hide Merged, RawOf, Listed, TagsOf;
    forall g ensures NodeAt(w'.nodes, g) == RefreshedNode(w.nodes, sub, merged, parsed, id, {}, g) {
    }
    hide RefreshedNode, RefreshTouches;
    assert ViewsUpdated(env, w, w', RefreshTouches(w.nodes, sub, merged, parsed));
  }

  /** A refresh that lists one node, for a subscription that managed none. */
  lemma OneListed(sub: Subscription, nodes: map<Hash, Entry>, parsed: seq<Parsed>, h: Hash)
    requires sub.managed == map[] && |parsed| == 1 && parsed[0].hash == h && parsed[0].raw != 0
    ensures Merged(sub, nodes, parsed).Keys == {h} && !Merged(sub, nodes, parsed)[h].evicted
    ensures RawOf(parsed, h) == parsed[0].raw
  {
    ListsOne(parsed, h);
    hide TagsOf, RawOf, Listed, Unhealthy;
    var merged := Merged(sub, nodes, parsed);
    forall g ensures g in merged <==> g == h {
    }
  }

  lemma ListsOne(parsed: seq<Parsed>, h: Hash)
    requires |parsed| == 1 && parsed[0].hash == h
    ensures Listed(parsed) == {h} && RawOf(parsed, h) == parsed[0].raw
  {
    assert parsed == [parsed[0]];
    hide RawOf;
    assert forall p :: p in parsed <==> p == parsed[0];
    FirstRaw(parsed);
  }

  lemma FirstRaw(parsed: seq<Parsed>)
    requires parsed != []
    ensures RawOf(parsed, parsed[0].hash) == parsed[0].raw
  {
  }

  // ------------------------------------------------------------------
  // Outbounds built on re-enabling
  // ------------------------------------------------------------------

  /** Probes and traffic go through a node's outbound. */
  predicate ThroughOutbound(w: World, step: Step) {
    (step.Result? || step.Latency? || step.Egress?) && step.h in w.nodes ==> w.nodes[step.h].hasOutbound
  }

  /** A node that never had an outbound has no latency. */
  predicate Unprobed(w: World) {
    forall h :: h in w.nodes && !w.nodes[h].hasOutbound ==> !w.nodes[h].hasLatency
  }

  lemma StepUnprobed(env: Env, w: World, w': World, step: Step)
    requires Unprobed(w) && Moves(env, w, w', step) && ThroughOutbound(w, step)
    ensures Unprobed(w')
  {
    hide ViewsUpdated, Notified, Rebuilt, FullView, Merged, WithId, WithoutId, RawFor, HeldInPool, Rechecked, RefreshTouches;
    forall h | h in w'.nodes && !w'.nodes[h].hasOutbound ensures !w'.nodes[h].hasLatency {
      EntryFrom(env, w, w', step, h);
      hide Moves;
    }
  }

  /** An entry and what an operation made of it: nothing but an outbound gained, and
      a new one unmeasured. */
  predicate Grown(e: Option<Entry>, e': Entry) {
    if e.None? then !e'.hasLatency else e'.hasLatency == e.value.hasLatency && (e.value.hasOutbound ==> e'.hasOutbound)
  }

  lemma AddedGrown(e: Option<Entry>, raw: int, id: SubId, built: bool)
    ensures Grown(e, AddedEntry(e, raw, id, built))
  {
  }

  lemma RemovedGrown(e: Option<Entry>, id: SubId)
    ensures RemovedEntry(e, id).Some? ==> Grown(e, RemovedEntry(e, id).value)
  {
  }

  lemma RefreshedGrown(nodes: map<Hash, Entry>, sub: Subscription, merged: map<Hash, Managed>, parsed: seq<Parsed>, id: SubId, built: set<Hash>, h: Hash)
    ensures RefreshedNode(nodes, sub, merged, parsed, id, built, h).Some? ==>
              Grown(NodeAt(nodes, h), RefreshedNode(nodes, sub, merged, parsed, id, built, h).value)
  {
    hide AddedEntry, RemovedEntry, RawFor;
    AddedGrown(NodeAt(nodes, h), RawFor(nodes, parsed, h), id, h in built);
    RemovedGrown(NodeAt(nodes, h), id);
  }

  /** Only a latency sample brings a latency, and no operation takes an outbound. */
  ghost predicate From(w: World, w': World, h: Hash, sampled: bool) {
    h in w'.nodes ==>
      && (h !in w.nodes ==> !w'.nodes[h].hasLatency)
      && (h in w.nodes && w.nodes[h].hasOutbound ==> w'.nodes[h].hasOutbound)
      && (h in w.nodes && !sampled ==> w'.nodes[h].hasLatency == w.nodes[h].hasLatency)
  }

  lemma GrownFrom(w: World, w': World, h: Hash, sampled: bool)
    requires NodeAt(w'.nodes, h).Some? ==> Grown(NodeAt(w.nodes, h), NodeAt(w'.nodes, h).value)
    ensures From(w, w', h, sampled)
  {
  }

  lemma ChangeFrom(env: Env, w: World, w': World, step: Step, h: Hash)
    requires (step.Result? || step.Latency? || step.Egress?) && Moves(env, w, w', step)
    ensures From(w, w', h, step.Latency? && step.h == h)
  {
    hide Notified;
  }

  lemma EntryFrom(env: Env, w: World, w': World, step: Step, h: Hash)
    requires Moves(env, w, w', step)
    ensures From(w, w', h, step.Latency? && step.h == h)
  {
    hide ViewsUpdated, Notified, Rebuilt, FullView, Merged, RefreshedNode, AddedEntry, RemovedEntry, HeldInPool, RefreshTouches, Rechecked, Confirmed, Grown, From, SetNode;
    if step.Result? || step.Latency? || step.Egress? {
      ChangeFrom(env, w, w', step, h);
    } else if step.Refresh? {
      hide RenameMoves, EvictMoves, UnregisterMoves, SetEnabledMoves;
      var sub := SubOf(w, step.id).value;
      RefreshedGrown(w.nodes, sub, Merged(sub, w.nodes, step.parsed), step.parsed, step.id, step.built, h);
      SameGrown(NodeAt(w.nodes, h));
      GrownFrom(w, w', h, false);
    } else if step.Rename? || step.Evict? || step.Unregister? {
      hide RefreshMoves, SetEnabledMoves;
      AddedGrown(NodeAt(w.nodes, h), 0, step.id, true);
      RemovedGrown(NodeAt(w.nodes, h), step.id);
      SameGrown(NodeAt(w.nodes, h));
      GrownFrom(w, w', h, false);
    } else if step.SetEnabled? {
      hide RefreshMoves, RenameMoves, EvictMoves, UnregisterMoves;
      RecheckedHeld(w, step.id, step.enabled, h);
      if h in w.nodes {
        EnsuredGrown(w.nodes[h], h in step.built);
      }
      SameGrown(NodeAt(w.nodes, h));
      GrownFrom(w, w', h, false);
    } else {
      hide RefreshMoves, RenameMoves, EvictMoves, UnregisterMoves, SetEnabledMoves;
      SameGrown(NodeAt(w.nodes, h));
      GrownFrom(w, w', h, false);
    }
  }

  lemma SameGrown(e: Option<Entry>)
    ensures e.Some? ==> Grown(e, e.value)
  {
  }

  lemma EnsuredGrown(e: Entry, built: bool)
    ensures Grown(Some(e), Ensured(e, built))
  {
  }

  lemma UnprobedHarmless(env: Env, w: World, id: SubId, enabled: bool, built: set<Hash>)
    requires id in w.reg && Unprobed(w)
    ensures Harmless(env, w, id, enabled, built)
  {
    hide TagsPass, RegionPasses, EnabledHeld;
  }

  /** Started empty, re-enabling never goes unseen: with every measurement made
      through an outbound and no late refresh, every run is orderly. */
  lemma {:induction false} MeasuredRunsOrderly(env: Env, worlds: seq<World>, steps: seq<Step>, n: nat)
    requires ValidRun(env, worlds, steps) && worlds[0] == EMPTY && n < |worlds|
    requires forall i :: 0 <= i < |steps| ==> ThroughOutbound(worlds[i], steps[i]) && !LateRefresh(worlds[i], steps[i])
    ensures Unprobed(worlds[n])
    ensures n < |steps| ==> Orderly(env, worlds[n], steps[n])
  {
    hide Moves, Unprobed, ThroughOutbound, LateRefresh, Harmless;
    if n == 0 {
      EmptyUnprobed();
    } else {
      MeasuredRunsOrderly(env, worlds, steps, n - 1);
      StepUnprobed(env, worlds[n - 1], worlds[n], steps[n - 1]);
    }
    if n < |steps| && steps[n].SetEnabled? && steps[n].id in worlds[n].reg {
      UnprobedHarmless(env, worlds[n], steps[n].id, steps[n].enabled, steps[n].built);
    }
  }

  lemma EmptyUnprobed()
    ensures Unprobed(EMPTY)
  {
  }

  /** As start-up may leave things: the subscription disabled, the node's latency
      and address read back, but its outbound could not be built. */
  function Restarted(id: SubId, name: Name, tag: Tag, h: Hash, p: PlatformId): World {
    World(map[h := Entry([id], 1, false, 0, Addr(1), None, true, false, true)],
          map[id := Subscription(name, false, false, map[h := Managed([tag], false)], 1, 0, 0, {})],
          map[],
          map[p := PlatformView(PlatformFilter(TagFilter([], [], []), []), {})])
  }

  /** After a restart it can happen: all is exact, the subscription is re-enabled,
      the outbound gets built, and no view shows the node. */
  lemma ReenabledNodeUnseen(env: Env, id: SubId, name: Name, tag: Tag, h: Hash, p: PlatformId) returns (w': World)
    ensures var w := Restarted(id, name, tag, h, p);
            Inv(env, w) && Moves(env, w, w', SetEnabled(id, true, {h})) && !ViewsExact(env, w')
  {
    hide ViewsExact, Inv, Rechecked, Ensured, Rebuilt, Harmless, Restarted;
    var w := Restarted(id, name, tag, h, p);
    RestartedInv(env, id, name, tag, h, p);
    RestartedHarmed(env, id, name, tag, h, p);
    var reg := EnabledReg(w.reg, id, true);
    w' := World(map[h := Ensured(w.nodes[h], true)], reg, map[], Rebuilt(env, reg, w.nodes, w.platforms));
    SetEnabledExactIff(env, w, w', id, true, {h});
  }

  lemma RestartedHarmed(env: Env, id: SubId, name: Name, tag: Tag, h: Hash, p: PlatformId)
    ensures var w := Restarted(id, name, tag, h, p);
            && w.nodes.Keys == {h} && id in w.reg && w.detached == map[]
            && Rechecked(w, id, true) == {h} && !Harmless(env, w, id, true, {h})
  {
    var w := Restarted(id, name, tag, h, p);
    var reg := EnabledReg(w.reg, id, true);
    assert id in [id] && HoldsEnabled(reg, id, h);
    assert !EnabledHeld(w.reg, [id], h) && EnabledHeld(reg, [id], h);
    assert Rechecked(w, id, true) == {h};
    hide Rechecked;
    assert Awaits(env, reg, w.platforms[p].config, h, w.nodes[h]);
  }

  lemma RestartedInv(env: Env, id: SubId, name: Name, tag: Tag, h: Hash, p: PlatformId)
    ensures Inv(env, Restarted(id, name, tag, h, p))
  {
    var w := Restarted(id, name, tag, h, p);
    assert RefsExactAt(w, h);
    assert RefsExact(w);
    hide TagsPass, RegionPasses, RefsExactAt;
    assert ViewsExact(env, w);
  }
}
