/** The pool, the subscriptions and the platform views, updated in place. */
module NodePool {
  import opened Types
  import opened FiniteSets
  import opened NodeFilter
  import opened Topology
  import opened TopologyRuns

  method AddSubscriptionID(ids: seq<SubId>, id: SubId) returns (r: seq<SubId>)
    ensures r == WithId(ids, id)
  {
    for i := 0 to |ids|
      invariant id !in ids[..i]
    {
      if ids[i] == id {
        return ids;
      }
    }
    return ids + [id];
  }

  lemma {:induction false} WithoutFirst(ids: seq<SubId>, i: nat)
    requires i < |ids| && ids[i] !in ids[..i]
    ensures WithoutId(ids, ids[i]) == ids[..i] + ids[i + 1..]
  {
    if i > 0 {
      assert ids[0] == ids[..i][0];
      assert ids[1..][..i - 1] == ids[..i][1..];
      WithoutFirst(ids[1..], i - 1);
    }
  }

  method RemoveSubscriptionID(ids: seq<SubId>, id: SubId) returns (r: seq<SubId>)
    ensures r == WithoutId(ids, id)
  {
    for i := 0 to |ids|
      invariant id !in ids[..i]
    {
      if ids[i] == id {
        WithoutFirst(ids, i);
        return ids[..i] + ids[i + 1..];
      }
    }
    WithoutAbsent(ids, id);
    return ids;
  }

  /** Hashes only in the new map, in both, and only in the old one. */
  method DiffHashes(before: map<Hash, Managed>, next: map<Hash, Managed>) returns (added: seq<Hash>, kept: seq<Hash>, removed: seq<Hash>)
    ensures forall h :: h in added <==> h in next && h !in before
    ensures forall h :: h in kept <==> h in next && h in before
    ensures forall h :: h in removed <==> h in before && h !in next
    ensures Distinct(added) && Distinct(kept) && Distinct(removed)
  {
    added, kept, removed := [], [], [];
    var todo := next.Keys;
    while todo != {}
      invariant todo <= next.Keys
      invariant forall h :: h in added <==> h in next.Keys - todo && h !in before
      invariant forall h :: h in kept <==> h in next.Keys - todo && h in before
      invariant Distinct(added) && Distinct(kept)
      decreases todo
    {
      var h :| h in todo;
      todo := todo - {h};
      if h in before {
        kept := kept + [h];
      } else {
        added := added + [h];
      }
    }
    todo := before.Keys;
    while todo != {}
      invariant todo <= before.Keys
      invariant forall h :: h in removed <==> h in before.Keys - todo && h !in next
      invariant Distinct(removed)
      decreases todo
    {
      var h :| h in todo;
      todo := todo - {h};
      if h !in next {
        removed := removed + [h];
      }
    }
  }

  method Hashes(managed: map<Hash, Managed>) returns (r: seq<Hash>)
    ensures Distinct(r) && Elems(r) == managed.Keys
  {
    r := [];
    var todo := managed.Keys;
    while todo != {}
      invariant todo <= managed.Keys
      invariant Distinct(r) && Elems(r) == managed.Keys - todo
      decreases todo
    {
      var h :| h in todo;
      todo := todo - {h};
      assert Elems(r + [h]) == Elems(r) + {h};
      r := r + [h];
    }
  }

  ghost function Elems(s: seq<Hash>): set<Hash> {
    set h | h in s
  }

  /** The refreshed nodes: tags gathered in order, the first raw options kept. */
  method BuildRefreshed(parsed: seq<Parsed>) returns (tags: map<Hash, seq<Tag>>, raws: map<Hash, int>)
    ensures tags.Keys == Listed(parsed) == raws.Keys
    ensures forall h :: h in tags ==> tags[h] == TagsOf(parsed, h) && raws[h] == RawOf(parsed, h)
  {
    hide TagsOf, RawOf, Listed;
    tags, raws := map[], map[];
    NothingListed();
    for i := 0 to |parsed|
      invariant tags.Keys == Listed(parsed[..i]) == raws.Keys
      invariant forall h :: h in tags ==> tags[h] == TagsOf(parsed[..i], h) && raws[h] == RawOf(parsed[..i], h)
    {
      var p := parsed[i];
      ghost var done := parsed[..i];
      assert parsed[..i + 1] == done + [p];
      OneMoreParsed(done, p);
      tags := tags[p.hash := (if p.hash in tags then tags[p.hash] else []) + [p.tag]];
      if p.hash !in raws {
        raws := raws[p.hash := p.raw];
      }
    }
    assert parsed[..|parsed|] == parsed;
  }

  lemma NothingListed()
    ensures Listed([]) == {}
  {
  }

  lemma OneMoreParsed(done: seq<Parsed>, p: Parsed)
    ensures Listed(done + [p]) == Listed(done) + {p.hash}
    ensures forall h :: TagsOf(done + [p], h) == TagsOf(done, h) + (if p.hash == h then [p.tag] else [])
    ensures p.hash !in Listed(done) ==> TagsOf(done, p.hash) == []
    ensures forall h :: RawOf(done + [p], h) == if h in Listed(done) then RawOf(done, h) else if p.hash == h then p.raw else 0
  {
    var more := done + [p];
    assert more[..|more| - 1] == done;
    assert Listed(more) == Listed(done) + {p.hash};
    forall h ensures RawOf(more, h) == if h in Listed(done) then RawOf(done, h) else if p.hash == h then p.raw else 0 {
      RawOfAppend(done, p, h);
    }
    if p.hash !in Listed(done) {
      NoTags(done, p.hash);
    }
  }

  lemma {:induction false} RawOfAppend(parsed: seq<Parsed>, p: Parsed, h: Hash)
    ensures RawOf(parsed + [p], h) == if h in Listed(parsed) then RawOf(parsed, h) else if p.hash == h then p.raw else 0
  {
    if parsed != [] {
      assert (parsed + [p])[1..] == parsed[1..] + [p];
      RawOfAppend(parsed[1..], p, h);
      assert parsed == [parsed[0]] + parsed[1..];
      assert Listed(parsed) == {parsed[0].hash} + Listed(parsed[1..]);
    }
  }

  lemma {:induction false} NoTags(parsed: seq<Parsed>, h: Hash)
    requires h !in Listed(parsed)
    ensures TagsOf(parsed, h) == []
  {
    if parsed != [] {
      assert parsed[|parsed| - 1] in parsed;
      assert parsed == parsed[..|parsed| - 1] + [parsed[|parsed| - 1]];
      assert Listed(parsed[..|parsed| - 1]) <= Listed(parsed);
      NoTags(parsed[..|parsed| - 1], h);
    }
  }

  /** Re-evaluating one more node. */
  lemma NotifyExtends(env: Env, w0: World, w1: World, touched: set<Hash>, h: Hash, e: Option<Entry>)
    requires ViewsUpdated(env, w0, w1, touched) && h !in touched
    ensures ViewsUpdated(env, w0, SetNode(env, w1, h, e, true), touched + {h})
    ensures forall g :: NodeAt(SetNode(env, w1, h, e, true).nodes, g) == if g == h then e else NodeAt(w1.nodes, g)
  {
    hide Routable;
  }

  /** The address and region rules on one entry, and whether either changed. */
  method SetEgress(entry: Entry, ip: Option<Addr>, loc: Option<Region>) returns (e: Entry, changed: bool)
    ensures Change(e, changed) == EgressChange(entry, ip, loc)
  {
    e := entry;
    var oldRegion := e.egressRegion;
    var ipChanged, regionChanged := false, false;
    if ip.Some? && e.egressIP != ip.value {
      e := e.(egressIP := ip.value);
      ipChanged := true;
    }
    if loc.Some? {
      e := e.(egressRegion := loc.value);
      regionChanged := oldRegion != e.egressRegion;
    } else if ipChanged && oldRegion.Some? {
      e := e.(egressRegion := None);
      regionChanged := true;
    }
    changed := ipChanged || regionChanged;
  }

  class GlobalNodePool {
    const env: Env
    var nodes: map<Hash, Entry>
    var reg: Registry
    var detached: Registry
    var platforms: map<PlatformId, PlatformView>

    ghost function W(): World
      reads this
    {
      World(nodes, reg, detached, platforms)
    }

    constructor (env: Env)
      ensures this.env == env && W() == World(map[], map[], map[], map[])
    {
      this.env := env;
      nodes, reg, detached, platforms := map[], map[], map[], map[];
    }

    // ----------------------------------------------------------------
    // Views
    // ----------------------------------------------------------------

    /** One platform re-evaluates one node. */
    method NotifyDirty(p: PlatformId, h: Hash)
      requires p in platforms
      modifies `platforms
      ensures platforms == old(platforms)[p := Notified(env, reg, old(platforms), h, NodeAt(nodes, h))[p]]
    {
      hide Routable;
      var pv := platforms[p];
      var ok := false;
      if h in nodes {
        ok := EvaluateNode(env, reg, pv.config, h, nodes[h]);
      }
      if ok {
        platforms := platforms[p := pv.(view := pv.view + {h})];
      } else {
        platforms := platforms[p := pv.(view := pv.view - {h})];
      }
    }

    method NotifyAllPlatformsDirty(h: Hash)
      modifies `platforms
      ensures platforms == Notified(env, reg, old(platforms), h, NodeAt(nodes, h))
    {
      hide RoutableAt;
      ghost var done := Notified(env, reg, platforms, h, NodeAt(nodes, h));
      var names := platforms.Keys;
      var todo: set<PlatformId> := names;
      while todo != {}
        invariant platforms.Keys == names && todo <= names
        invariant forall p :: p in platforms ==> platforms[p] == if p in todo then old(platforms)[p] else done[p]
        decreases todo
      {
        var p :| p in todo;
        todo := todo - {p};
        NotifyDirty(p, h);
      }
    }

    /** A view computed afresh from the whole pool. */
    method FullRebuild(config: PlatformFilter) returns (view: set<Hash>)
      ensures view == FullView(env, reg, nodes, config)
    {
      hide Routable;
      view := {};
      var todo := nodes.Keys;
      while todo != {}
        invariant todo <= nodes.Keys
        invariant forall h :: h in view <==> h in nodes.Keys - todo && Routable(env, reg, config, h, nodes[h])
        decreases todo
      {
        var h :| h in todo;
        todo := todo - {h};
        var ok := EvaluateNode(env, reg, config, h, nodes[h]);
        if ok {
          view := view + {h};
        }
      }
    }

    method RebuildAllPlatforms()
      modifies `platforms
      ensures Moves(env, old(W()), W(), RebuildAll)
    {
      hide FullView;
      ghost var done := Rebuilt(env, reg, nodes, platforms);
      var names := platforms.Keys;
      var todo: set<PlatformId> := names;
      while todo != {}
        invariant platforms.Keys == names && todo <= names
        invariant forall p :: p in platforms ==> platforms[p] == if p in todo then old(platforms)[p] else done[p]
        decreases todo
      {
        var p :| p in todo;
        todo := todo - {p};
        var view := FullRebuild(platforms[p].config);
        platforms := platforms[p := platforms[p].(view := view)];
      }
      assert platforms == done;
    }

    method RegisterPlatform(p: PlatformId, config: PlatformFilter)
      modifies `platforms
      ensures Moves(env, old(W()), W(), AddPlatform(p, config))
    {
      if p in platforms {
        return;
      }
      var view := FullRebuild(config);
      platforms := platforms[p := PlatformView(config, view)];
    }

    // ----------------------------------------------------------------
    // Nodes
    // ----------------------------------------------------------------

    /** built: whether the outbound could be built, should the node be new. */
    method AddNodeFromSub(h: Hash, raw: int, id: SubId, built: bool)
      modifies `nodes, `platforms
      ensures W() == SetNode(env, old(W()), h, Some(AddedEntry(NodeAt(old(nodes), h), raw, id, built)), true)
    {
      hide Notified;
      if h in nodes {
        var ids := AddSubscriptionID(nodes[h].subIDs, id);
        nodes := nodes[h := nodes[h].(subIDs := ids)];
      } else {
        nodes := nodes[h := Entry([id], raw, true, 0, NoAddr, None, false, built, !built)];
      }
      NotifyAllPlatformsDirty(h);
    }

    method RemoveNodeFromSub(h: Hash, id: SubId)
      modifies `nodes, `platforms
      ensures W() == SetNode(env, old(W()), h, RemovedEntry(NodeAt(old(nodes), h), id), true)
    {
      hide Notified;
      if h in nodes {
        var ids := RemoveSubscriptionID(nodes[h].subIDs, id);
        if |ids| == 0 {
          nodes := nodes - {h};
        } else {
          nodes := nodes[h := nodes[h].(subIDs := ids)];
        }
      } else {
        assert nodes - {h} == nodes;
      }
      NotifyAllPlatformsDirty(h);
    }

    method RecordResult(h: Hash, success: bool, maxFailures: int)
      modifies `nodes, `platforms
      ensures Moves(env, old(W()), W(), Result(h, success, maxFailures))
    {
      hide Notified;
      if h !in nodes {
        return;
      }
      var e := nodes[h];
      var circuitStateChanged := false;
      if success {
        circuitStateChanged := e.circuitOpen;
        e := e.(failures := 0, circuitOpen := false);
      } else {
        e := e.(failures := e.failures + 1);
        if maxFailures > 0 && e.failures >= maxFailures && !e.circuitOpen {
          e := e.(circuitOpen := true);
          circuitStateChanged := true;
        }
      }
      nodes := nodes[h := e];
      if circuitStateChanged {
        NotifyAllPlatformsDirty(h);
      }
    }

    method RecordLatency(h: Hash, sampled: bool)
      modifies `nodes, `platforms
      ensures Moves(env, old(W()), W(), Latency(h, sampled))
    {
      hide Notified;
      if h !in nodes {
        return;
      }
      if !sampled {
        assert nodes == nodes[h := nodes[h]];
        return;
      }
      var wasEmpty := !nodes[h].hasLatency;
      nodes := nodes[h := nodes[h].(hasLatency := true)];
      if wasEmpty {
        NotifyAllPlatformsDirty(h);
      }
    }

    method UpdateNodeEgressIP(h: Hash, ip: Option<Addr>, loc: Option<Region>)
      modifies `nodes, `platforms
      ensures Moves(env, old(W()), W(), Egress(h, ip, loc))
    {
      hide Notified, EgressChange;
      if h !in nodes {
        return;
      }
      var e, notify := SetEgress(nodes[h], ip, loc);
      nodes := nodes[h := e];
      if notify {
        NotifyAllPlatformsDirty(h);
      }
    }

    // ----------------------------------------------------------------
    // Subscriptions
    // ----------------------------------------------------------------

    method StoreSub(id: SubId, sub: Subscription)
      requires id in reg || id in detached
      modifies `reg, `detached
      ensures W() == PutSub(old(W()), id, sub)
    {
      if id in reg {
        reg := reg[id := sub];
      } else {
        detached := detached[id := sub];
      }
    }

    method RegisterSubscription(id: SubId, name: Name, enabled: bool, incremental: bool)
      requires id !in reg && id !in detached
      modifies `reg
      ensures Moves(env, old(W()), W(), Register(id, name, enabled, incremental))
    {
      reg := reg[id := Subscription(name, enabled, incremental, map[], 1, 0, 0, {})];
    }

    method StartAttempt(id: SubId) returns (a: Attempt)
      requires SubOf(W(), id).Some?
      modifies `reg, `detached
      ensures Moves(env, old(W()), W(), BeginRefresh(id))
      ensures a in SubOf(W(), id).value.inFlight
    {
      var sub := if id in reg then reg[id] else detached[id];
      a := Attempt(sub.attemptSeq + 1, sub.configVersion);
      StoreSub(id, sub.(attemptSeq := sub.attemptSeq + 1, inFlight := sub.inFlight + {a}));
    }

    /** The old nodes that incremental mode keeps: evicted, or still healthy. */
    method KeepOld(managed: map<Hash, Managed>) returns (kept: map<Hash, Managed>)
      ensures forall h :: h in kept <==> h in managed && (managed[h].evicted || (h in nodes && !Unhealthy(nodes[h])))
      ensures forall h :: h in kept ==> kept[h] == managed[h]
    {
      hide Unhealthy;
      kept := map[];
      var todo := managed.Keys;
      while todo != {}
        invariant todo <= managed.Keys
        invariant forall h :: h in kept <==>
                    h in managed.Keys - todo && (managed[h].evicted || (h in nodes && !Unhealthy(nodes[h])))
        invariant forall h :: h in kept ==> kept[h] == managed[h]
        decreases todo
      {
        var h :| h in todo;
        todo := todo - {h};
        if managed[h].evicted || (h in nodes && !Unhealthy(nodes[h])) {
          kept := kept[h := managed[h]];
        }
      }
    }

    /** Eviction is inherited by every hash that stays. */
    method InheritEviction(before: map<Hash, Managed>, next: map<Hash, Managed>) returns (merged: map<Hash, Managed>)
      ensures merged.Keys == next.Keys
      ensures forall h :: h in merged ==>
                merged[h] == if h in before && before[h].evicted then next[h].(evicted := true) else next[h]
    {
      merged := next;
      var todo := before.Keys;
      while todo != {}
        invariant todo <= before.Keys && merged.Keys == next.Keys
        invariant forall h :: h in merged ==>
                    merged[h] == if h in before.Keys - todo && before[h].evicted then next[h].(evicted := true) else next[h]
        decreases todo
      {
        var h :| h in todo;
        todo := todo - {h};
        if before[h].evicted && h in merged {
          merged := merged[h := merged[h].(evicted := true)];
        }
      }
    }

    /** The merge: parsed nodes replace, or in incremental mode join, the old
        ones; eviction is inherited. */
    method MergeManaged(sub: Subscription, parsed: seq<Parsed>, tags: map<Hash, seq<Tag>>) returns (merged: map<Hash, Managed>)
      requires tags.Keys == Listed(parsed) && forall h :: h in tags ==> tags[h] == TagsOf(parsed, h)
      ensures merged == Merged(sub, nodes, parsed)
    {
      hide TagsOf, Listed, Unhealthy;
      var next := map h | h in tags :: Managed(tags[h], false);
      if sub.incremental {
        var kept := KeepOld(sub.managed);
        next := kept + next;
      }
      merged := InheritEviction(sub.managed, next);
    }

    /** How far the refresh has come: the hashes done have their final entries,
        the rest their original ones, and the touched ones were re-evaluated. */
    ghost predicate Progress(w0: World, sub: Subscription, merged: map<Hash, Managed>, parsed: seq<Parsed>, id: SubId, built: set<Hash>, done: set<Hash>)
      reads this
    {
      && (forall h :: NodeAt(nodes, h) == if h in done then RefreshedNode(w0.nodes, sub, merged, parsed, id, built, h) else NodeAt(w0.nodes, h))
      && ViewsUpdated(env, w0, W(), done * RefreshTouches(w0.nodes, sub, merged, parsed))
    }

    method AddHashes(hashes: seq<Hash>, ghost w0: World, sub: Subscription, merged: map<Hash, Managed>, parsed: seq<Parsed>,
                     raws: map<Hash, int>, id: SubId, built: set<Hash>, ghost done: set<Hash>)
      requires Distinct(hashes) && forall h :: h in hashes ==> h in merged && h !in done
      requires forall h :: (if h in raws then raws[h] else 0) == RawOf(parsed, h)
      requires Progress(w0, sub, merged, parsed, id, built, done)
      modifies `nodes, `platforms
      ensures Progress(w0, sub, merged, parsed, id, built, done + Elems(hashes))
    {
      hide ViewsUpdated, RawOf;
      ghost var touches := RefreshTouches(w0.nodes, sub, merged, parsed);
      ghost var now := done;
      assert done + Elems(hashes[..0]) == done;
      for i := 0 to |hashes|
        invariant now == done + Elems(hashes[..i])
        invariant Progress(w0, sub, merged, parsed, id, built, now)
      {
        var h := hashes[i];
        assert hashes[..i + 1] == hashes[..i] + [h];
        assert h !in now;
        assert NodeAt(nodes, h) == NodeAt(w0.nodes, h);
        ghost var before := now;
        now := now + {h};
        assert now == done + Elems(hashes[..i + 1]);
        var raw := if h in raws then raws[h] else 0;
        if raw == 0 && h in nodes {
          raw := nodes[h].raw;
        }
        assert raw == RawFor(w0.nodes, parsed, h);
        if merged[h].evicted || raw == 0 {
          assert h !in touches;
          assert now * touches == before * touches;
          continue;
        }
        assert now * touches == (before * touches) + {h};
        NotifyExtends(env, w0, W(), before * touches, h, Some(AddedEntry(NodeAt(nodes, h), raw, id, h in built)));
        hide AddedEntry, SetNode;
        AddNodeFromSub(h, raw, id, h in built);
      }
      assert hashes[..|hashes|] == hashes;
    }

    /** Drop one subscription's reference from each of the hashes. */
    method RemoveAll(hashes: seq<Hash>, id: SubId, ghost w0: World, ghost done: set<Hash>)
      requires Distinct(hashes) && Elems(hashes) !! done
      requires ViewsUpdated(env, w0, W(), done)
      modifies `nodes, `platforms
      ensures forall h :: NodeAt(nodes, h) == if h in hashes then RemovedEntry(NodeAt(old(nodes), h), id) else NodeAt(old(nodes), h)
      ensures ViewsUpdated(env, w0, W(), done + Elems(hashes))
    {
      hide ViewsUpdated, RemovedEntry;
      ghost var before := nodes;
      assert done + Elems(hashes[..0]) == done;
      for i := 0 to |hashes|
        invariant forall h :: NodeAt(nodes, h) == if h in hashes[..i] then RemovedEntry(NodeAt(before, h), id) else NodeAt(before, h)
        invariant ViewsUpdated(env, w0, W(), done + Elems(hashes[..i]))
      {
        var h := hashes[i];
        assert hashes[..i + 1] == hashes[..i] + [h];
        assert h !in hashes[..i];
        assert h in Elems(hashes) && h !in done + Elems(hashes[..i]);
        assert done + Elems(hashes[..i + 1]) == done + Elems(hashes[..i]) + {h};
        NotifyExtends(env, w0, W(), done + Elems(hashes[..i]), h, RemovedEntry(NodeAt(nodes, h), id));
        hide SetNode;
        RemoveNodeFromSub(h, id);
      }
      assert hashes[..|hashes|] == hashes;
    }

    /** The second half of a refresh: merge, diff and apply under the operation
        lock, unless the attempt has become stale. */
    method UpdateSubscription(id: SubId, a: Attempt, parsed: seq<Parsed>, built: set<Hash>)
      requires SubOf(W(), id).Some? && a in SubOf(W(), id).value.inFlight
      requires forall i :: 0 <= i < |parsed| ==> parsed[i].raw != 0
      modifies this
      ensures Moves(env, old(W()), W(), Refresh(id, a, parsed, built))
    {
      hide ViewsUpdated, RefreshTouches, RefreshedNode, Merged, Listed;
      ghost var w0 := W();
      var sub := if id in reg then reg[id] else detached[id];
      if sub.configVersion != a.version || sub.lastAppliedSeq > a.seqNo {
        StoreSub(id, sub.(inFlight := sub.inFlight - {a}));
        return;
      }
      var tags, raws := BuildRefreshed(parsed);
      forall h | h !in raws ensures RawOf(parsed, h) == 0 {
        RawOfListed(parsed, h);
      }
      var merged := MergeManaged(sub, parsed, tags);
      StoreSub(id, sub.(managed := merged, lastAppliedSeq := a.seqNo, inFlight := sub.inFlight - {a}));
      ApplyDiff(w0, sub, merged, parsed, raws, id, built);
    }

    /** Bring the pool from the old managed set to the merged one. */
    method ApplyDiff(ghost w0: World, sub: Subscription, merged: map<Hash, Managed>, parsed: seq<Parsed>, raws: map<Hash, int>, id: SubId, built: set<Hash>)
      requires nodes == w0.nodes && platforms == w0.platforms
      requires forall h :: (if h in raws then raws[h] else 0) == RawOf(parsed, h)
      modifies `nodes, `platforms
      ensures forall h :: NodeAt(nodes, h) == RefreshedNode(w0.nodes, sub, merged, parsed, id, built, h)
      ensures ViewsUpdated(env, w0, W(), RefreshTouches(w0.nodes, sub, merged, parsed))
    {
      hide ViewsUpdated, RefreshTouches, RefreshedNode, RemovedEntry;
      var added, kept, removed := DiffHashes(sub.managed, merged);
      NothingTouched(env, w0, W());
      ghost var touches := RefreshTouches(w0.nodes, sub, merged, parsed);
      assert {} * touches == {};
      assert Progress(w0, sub, merged, parsed, id, built, {});
      AddHashes(added, w0, sub, merged, parsed, raws, id, built, {});
      AddHashes(kept, w0, sub, merged, parsed, raws, id, built, {} + Elems(added));
      ghost var done := {} + Elems(added) + Elems(kept);
      AllDone(w0, sub, merged, parsed, id, built, done, Elems(removed));
      RemoveAll(removed, id, w0, done * touches);
    }

    method HandleUpdateFailure(id: SubId, a: Attempt)
      requires SubOf(W(), id).Some? && a in SubOf(W(), id).value.inFlight
      modifies `reg, `detached
      ensures Moves(env, old(W()), W(), FailRefresh(id, a))
    {
      var sub := if id in reg then reg[id] else detached[id];
      StoreSub(id, sub.(inFlight := sub.inFlight - {a}));
    }

    method ReconfigureSubscription(id: SubId, incremental: bool, refetch: bool)
      requires id in reg
      modifies `reg
      ensures Moves(env, old(W()), W(), Reconfigure(id, incremental, refetch))
    {
      var sub := reg[id];
      reg := reg[id := sub.(incremental := incremental, configVersion := sub.configVersion + (if refetch then 1 else 0))];
    }

    /** Builds the outbound of a node that has none; tells no platform. */
    method EnsureNodeOutbound(h: Hash, built: bool)
      modifies `nodes
      ensures forall g :: NodeAt(nodes, g) == if g == h && h in old(nodes) then Some(Ensured(old(nodes)[h], built)) else NodeAt(old(nodes), g)
    {
      if h !in nodes || nodes[h].hasOutbound {
        return;
      }
      if built {
        nodes := nodes[h := nodes[h].(hasOutbound := true)];
      } else {
        nodes := nodes[h := nodes[h].(hasError := true)];
      }
    }

    /** All subscriptions the node refers to are disabled, or hold it no more. */
    method IsNodeDisabled(h: Hash) returns (disabled: bool)
      ensures disabled <==> h !in nodes || !EnabledHeld(reg, nodes[h].subIDs, h)
    {
      if h !in nodes {
        return true;
      }
      var enabled := HasEnabledSubscription(reg, h, nodes[h].subIDs);
      return !enabled;
    }

    /** The nodes to check again should the subscription be enabled now. */
    method DisabledHeld(id: SubId) returns (candidates: seq<Hash>)
      requires id in reg
      ensures Distinct(candidates)
      ensures forall h :: h in candidates <==>
                h in reg[id].managed && !reg[id].managed[h].evicted && (h !in nodes || !EnabledHeld(reg, nodes[h].subIDs, h))
    {
      hide EnabledHeld;
      candidates := [];
      var managed := reg[id].managed;
      var todo := managed.Keys;
      while todo != {}
        invariant todo <= managed.Keys && Distinct(candidates)
        invariant forall h :: h in candidates <==>
                    h in managed.Keys - todo && !managed[h].evicted && (h !in nodes || !EnabledHeld(reg, nodes[h].subIDs, h))
        decreases todo
      {
        var h :| h in todo;
        todo := todo - {h};
        var disabled := IsNodeDisabled(h);
        if !managed[h].evicted && disabled {
          candidates := candidates + [h];
        }
      }
    }

    /** built: the nodes whose outbound can be built, should one be missing. */
    method SetSubscriptionEnabled(id: SubId, enabled: bool, built: set<Hash>)
      requires id in reg
      modifies `reg, `platforms, `nodes
      ensures Moves(env, old(W()), W(), SetEnabled(id, enabled, built))
    {
      hide Rebuilt, EnabledHeld, Ensured;
      ghost var w0 := W();
      var candidates := [];
      if !reg[id].enabled && enabled {
        candidates := DisabledHeld(id);
      }
      reg := reg[id := reg[id].(enabled := enabled)];
      RebuildAllPlatforms();
      RecheckOutbounds(candidates, built);
    }

    /** An outbound attempt for each of the nodes that is enabled by now. */
    method RecheckOutbounds(candidates: seq<Hash>, built: set<Hash>)
      requires Distinct(candidates)
      modifies `nodes
      ensures forall h :: NodeAt(nodes, h) ==
                            if h in candidates && h in old(nodes) && EnabledHeld(reg, old(nodes)[h].subIDs, h)
                            then Some(Ensured(old(nodes)[h], h in built)) else NodeAt(old(nodes), h)
    {
      hide EnabledHeld, Ensured;
      ghost var before := nodes;
      for i := 0 to |candidates|
        invariant forall h :: NodeAt(nodes, h) ==
                                if h in candidates[..i] && h in before && EnabledHeld(reg, before[h].subIDs, h)
                                then Some(Ensured(before[h], h in built)) else NodeAt(before, h)
      {
        var h := candidates[i];
        assert candidates[..i + 1] == candidates[..i] + [h];
        assert h !in candidates[..i];
        assert NodeAt(nodes, h) == NodeAt(before, h);
        var disabled := IsNodeDisabled(h);
        if !disabled {
          EnsureNodeOutbound(h, h in built);
        }
      }
      assert candidates[..|candidates|] == candidates;
    }

    /** Re-adds every held node, so that the platforms see the new name. */
    method RenameSubscription(id: SubId, name: Name)
      requires id in reg
      modifies `reg, `nodes, `platforms
      ensures Moves(env, old(W()), W(), Rename(id, name))
    {
      hide ViewsUpdated, Notified;
      ghost var w0 := W();
      var sub := reg[id];
      reg := reg[id := sub.(name := name)];
      NothingTouched(env, w0, W());
      ghost var held := HeldInPool(sub, nodes);
      var todo := sub.managed.Keys;
      ghost var done := {};
      while todo != {}
        invariant todo <= sub.managed.Keys && done == held - todo
        invariant reg == w0.reg[id := sub.(name := name)] && detached == w0.detached
        invariant forall h :: NodeAt(nodes, h) == if h in done then Some(AddedEntry(NodeAt(w0.nodes, h), 0, id, true)) else NodeAt(w0.nodes, h)
        invariant ViewsUpdated(env, w0, W(), done)
        decreases todo
      {
        var h :| h in todo;
        todo := todo - {h};
        assert NodeAt(nodes, h) == NodeAt(w0.nodes, h);
        if !sub.managed[h].evicted && h in nodes {
          assert held - todo == done + {h};
          NotifyExtends(env, w0, W(), done, h, Some(AddedEntry(NodeAt(nodes, h), nodes[h].raw, id, true)));
          hide AddedEntry;
          AddNodeFromSub(h, nodes[h].raw, id, true);
          done := done + {h};
        } else {
          assert held - todo == done;
        }
      }
      assert held - todo == held;
    }

    /** The held nodes one scan finds fit for removal. */
    method Scan(managed: map<Hash, Managed>, within: set<Hash>, unfit: set<Hash>) returns (r: seq<Hash>)
      requires within <= managed.Keys
      ensures Distinct(r) && forall h :: h in r <==> h in within && !managed[h].evicted && h in nodes && h in unfit
    {
      r := [];
      var todo := within;
      while todo != {}
        invariant todo <= within
        invariant Distinct(r) && forall h :: h in r <==> h in within - todo && !managed[h].evicted && h in nodes && h in unfit
        decreases todo
      {
        var h :| h in todo;
        todo := todo - {h};
        if !managed[h].evicted && h in nodes && h in unfit {
          r := r + [h];
        }
      }
    }

    /** Two scans, the pool having answered differently in between, decide which
        nodes the subscription gives up for good. */
    method CleanupSubscriptionNodes(id: SubId, first: set<Hash>, second: set<Hash>) returns (evicted: seq<Hash>)
      requires id in reg
      modifies `reg, `nodes, `platforms
      ensures Moves(env, old(W()), W(), Evict(id, first, second))
      ensures Distinct(evicted) && Elems(evicted) == Confirmed(old(reg)[id], old(nodes), first, second)
    {
      hide ViewsUpdated, RemovedEntry;
      ghost var w0 := W();
      var sub := reg[id];
      var candidates := Scan(sub.managed, sub.managed.Keys, first);
      evicted := Scan(sub.managed, (set h | h in candidates), second);
      ghost var gone := Confirmed(sub, nodes, first, second);
      assert Elems(evicted) == gone;
      assert forall h :: h in evicted <==> h in gone;
      var managed := map h | h in sub.managed :: if h in evicted then sub.managed[h].(evicted := true) else sub.managed[h];
      assert managed == map h | h in sub.managed :: if h in gone then sub.managed[h].(evicted := true) else sub.managed[h];
      reg := reg[id := sub.(managed := managed)];
      NothingTouched(env, w0, W());
      assert {} + Elems(evicted) == gone;
      RemoveAll(evicted, id, w0, {});
    }

    /** References first, the registry last. */
    method DeleteSubscription(id: SubId)
      requires id in reg && forall h :: h in nodes ==> Distinct(nodes[h].subIDs)
      modifies `reg, `detached, `nodes, `platforms
      ensures Moves(env, old(W()), W(), Unregister(id))
    {
      hide ViewsUpdated, RemovedEntry;
      ghost var w0 := W();
      var sub := reg[id];
      var managed := Hashes(sub.managed);
      NothingTouched(env, w0, W());
      assert {} + Elems(managed) == sub.managed.Keys;
      RemoveAll(managed, id, w0, {});
      UnregisterUnseen(env, w0, W(), id);
      reg, detached := reg - {id}, detached[id := sub];
    }

    method ReplacePlatform(p: PlatformId, config: PlatformFilter)
      modifies `platforms
      ensures Moves(env, old(W()), W(), Step.ReplacePlatform(p, config))
    {
      if p !in platforms {
        return;
      }
      var view := FullRebuild(config);
      platforms := platforms[p := PlatformView(config, view)];
    }

    method UnregisterPlatform(p: PlatformId)
      modifies `platforms
      ensures Moves(env, old(W()), W(), DropPlatform(p))
    {
      platforms := platforms - {p};
    }
  }

  lemma NothingTouched(env: Env, w0: World, w1: World)
    requires w1.platforms == w0.platforms
    ensures ViewsUpdated(env, w0, w1, {})
  {
    hide RoutableAt;
  }

  /** Hashes neither managed before nor after are not concerned by the refresh,
      and the ones no longer managed are all removed. */
  lemma AllDone(w0: World, sub: Subscription, merged: map<Hash, Managed>, parsed: seq<Parsed>, id: SubId, built: set<Hash>, done: set<Hash>, removed: set<Hash>)
    requires done == merged.Keys && removed == sub.managed.Keys - merged.Keys
    ensures forall h :: h !in done ==>
              RefreshedNode(w0.nodes, sub, merged, parsed, id, built, h) == if h in removed then RemovedEntry(NodeAt(w0.nodes, h), id) else NodeAt(w0.nodes, h)
    ensures done * RefreshTouches(w0.nodes, sub, merged, parsed) + removed == RefreshTouches(w0.nodes, sub, merged, parsed)
  {
    hide RawFor, RemovedEntry, AddedEntry;
  }

  /** Once a node names the subscription no more, unregistering it is invisible. */
  lemma UnregisterUnseen(env: Env, w0: World, w1: World, id: SubId)
    requires id in w0.reg && w1.reg == w0.reg
    requires forall h :: h in w0.nodes ==> Distinct(w0.nodes[h].subIDs)
    requires forall h :: NodeAt(w1.nodes, h) ==
                           if h in w0.reg[id].managed then RemovedEntry(NodeAt(w0.nodes, h), id) else NodeAt(w0.nodes, h)
    requires ViewsUpdated(env, w0, w1, w0.reg[id].managed.Keys)
    ensures ViewsUpdated(env, w0, w1.(reg := w0.reg - {id}, detached := w0.detached[id := w0.reg[id]]), w0.reg[id].managed.Keys)
  {
    var w2 := w1.(reg := w0.reg - {id}, detached := w0.detached[id := w0.reg[id]]);
    forall p, h | p in w0.platforms && h in w0.reg[id].managed
      ensures RoutableAt(env, w2.reg, w0.platforms[p].config, h, NodeAt(w2.nodes, h)) <==> RoutableAt(env, w1.reg, w0.platforms[p].config, h, NodeAt(w1.nodes, h))
    {
      assert NodeAt(w1.nodes, h) == RemovedEntry(NodeAt(w0.nodes, h), id);
      if h in w1.nodes {
        WithoutIdExact(w0.nodes[h].subIDs, id);
        assert id !in w1.nodes[h].subIDs;
        SameRoutable(env, w1.reg, w2.reg, w0.platforms[p].config, h, w1.nodes[h]);
      }
    }
    hide RoutableAt, RemovedEntry;
  }
}
