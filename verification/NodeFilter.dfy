/** Which pool nodes a platform may route to. */
module NodeFilter {
  import opened Types

  type SubId = int
  type Name = int
  type Tag = int
  type Regex = int
  type Region = Option<int>

  /** Fixed pure functions of the outside world: regular expressions on
      "<subscription name>/<tag>" candidates, and the GeoIP database. */
  datatype Env = Env(matches: (Regex, Name, Tag) -> bool, geo: Addr -> Region)

  datatype TagFilter = TagFilter(any: seq<Regex>, must: seq<Regex>, mustNot: seq<Regex>)

  datatype RegionFilter = Include(region: int) | Exclude(region: int)

  datatype Managed = Managed(tags: seq<Tag>, evicted: bool)

  /** A refresh attempt in flight, with the configuration version it read. */
  datatype Attempt = Attempt(seqNo: int, version: int)

  datatype Subscription = Subscription(
    name: Name,
    enabled: bool,
    incremental: bool,
    managed: map<Hash, Managed>,
    configVersion: int,
    attemptSeq: int,
    lastAppliedSeq: int,
    inFlight: set<Attempt>)

  type Registry = map<SubId, Subscription>

  datatype Entry = Entry(
    subIDs: seq<SubId>,
    raw: int,
    circuitOpen: bool,
    failures: int,
    egressIP: Addr,
    egressRegion: Region,
    hasLatency: bool,
    hasOutbound: bool,
    hasError: bool)

  datatype PlatformFilter = PlatformFilter(tags: TagFilter, regions: seq<RegionFilter>)

  // ------------------------------------------------------------------
  // The filter, as a condition
  // ------------------------------------------------------------------

  /** The subscription is registered and still holds the node. */
  predicate Holds(reg: Registry, id: SubId, h: Hash) {
    id in reg && h in reg[id].managed && !reg[id].managed[h].evicted
  }

  predicate HoldsEnabled(reg: Registry, id: SubId, h: Hash) {
    Holds(reg, id, h) && reg[id].enabled
  }

  predicate MatchesAny(env: Env, rules: seq<Regex>, name: Name, tag: Tag) {
    exists i :: 0 <= i < |rules| && env.matches(rules[i], name, tag)
  }

  predicate MatchesAll(env: Env, rules: seq<Regex>, name: Name, tag: Tag) {
    forall i :: 0 <= i < |rules| ==> env.matches(rules[i], name, tag)
  }

  /** Some enabled holder lists the node under the tag. */
  ghost predicate Candidate(reg: Registry, subIDs: seq<SubId>, h: Hash, name: Name, tag: Tag) {
    exists id :: id in subIDs && HoldsEnabled(reg, id, h) && reg[id].name == name && tag in reg[id].managed[h].tags
  }

  predicate Positive(env: Env, f: TagFilter, name: Name, tag: Tag) {
    MatchesAll(env, f.must, name, tag) && (f.any == [] || MatchesAny(env, f.any, name, tag))
  }

  ghost predicate TagsPass(env: Env, reg: Registry, f: TagFilter, h: Hash, subIDs: seq<SubId>) {
    && (exists id :: id in subIDs && HoldsEnabled(reg, id, h))
    && (forall name, tag :: Candidate(reg, subIDs, h, name, tag) ==> !MatchesAny(env, f.mustNot, name, tag))
    && ((f.any == [] && f.must == []) || exists name, tag :: Candidate(reg, subIDs, h, name, tag) && Positive(env, f, name, tag))
  }

  /** Known, included if anything is included, and not excluded. */
  ghost predicate RegionPasses(region: Region, filters: seq<RegionFilter>) {
    filters == [] ||
    (&& region.Some?
     && ((exists r :: Include(r) in filters) ==> Include(region.value) in filters)
     && Exclude(region.value) !in filters)
  }

  function RegionOf(env: Env, e: Entry): Region {
    if e.egressRegion.Some? then e.egressRegion
    else if !e.egressIP.IsValid() then None
    else env.geo(e.egressIP)
  }

  ghost predicate Routable(env: Env, reg: Registry, p: PlatformFilter, h: Hash, e: Entry) {
    && (exists id :: id in e.subIDs && HoldsEnabled(reg, id, h))
    && !e.circuitOpen && e.hasOutbound
    && TagsPass(env, reg, p.tags, h, e.subIDs)
    && e.egressIP.IsValid()
    && RegionPasses(RegionOf(env, e), p.regions)
    && e.hasLatency
  }

  // ------------------------------------------------------------------
  // The filter, as evaluated
  // ------------------------------------------------------------------

  method MatchRegionFilter(region: Region, filters: seq<RegionFilter>) returns (ok: bool)
    ensures ok == RegionPasses(region, filters)
  {
    if |filters| == 0 {
      return true;
    }
    if region.None? {
      return false;
    }
    var included, hasInclude := false, false;
    for i := 0 to |filters|
      invariant hasInclude == exists r :: Include(r) in filters[..i]
      invariant included == (Include(region.value) in filters[..i])
      invariant Exclude(region.value) !in filters[..i]
    {
      var filter := filters[i];
      assert filters[..i + 1] == filters[..i] + [filter];
      if filter.Exclude? {
        if region.value == filter.region {
          return false;
        }
        continue;
      }
      hasInclude := true;
      assert Include(filter.region) in filters[..i + 1];
      if region.value == filter.region {
        included := true;
      }
    }
    assert filters[..|filters|] == filters;
    return !(hasInclude && !included);
  }

  method MatchOneSubscription(env: Env, f: TagFilter, name: Name, tags: seq<Tag>) returns (rejected: bool, positive: bool)
    ensures rejected == exists tag :: tag in tags && MatchesAny(env, f.mustNot, name, tag)
    ensures !rejected ==> positive == exists tag :: tag in tags && Positive(env, f, name, tag)
  {
    positive := false;
    for i := 0 to |tags|
      invariant forall tag :: tag in tags[..i] ==> !MatchesAny(env, f.mustNot, name, tag)
      invariant positive == exists tag :: tag in tags[..i] && Positive(env, f, name, tag)
    {
      var tag := tags[i];
      assert tags[..i + 1] == tags[..i] + [tag];
      if MatchesAny(env, f.mustNot, name, tag) {
        return true, positive;
      }
      if !positive && MatchesAll(env, f.must, name, tag) && (|f.any| == 0 || MatchesAny(env, f.any, name, tag)) {
        assert Positive(env, f, name, tag);
        positive := true;
      }
    }
    assert tags[..|tags|] == tags;
    return false, positive;
  }

  lemma OneMoreSubscription(reg: Registry, subIDs: seq<SubId>, i: nat, h: Hash, name: Name, tag: Tag)
    requires i < |subIDs|
    ensures Candidate(reg, subIDs[..i + 1], h, name, tag) <==>
              Candidate(reg, subIDs[..i], h, name, tag) ||
              (HoldsEnabled(reg, subIDs[i], h) && reg[subIDs[i]].name == name && tag in reg[subIDs[i]].managed[h].tags)
  {
    assert subIDs[..i + 1] == subIDs[..i] + [subIDs[i]];
  }

  method MatchTagFilter(env: Env, reg: Registry, f: TagFilter, h: Hash, subIDs: seq<SubId>) returns (ok: bool)
    ensures ok == TagsPass(env, reg, f, h, subIDs)
  {
    var hasEnabled, matched := false, false;
    for i := 0 to |subIDs|
      invariant hasEnabled == exists id :: id in subIDs[..i] && HoldsEnabled(reg, id, h)
      invariant forall name, tag :: Candidate(reg, subIDs[..i], h, name, tag) ==> !MatchesAny(env, f.mustNot, name, tag)
      invariant matched == exists name, tag :: Candidate(reg, subIDs[..i], h, name, tag) && Positive(env, f, name, tag)
    {
      hide MatchesAny, Positive, Candidate;
      var id := subIDs[i];
      assert subIDs[..i + 1] == subIDs[..i] + [id];
      forall name, tag
        ensures Candidate(reg, subIDs[..i + 1], h, name, tag) <==>
                  Candidate(reg, subIDs[..i], h, name, tag) ||
                  (HoldsEnabled(reg, id, h) && reg[id].name == name && tag in reg[id].managed[h].tags)
      {
        OneMoreSubscription(reg, subIDs, i, h, name, tag);
      }
      if id !in reg || h !in reg[id].managed || reg[id].managed[h].evicted || !reg[id].enabled {
        continue;
      }
      hasEnabled := true;
      var rejected, positive := MatchOneSubscription(env, f, reg[id].name, reg[id].managed[h].tags);
      if rejected {
        Whole(reg, subIDs, i + 1, h);
        return false;
      }
      matched := matched || positive;
    }
    assert subIDs[..|subIDs|] == subIDs;
    if |f.any| == 0 && |f.must| == 0 {
      return hasEnabled;
    }
    ok := matched;
  }

  /** A candidate of the first subscriptions is a candidate. */
  lemma Whole(reg: Registry, subIDs: seq<SubId>, n: nat, h: Hash)
    requires n <= |subIDs|
    ensures forall name, tag :: Candidate(reg, subIDs[..n], h, name, tag) ==> Candidate(reg, subIDs, h, name, tag)
  {
  }

  method HasEnabledSubscription(reg: Registry, h: Hash, subIDs: seq<SubId>) returns (ok: bool)
    ensures ok == exists id :: id in subIDs && HoldsEnabled(reg, id, h)
  {
    for i := 0 to |subIDs|
      invariant forall id :: id in subIDs[..i] ==> !HoldsEnabled(reg, id, h)
    {
      assert subIDs[..i + 1] == subIDs[..i] + [subIDs[i]];
      if HoldsEnabled(reg, subIDs[i], h) {
        return true;
      }
    }
    assert subIDs[..|subIDs|] == subIDs;
    return false;
  }

  method EvaluateNode(env: Env, reg: Registry, p: PlatformFilter, h: Hash, e: Entry) returns (ok: bool)
    ensures ok == Routable(env, reg, p, h, e)
  {
    hide TagsPass, RegionPasses, HoldsEnabled;
    var enabled := HasEnabledSubscription(reg, h, e.subIDs);
    if !enabled {
      return false;
    }
    if e.circuitOpen || !e.hasOutbound {
      return false;
    }
    var tagged := MatchTagFilter(env, reg, p.tags, h, e.subIDs);
    if !tagged {
      return false;
    }
    if !e.egressIP.IsValid() {
      return false;
    }
    if |p.regions| > 0 {
      var region := MatchRegionFilter(RegionOf(env, e), p.regions);
      if !region {
        return false;
      }
    } else {
      NoRegionFilter(RegionOf(env, e));
      assert p.regions == [];
    }
    return e.hasLatency;
  }

  lemma NoRegionFilter(region: Region)
    ensures RegionPasses(region, [])
  {
  }
}
