/** Power of two choices over the routable view. */
module RandomRoute {
  import opened Types
  import opened RoutableView

  datatype Policy = PreferLowLatency | PreferIdleIP | Balanced

  /** What scoring looks at: the leases on a node's address, and the latencies two
      nodes are compared by (zero when they cannot be compared). */
  datatype Load = Load(policy: Policy, leases: Hash -> int, latencies: (Hash, Hash) -> (int, int))

  function Score(policy: Policy, leases: int, latency: int): int {
    if latency <= 0 then leases
    else
      match policy
      case PreferLowLatency => latency
      case PreferIdleIP => leases
      case Balanced => (leases + 1) * latency
  }

  /** The nodes a series of draws picks. */
  ghost function Drawn(flat: seq<Hash>, draws: seq<int>): seq<Hash>
    requires forall i :: 0 <= i < |draws| ==> 0 <= draws[i] < |flat|
  {
    seq(|draws|, i requires 0 <= i < |draws| => flat[draws[i]])
  }

  /** The first drawn node other than the very first one. */
  ghost predicate IsRival(drawn: seq<Hash>, h2: Hash) {
    && |drawn| > 0
    && (h2 == drawn[0] ==> forall i :: 0 <= i < |drawn| ==> drawn[i] == drawn[0])
    && (h2 != drawn[0] ==> exists i :: 0 < i < |drawn| && drawn[i] == h2 && forall j :: 0 <= j < i ==> drawn[j] == drawn[0])
  }

  /** r scores lowest of the two; the second wins a tie. */
  ghost predicate Preferred(load: Load, h1: Hash, h2: Hash, r: Hash) {
    if h1 == h2 then r == h1
    else
      var (l1, l2) := load.latencies(h1, h2);
      var s1, s2 := Score(load.policy, load.leases(h1), l1), Score(load.policy, load.leases(h2), l2);
      (r == h1 && s1 < s2) || (r == h2 && s2 <= s1)
  }

  lemma RivalUnique(drawn: seq<Hash>, a: Hash, b: Hash)
    requires IsRival(drawn, a) && IsRival(drawn, b)
    ensures a == b
  {
    if a != drawn[0] && b != drawn[0] {
      var i :| 0 < i < |drawn| && drawn[i] == a && forall j :: 0 <= j < i ==> drawn[j] == drawn[0];
      var k :| 0 < k < |drawn| && drawn[k] == b && forall j :: 0 <= j < k ==> drawn[j] == drawn[0];
      assert !(i < k) && !(k < i);
    }
  }

  /** The choice is determined, and always a routable node. */
  lemma ChoiceDetermined(load: Load, drawn: seq<Hash>, members: set<Hash>, h2: Hash, h2': Hash, r: Hash, r': Hash)
    requires IsRival(drawn, h2) && IsRival(drawn, h2') && forall i :: 0 <= i < |drawn| ==> drawn[i] in members
    requires Preferred(load, drawn[0], h2, r) && Preferred(load, drawn[0], h2', r')
    ensures r == r' && r in members
  {
    RivalUnique(drawn, h2, h2');
  }

  /** r is what the first draw and its rival leave. */
  ghost predicate BestOfTwo(load: Load, drawn: seq<Hash>, r: Hash)
    requires |drawn| > 0
  {
    exists h2 :: IsRival(drawn, h2) && Preferred(load, drawn[0], h2, r)
  }

  lemma OnlyOne(load: Load, drawn: seq<Hash>, h: Hash)
    requires |drawn| > 0 && forall i :: 0 <= i < |drawn| ==> drawn[i] == h
    ensures BestOfTwo(load, drawn, h)
  {
    assert IsRival(drawn, h);
  }

  lemma RivalFound(load: Load, drawn: seq<Hash>, at: nat, r: Hash)
    requires 0 < at < |drawn| && drawn[at] != drawn[0] && forall j :: 0 <= j < at ==> drawn[j] == drawn[0]
    requires Preferred(load, drawn[0], drawn[at], r)
    ensures BestOfTwo(load, drawn, r)
  {
    assert IsRival(drawn, drawn[at]);
  }

  lemma PreferLower(load: Load, h1: Hash, h2: Hash, r: Hash)
    requires h1 != h2
    requires var (l1, l2) := load.latencies(h1, h2);
             r == if Score(load.policy, load.leases(h1), l1) < Score(load.policy, load.leases(h2), l2) then h1 else h2
    ensures Preferred(load, h1, h2, r)
  {
  }

  /** draws: what the generator yields, were it asked five times. */
  method RandomRoute(view: View, draws: seq<int>, load: Load) returns (r: Option<Hash>)
    requires view.Valid() && |draws| == 5
    requires view.size > 0 ==> forall i :: 0 <= i < |draws| ==> 0 <= draws[i] < view.size
    ensures r.None? <==> view.Members() == {}
    ensures r.Some? ==>
              && view.size > 0
              && var drawn := Drawn(Flat(view.shards[..]), draws);
                 r.value in view.Members() && BestOfTwo(load, drawn, r.value)
  {
    view.SizeIsCardinality();
    if view.size == 0 {
      return None;
    }
    ghost var flat := Flat(view.shards[..]);
    ghost var drawn := Drawn(flat, draws);
    hide Flat, Preferred, BestOfTwo, Score, View.Valid, View.Members;
    var h1, ok := view.RandomPick(draws[0]);
    if view.size == 1 {
      OnlyOne(load, drawn, h1);
      return Some(h1);
    }
    var h2, ok2 := view.RandomPick(draws[1]);
    ghost var at := 1;
    if h2 == h1 {
      h2, at := Redraw(view, draws, h1);
      if h2 == h1 {
        OnlyOne(load, drawn, h1);
        return Some(h1);
      }
    }
    var (lat1, lat2) := load.latencies(h1, h2);
    var selected := h2;
    if Score(load.policy, load.leases(h1), lat1) < Score(load.policy, load.leases(h2), lat2) {
      selected := h1;
    }
    PreferLower(load, h1, h2, selected);
    RivalFound(load, drawn, at, selected);
    return Some(selected);
  }

  /** Up to three more draws for a node other than the first. */
  method Redraw(view: View, draws: seq<int>, h1: Hash) returns (h2: Hash, ghost at: nat)
    requires view.Valid() && |draws| == 5 && view.size > 0
    requires forall i :: 0 <= i < |draws| ==> 0 <= draws[i] < view.size
    requires forall j :: 0 <= j < 2 ==> Flat(view.shards[..])[draws[j]] == h1
    ensures 0 < at < |draws| && Flat(view.shards[..])[draws[at]] == h2 && h2 in view.Members()
    ensures forall j :: 0 <= j < at ==> Flat(view.shards[..])[draws[j]] == h1
    ensures h2 == h1 ==> forall j :: 0 <= j < |draws| ==> Flat(view.shards[..])[draws[j]] == h1
  {
    ghost var flat := Flat(view.shards[..]);
    view.SizeIsCardinality();
    hide Flat, View.Valid, View.Members;
    for i := 0 to 3
      invariant forall j :: 0 <= j < i + 2 ==> flat[draws[j]] == h1
    {
      var candidate, ok := view.RandomPick(draws[i + 2]);
      if candidate != h1 {
        return candidate, i + 2;
      }
    }
    return h1, 4;
  }
}
