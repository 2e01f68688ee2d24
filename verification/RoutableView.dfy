/** The set of routable nodes: sixty-four shards, each a slice with an index into
    it, giving constant-time add, remove and random pick. */
module RoutableView {
  import opened Types
  import opened FiniteSets

  const NUM_SHARDS := 64

  datatype Shard = Shard(nodes: seq<Hash>, index: map<Hash, int>) {
    /** Slice and index are inverse to one another. */
    ghost predicate Valid() {
      && (forall i :: 0 <= i < |nodes| ==> nodes[i] in index && index[nodes[i]] == i)
      && (forall h :: h in index ==> 0 <= index[h] < |nodes| && nodes[index[h]] == h)
    }
  }

  const EMPTY_SHARD := Shard([], map[])

  function ShardFor(h: Hash): int {
    h.lead % NUM_SHARDS
  }

  /** The members, shard by shard, in the order a scan meets them. */
  ghost function Flat(shards: seq<Shard>): seq<Hash> {
    if shards == [] then [] else shards[0].nodes + Flat(shards[1..])
  }

  /** Every shard is consistent and holds hashes of its own only. */
  ghost predicate Placed(shards: seq<Shard>, first: int) {
    forall i :: 0 <= i < |shards| ==>
      shards[i].Valid() && forall h :: h in shards[i].index ==> ShardFor(h) == first + i
  }

  // ------------------------------------------------------------------
  // The scan order lists every member exactly once
  // ------------------------------------------------------------------

  lemma PlacedRest(shards: seq<Shard>, first: int)
    requires Placed(shards, first) && shards != []
    ensures Placed(shards[1..], first + 1)
  {
    var rest := shards[1..];
    hide ShardFor;
    forall i | 0 <= i < |rest| ensures rest[i].Valid() && forall h :: h in rest[i].index ==> ShardFor(h) == first + 1 + i {
      assert rest[i] == shards[i + 1];
    }
  }

  lemma NodesIndexed(s: Shard, h: Hash)
    requires s.Valid()
    ensures h in s.nodes <==> h in s.index
  {
  }

  lemma {:induction false} FlatMembers(shards: seq<Shard>, first: int, h: Hash)
    requires Placed(shards, first)
    ensures h in Flat(shards) <==> HeldAt(shards, ShardFor(h) - first, h)
    decreases shards
  {
    if shards != [] {
      PlacedRest(shards, first);
      FlatMembers(shards[1..], first + 1, h);
      assert shards[0].Valid() && (h in shards[0].index ==> ShardFor(h) == first);
      NodesIndexed(shards[0], h);
      HeldRest(shards, ShardFor(h) - first, h);
      hide Placed, Shard.Valid, ShardFor, HeldAt;
    }
  }

  predicate HeldAt(shards: seq<Shard>, i: int, h: Hash) {
    0 <= i < |shards| && h in shards[i].index
  }

  lemma HeldRest(shards: seq<Shard>, i: int, h: Hash)
    requires shards != []
    ensures HeldAt(shards, i, h) <==> (i == 0 && h in shards[0].index) || HeldAt(shards[1..], i - 1, h)
  {
  }

  lemma StillPlaced(shards: seq<Shard>, i: nat, s: Shard)
    requires Placed(shards, 0) && i < |shards| && s.Valid() && forall h :: h in s.index ==> ShardFor(h) == i
    ensures Placed(shards[i := s], 0)
  {
    hide Shard.Valid, ShardFor;
  }

  lemma {:induction false} FlatDistinct(shards: seq<Shard>, first: int)
    requires Placed(shards, first)
    ensures Distinct(Flat(shards))
    decreases shards
  {
    if shards != [] {
      var rest := shards[1..];
      PlacedRest(shards, first);
      FlatDistinct(rest, first + 1);
      forall i, j | 0 <= i < |shards[0].nodes| && 0 <= j < |Flat(rest)|
        ensures shards[0].nodes[i] != Flat(rest)[j]
      {
        assert Flat(rest)[j] in Flat(rest);
        FlatMembers(rest, first + 1, Flat(rest)[j]);
      }
    }
  }

  lemma {:induction false} FlatUpdate(shards: seq<Shard>, i: nat, s: Shard)
    requires i < |shards|
    ensures |Flat(shards[i := s])| == |Flat(shards)| - |shards[i].nodes| + |s.nodes|
    decreases shards
  {
    if i > 0 {
      assert shards[i := s][1..] == shards[1..][i - 1 := s];
      FlatUpdate(shards[1..], i - 1, s);
    } else {
      assert shards[i := s][1..] == shards[1..];
    }
  }

  /** Skipping the shards before i skips exactly their members. */
  lemma {:induction false} FlatSplit(shards: seq<Shard>, i: nat)
    requires i <= |shards|
    ensures Flat(shards) == Flat(shards[..i]) + Flat(shards[i..])
    decreases shards
  {
    if i > 0 {
      assert shards[..i][1..] == shards[1..][..i - 1];
      assert shards[i..] == shards[1..][i - 1..];
      FlatSplit(shards[1..], i - 1);
    } else {
      assert shards[..0] == [] && shards[0..] == shards;
    }
  }

  lemma {:induction false} FlatEmpty(shards: seq<Shard>)
    requires forall i :: 0 <= i < |shards| ==> shards[i] == EMPTY_SHARD
    ensures Flat(shards) == []
  {
    if shards != [] {
      FlatEmpty(shards[1..]);
    }
  }

  /** Random targets and members correspond one to one: drawing a target
      uniformly draws a member uniformly. */
  lemma TargetsAreMembers(shards: seq<Shard>, size: int)
    requires Placed(shards, 0) && |shards| == NUM_SHARDS && size == |Flat(shards)|
    ensures forall h :: h in shards[ShardFor(h)].index <==> exists target :: 0 <= target < size && Flat(shards)[target] == h
    ensures forall t, u :: 0 <= t < u < size ==> Flat(shards)[t] != Flat(shards)[u]
    ensures |set h | h in Flat(shards)| == size
  {
    FlatDistinct(shards, 0);
    DistinctCard(Flat(shards));
    forall h ensures h in Flat(shards) <==> h in shards[ShardFor(h)].index {
      FlatMembers(shards, 0, h);
    }
  }

  /** Remove from one shard, the last node taking the freed position. */
  method SwapRemove(s: Shard, h: Hash) returns (r: Shard)
    requires s.Valid() && h in s.index
    ensures r.Valid() && r.index.Keys == s.index.Keys - {h} && |r.nodes| == |s.nodes| - 1
    ensures forall i :: 0 <= i < |r.nodes| ==> r.nodes[i] == if i == s.index[h] then s.nodes[|s.nodes| - 1] else s.nodes[i]
  {
    var idx := s.index[h];
    var last := |s.nodes| - 1;
    var nodes, index := s.nodes, s.index;
    if idx != last {
      nodes := nodes[idx := nodes[last]];
      index := index[nodes[idx] := idx];
    }
    r := Shard(nodes[..last], index - {h});
    forall g | g in r.index
      ensures 0 <= r.index[g] < last && r.nodes[r.index[g]] == g
    {
      assert g in s.index && s.nodes[s.index[g]] == g;
    }
  }

  class View {
    const shards: array<Shard>
    var size: int

    ghost predicate Valid()
      reads this, shards
    {
      && shards.Length == NUM_SHARDS
      && Placed(shards[..], 0)
      && size == |Flat(shards[..])|
    }

    /** The set the view stands for. */
    ghost function Members(): set<Hash>
      reads this, shards
    {
      set h | h in Flat(shards[..])
    }

    constructor ()
      ensures Valid() && Members() == {} && fresh(shards)
    {
      shards := new Shard[NUM_SHARDS](_ => EMPTY_SHARD);
      size := 0;
      new;
      FlatEmpty(shards[..]);
    }

    /** The members are the ones their own shard has an index for. */
    lemma MembersAt(h: Hash)
      requires Valid()
      ensures h in Members() <==> h in shards[ShardFor(h)].index
    {
      FlatMembers(shards[..], 0, h);
    }

    lemma SizeIsCardinality()
      requires Valid()
      ensures size == |Members()|
    {
      TargetsAreMembers(shards[..], size);
    }

    /** Replacing one shard by a consistent one. */
    twostate lemma ShardReplaced(i: int)
      requires old(Valid()) && shards.Length == NUM_SHARDS && 0 <= i < NUM_SHARDS
      requires shards[..] == old(shards[..])[i := shards[i]]
      requires shards[i].Valid() && forall h :: h in shards[i].index ==> ShardFor(h) == i
      requires size == old(size) + |shards[i].nodes| - old(|shards[i].nodes|)
      ensures Valid()
      ensures forall h :: h in Members() <==> if ShardFor(h) == i then h in shards[i].index else h in old(Members())
    {
      FlatUpdate(old(shards[..]), i, shards[i]);
      StillPlaced(old(shards[..]), i, shards[i]);
      hide Placed;
      forall h ensures h in Members() <==> if ShardFor(h) == i then h in shards[i].index else h in old(Members()) {
        FlatMembers(shards[..], 0, h);
        FlatMembers(old(shards[..]), 0, h);
        hide Flat;
      }
    }

    /** The members of one shard, before. */
    twostate lemma OldMembers(i: int)
      requires old(Valid()) && 0 <= i < NUM_SHARDS
      ensures forall h :: ShardFor(h) == i ==> (h in old(Members()) <==> h in old(shards[i].index))
    {
      forall h | ShardFor(h) == i ensures h in old(Members()) <==> h in old(shards[i].index) {
        FlatMembers(old(shards[..]), 0, h);
      }
    }

    method Add(h: Hash)
      requires Valid()
      modifies `size, shards
      ensures Valid() && Members() == old(Members()) + {h}
    {
      var i := ShardFor(h);
      var s := shards[i];
      MembersAt(h);
      if h in s.index {
        return;
      }
      shards[i] := Shard(s.nodes + [h], s.index[h := |s.nodes|]);
      size := size + 1;
      ShardReplaced(i);
      OldMembers(i);
      hide Flat, Placed;
    }

    method Remove(h: Hash)
      requires Valid()
      modifies `size, shards
      ensures Valid() && Members() == old(Members()) - {h}
    {
      var i := ShardFor(h);
      var s := shards[i];
      MembersAt(h);
      if h !in s.index {
        return;
      }
      shards[i] := SwapRemove(s, h);
      size := size - 1;
      ShardReplaced(i);
      OldMembers(i);
      hide Flat, Placed;
    }

    method Contains(h: Hash) returns (r: bool)
      requires Valid()
      ensures r == (h in Members())
    {
      MembersAt(h);
      return h in shards[ShardFor(h)].index;
    }

    method Clear()
      requires Valid()
      modifies `size, shards
      ensures Valid() && Members() == {}
    {
      for i := 0 to NUM_SHARDS
        invariant forall k :: 0 <= k < i ==> shards[k] == EMPTY_SHARD
      {
        shards[i] := EMPTY_SHARD;
      }
      size := 0;
      FlatEmpty(shards[..]);
    }

    /** The scan behind a random pick; target is the draw in [0, size). */
    method RandomPick(target: int) returns (h: Hash, ok: bool)
      requires Valid() && (size > 0 ==> 0 <= target < size)
      ensures ok <==> Members() != {}
      ensures ok ==> h == Flat(shards[..])[target] && h in Members()
      ensures !ok ==> h == ZERO_HASH
    {
      SizeIsCardinality();
      if size == 0 {
        return ZERO_HASH, false;
      }
      var left := target;
      for i := 0 to NUM_SHARDS
        invariant 0 <= left == target - |Flat(shards[..i])|
        invariant left < |Flat(shards[i..])|
      {
        assert shards[i..][0] == shards[i] && shards[i..][1..] == shards[i + 1..];
        assert shards[..i + 1] == shards[..i] + [shards[i]];
        FlatSplit(shards[..], i);
        assert shards[..][..i] == shards[..i] && shards[..][i..] == shards[i..];
        FlatSplit(shards[..i + 1], i);
        assert shards[..i + 1][..i] == shards[..i] && shards[..i + 1][i..] == [shards[i]];
        var n := |shards[i].nodes|;
        if left < n {
          assert Flat(shards[i..])[left] == shards[i].nodes[left];
          return shards[i].nodes[left], true;
        }
        left := left - n;
      }
      assert false;
      return ZERO_HASH, false;
    }
  }
}
