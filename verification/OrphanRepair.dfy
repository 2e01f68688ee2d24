/** The start-up repair of the cache database: five ordered deletions that remove
    every row whose references do not resolve. */
module OrphanRepair {
  import opened Types

  type Id = int

  datatype SubNode = SubNode(subscription: Id, node: Hash, evicted: bool)
  datatype NodeLatency = NodeLatency(node: Hash, domain: Id)
  datatype LeaseRow = LeaseRow(platform: Id, account: Id, node: Hash)

  /** The cache tables, as the sets of their rows' references. */
  datatype Db = Db(
    subNodes: set<SubNode>,
    statics: set<Hash>,
    dynamics: set<Hash>,
    latencies: set<NodeLatency>,
    leases: set<LeaseRow>)

  /** What the other database holds. */
  datatype Config = Config(subscriptions: set<Id>, platforms: set<Id>)

  /** Every reference resolves, and every node is held by some subscription that
      did not evict it. */
  ghost predicate Consistent(c: Config, d: Db) {
    && (forall r :: r in d.subNodes ==> r.subscription in c.subscriptions && (!r.evicted ==> r.node in d.statics))
    && (forall h :: h in d.statics ==> exists r :: r in d.subNodes && r.node == h && !r.evicted)
    && (forall h :: h in d.dynamics ==> h in d.statics)
    && (forall r :: r in d.latencies ==> r.node in d.statics)
    && (forall r :: r in d.leases ==> r.platform in c.platforms && r.node in d.statics)
  }

  predicate Within(a: Db, b: Db) {
    && a.subNodes <= b.subNodes && a.statics <= b.statics && a.dynamics <= b.dynamics
    && a.latencies <= b.latencies && a.leases <= b.leases
  }

  function HeldNodes(subNodes: set<SubNode>): set<Hash> {
    set r | r in subNodes && !r.evicted :: r.node
  }

  class Cache {
    var subNodes: set<SubNode>
    var statics: set<Hash>
    var dynamics: set<Hash>
    var latencies: set<NodeLatency>
    var leases: set<LeaseRow>

    ghost function Rows(): Db
      reads this
    {
      Db(subNodes, statics, dynamics, latencies, leases)
    }

    /** After the repair the database is consistent, and nothing more was deleted
        than had to be: it holds every consistent part of what was there. */
    method RepairConsistency(c: Config)
      modifies this
      ensures Consistent(c, Rows()) && Within(Rows(), old(Rows()))
      ensures forall d :: Consistent(c, d) && Within(d, old(Rows())) ==> Within(d, Rows())
    {
      ghost var was := Rows();
      subNodes := set r | r in subNodes && r.subscription in c.subscriptions && (r.evicted || r.node in statics);
      statics := set h | h in statics && h in HeldNodes(subNodes);
      dynamics := set h | h in dynamics && h in statics;
      latencies := set r | r in latencies && r.node in statics;
      leases := set r | r in leases && r.platform in c.platforms && r.node in statics;
      forall d | Consistent(c, d) && Within(d, was) ensures Within(d, Rows()) {
        forall h | h in d.statics ensures h in statics {
          var r :| r in d.subNodes && r.node == h && !r.evicted;
          assert r in subNodes;
        }
      }
    }
  }

  /** A second repair finds nothing to delete. */
  lemma RepairedStays(c: Config, first: Db, second: Db)
    requires Consistent(c, first) && Within(second, first)
    requires forall d :: Consistent(c, d) && Within(d, first) ==> Within(d, second)
    ensures second == first
  {
    assert Within(first, first);
    assert Within(first, second);
  }

  /** The first two deletions cannot be swapped: a node held only by a row of a
      deleted subscription would survive with nobody holding it. */
  lemma OrderMatters(c: Config, h: Hash, sub: Id)
    requires sub !in c.subscriptions
    ensures var subNodes, statics := {SubNode(sub, h, false)}, {h};
            var staticsFirst := set n | n in statics && n in HeldNodes(subNodes);
            var subNodesThen := set r | r in subNodes && r.subscription in c.subscriptions && (r.evicted || r.node in staticsFirst);
            staticsFirst == {h} && subNodesThen == {} && !Consistent(c, Db(subNodesThen, staticsFirst, {}, {}, {}))
  {
    var r := SubNode(sub, h, false);
    var subNodes := {r};
    assert r.node in HeldNodes(subNodes);
    assert h in {h};
  }
}
