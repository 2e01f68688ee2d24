/** The trie itself, built and walked in place. */
module AccountMatcher {
  import opened Strings
  import opened RulePrefix
  import opened RuleWinners
  import opened RuleTrie

  class MatcherNode {
    var children: map<string, MatcherNode>
    var headers: seq<string>
    var prefix: string

    constructor ()
      ensures children == map[] && headers == [] && prefix == ""
    {
      children, headers, prefix := map[], [], "";
    }
  }

  predicate Ascending(keys: seq<string>) {
    forall i, j :: 0 <= i < j < |keys| ==> Less(keys[i], keys[j])
  }

  /** Put one more key in its place. */
  method InsertSorted(before: seq<string>, key: string) returns (sorted: seq<string>)
    requires Ascending(before) && key !in before
    ensures Ascending(sorted)
    ensures forall k :: k in sorted <==> k in before || k == key
  {
    hide Less;
    var i := |before|;
    while i > 0 && Less(key, before[i - 1])
      invariant 0 <= i <= |before|
      invariant forall j :: i <= j < |before| ==> Less(key, before[j])
    {
      i := i - 1;
    }
    if i > 0 {
      LessTotal(before[i - 1], key);
      forall j | 0 <= j < i - 1 ensures Less(before[j], key) {
        LessTrans(before[j], before[i - 1], key);
      }
    }
    assert before == before[..i] + before[i..];
    sorted := before[..i] + [key] + before[i..];
  }

  /** The library sort, on keys without repetitions. */
  method SortStrings(keys: set<string>) returns (sorted: seq<string>)
    ensures Ascending(sorted)
    ensures forall k :: k in sorted <==> k in keys
  {
    hide Less, Ascending;
    sorted := [];
    EmptyAscending();
    var todo := keys;
    while todo != {}
      invariant todo <= keys && Ascending(sorted)
      invariant forall k :: k in sorted <==> k in keys && k !in todo
      decreases todo
    {
      var k :| k in todo;
      todo := todo - {k};
      sorted := InsertSorted(sorted, k);
    }
  }

  lemma EmptyAscending()
    ensures Ascending([])
  {
  }

  // ------------------------------------------------------------------
  // The shape of the trie
  // ------------------------------------------------------------------

  /** Every path leads to a node of its own, along child links and only so. */
  ghost predicate Shape<N>(root: N, paths: map<seq<string>, N>, kids: map<N, map<string, N>>) {
    && kids.Keys == paths.Values
    && [] in paths && paths[[]] == root
    && (forall p, q :: p in paths && q in paths && p != q ==> paths[p] != paths[q])
    && (forall p, s :: p in paths && s in kids[paths[p]] ==> p + [s] in paths && paths[p + [s]] == kids[paths[p]][s])
    && (forall p, s :: p + [s] in paths ==> p in paths && s in kids[paths[p]])
  }

  lemma ShapeStep<N>(root: N, paths: map<seq<string>, N>, kids: map<N, map<string, N>>, p: seq<string>, s: string)
    requires Shape(root, paths, kids) && p in paths
    ensures paths[p] in kids
    ensures p + [s] in paths <==> s in kids[paths[p]]
    ensures p + [s] in paths ==> paths[p + [s]] == kids[paths[p]][s]
  {
  }

  lemma ShapeRoot<N>(root: N)
    ensures Shape(root, map[[] := root], map[root := map[]])
  {
    var paths: map<seq<string>, N> := map[[] := root];
    assert [] in paths && paths[[]] in paths.Values;
    forall p: seq<string>, s ensures p + [s] !in paths {
      assert |p + [s]| > 0;
    }
  }

  lemma LastSplits(p: seq<string>, s: string, q: seq<string>, r: string)
    requires p + [s] == q + [r]
    ensures p == q && s == r
  {
    assert p == (p + [s])[..|p|] && q == (q + [r])[..|q|];
    assert s == (p + [s])[|p|] && r == (q + [r])[|q|];
  }

  /** One more node, at the end of a path of its own. */
  function Grown<N>(paths: map<seq<string>, N>, path: seq<string>, seg: string, child: N): map<seq<string>, N> {
    paths[path + [seg] := child]
  }

  function Linked<N>(kids: map<N, map<string, N>>, parent: N, seg: string, child: N): map<N, map<string, N>>
    requires parent in kids
  {
    kids[child := map[]][parent := kids[parent][seg := child]]
  }

  lemma GrownValues<N>(paths: map<seq<string>, N>, path: seq<string>, seg: string, child: N)
    requires path + [seg] !in paths
    ensures Grown(paths, path, seg, child).Values == paths.Values + {child}
  {
    var paths' := Grown(paths, path, seg, child);
    assert path + [seg] in paths' && paths'[path + [seg]] == child;
    forall n | n in paths.Values ensures n in paths'.Values {
      var p :| p in paths && paths[p] == n;
      assert p in paths' && paths'[p] == n;
    }
  }

  lemma LinkedStep<N>(root: N, paths: map<seq<string>, N>, kids: map<N, map<string, N>>, path: seq<string>, seg: string, child: N, p: seq<string>, s: string)
    requires Shape(root, paths, kids) && path in paths && path + [seg] !in paths && child !in paths.Values
    requires var paths', kids' := Grown(paths, path, seg, child), Linked(kids, paths[path], seg, child);
             p in paths' && paths'[p] in kids' && s in kids'[paths'[p]]
    ensures var paths', kids' := Grown(paths, path, seg, child), Linked(kids, paths[path], seg, child);
            p + [s] in paths' && paths'[p + [s]] == kids'[paths'[p]][s]
  {
    if p != path + [seg] && !(p == path && s == seg) {
      assert p in paths && paths[p] in paths.Values;
      ShapeStep(root, paths, kids, p, s);
      assert p != path ==> paths[p] != paths[path];
      hide Shape;
      if p + [s] == path + [seg] {
        LastSplits(p, s, path, seg);
      }
    }
  }

  lemma LinkedBack<N>(root: N, paths: map<seq<string>, N>, kids: map<N, map<string, N>>, path: seq<string>, seg: string, child: N, p: seq<string>, s: string)
    requires Shape(root, paths, kids) && path in paths && path + [seg] !in paths && child !in paths.Values
    requires p + [s] in Grown(paths, path, seg, child)
    ensures var paths', kids' := Grown(paths, path, seg, child), Linked(kids, paths[path], seg, child);
            p in paths' && paths'[p] in kids' && s in kids'[paths'[p]]
  {
    if p + [s] == path + [seg] {
      LastSplits(p, s, path, seg);
    } else {
      assert p in paths && s in kids[paths[p]];
    }
  }

  lemma ShapeAdd<N>(root: N, paths: map<seq<string>, N>, kids: map<N, map<string, N>>, path: seq<string>, seg: string, child: N)
    requires Shape(root, paths, kids) && path in paths && path + [seg] !in paths && child !in paths.Values
    ensures Grown(paths, path, seg, child).Values == paths.Values + {child}
    ensures paths[path] in kids
    ensures Shape(root, Grown(paths, path, seg, child), Linked(kids, paths[path], seg, child))
  {
    var paths', kids' := Grown(paths, path, seg, child), Linked(kids, paths[path], seg, child);
    GrownValues(paths, path, seg, child);
    forall p, s | p in paths' && s in kids'[paths'[p]]
      ensures p + [s] in paths' && paths'[p + [s]] == kids'[paths'[p]][s]
    {
      LinkedStep(root, paths, kids, path, seg, child, p, s);
    }
    forall p, s | p + [s] in paths' ensures p in paths' && s in kids'[paths'[p]] {
      LinkedBack(root, paths, kids, path, seg, child, p, s);
    }
    assert [] in paths' && paths'[[]] == root && kids'.Keys == paths'.Values by {
      assert path + [seg] != [];
    }
    GrownApart(paths, path, seg, child);
    hide Grown, Linked;
  }

  lemma GrownApart<N>(paths: map<seq<string>, N>, path: seq<string>, seg: string, child: N)
    requires child !in paths.Values && forall p, q :: p in paths && q in paths && p != q ==> paths[p] != paths[q]
    ensures var paths' := Grown(paths, path, seg, child);
            forall p, q :: p in paths' && q in paths' && p != q ==> paths'[p] != paths'[q]
  {
    assert forall p :: p in paths ==> paths[p] in paths.Values;
  }

  /** Once a segment is missing, every longer path is. */
  lemma {:induction false} NothingBelow<N>(root: N, paths: map<seq<string>, N>, kids: map<N, map<string, N>>, segments: seq<string>, i: nat, j: nat)
    requires Shape(root, paths, kids) && i < j <= |segments| && segments[..i + 1] !in paths
    ensures segments[..j] !in paths
    decreases j
  {
    hide Shape;
    if j > i + 1 {
      NothingBelow(root, paths, kids, segments, i, j - 1);
      assert segments[..j] == segments[..j - 1] + [segments[j - 1]];
      Missing(root, paths, kids, segments[..j - 1], segments[j - 1]);
    }
  }

  lemma Missing<N>(root: N, paths: map<seq<string>, N>, kids: map<N, map<string, N>>, p: seq<string>, s: string)
    requires Shape(root, paths, kids) && p !in paths
    ensures p + [s] !in paths
  {
  }

  class AccountMatcher {
    const root: MatcherNode
    var wildcard: seq<string>
    /** Every node, by the path leading to it. */
    ghost var paths: map<seq<string>, MatcherNode>

    ghost function Kids(): map<MatcherNode, map<string, MatcherNode>>
      reads `paths, paths.Values
    {
      map n | n in paths.Values :: n.children
    }

    ghost predicate Valid()
      reads `paths, paths.Values
    {
      Shape(root, paths, Kids())
    }

    ghost function TermAt(path: seq<string>): Term
      reads `paths, paths.Values
    {
      if path in paths then Term(paths[path].prefix, paths[path].headers) else NO_TERM
    }

    /** What is held along a path, from the root on. */
    ghost function Terms(segments: seq<string>): (r: seq<Term>)
      reads `paths, paths.Values
      ensures |r| == |segments| + 1 && forall j :: 0 <= j <= |segments| ==> r[j] == TermAt(segments[..j])
    {
      if segments == [] then [TermAt([])]
      else
        var front := segments[..|segments| - 1];
        assert forall j :: 0 <= j < |segments| ==> front[..j] == segments[..j];
        assert segments[..|segments|] == segments;
        Terms(front) + [TermAt(segments)]
    }

    /** The trie holds the rules of the keys given. */
    ghost predicate HoldsKeys(t: Text, keys: set<string>, winners: map<string, Rule>)
      reads `paths, paths.Values
    {
      keys <= winners.Keys && forall path :: path != [] ==> IsTerm(t, keys, winners, path, TermAt(path))
    }

    /** The trie and the wildcard hold exactly the winners. */
    ghost predicate Holds(t: Text, winners: map<string, Rule>)
      reads this, paths.Values
    {
      && HoldsKeys(t, winners.Keys - {"*"}, winners)
      && wildcard == if "*" in winners then winners["*"].headers else []
    }

    constructor ()
      ensures Valid() && fresh(paths.Values) && wildcard == [] && forall path :: TermAt(path) == NO_TERM
    {
      root := new MatcherNode();
      wildcard := [];
      paths := map[[] := root];
      new;
      ShapeRoot(root);
      assert Kids() == map[root := map[]];
    }

    method SetWildcard(headers: seq<string>)
      modifies `wildcard
      ensures wildcard == headers
    {
      wildcard := headers;
    }

    method AddChild(cur: MatcherNode, seg: string, ghost path: seq<string>) returns (child: MatcherNode)
      requires Valid() && path in paths && paths[path] == cur && seg !in cur.children
      modifies `paths, cur`children
      ensures Valid() && fresh(child) && paths == old(paths)[path + [seg] := child]
      ensures forall p :: TermAt(p) == old(TermAt(p))
    {
      hide Shape;
      ghost var kids: map<MatcherNode, map<string, MatcherNode>> := Kids();
      ghost var none: map<string, MatcherNode> := map[];
      ghost var more: map<string, MatcherNode>;
      ShapeStep(root, paths, kids, path, seg);
      child := new MatcherNode();
      ShapeAdd(root, paths, kids, path, seg, child);
      cur.children := cur.children[seg := child];
      paths := paths[path + [seg] := child];
      more := kids[cur][seg := child];
      kids := kids[child := none];
      kids := kids[cur := more];
      assert Kids() == kids;
    }

    method InsertSegments(segments: seq<string>, prefix: string, headers: seq<string>)
      requires Valid()
      modifies `paths, paths.Values
      ensures Valid() && fresh(paths.Values - old(paths.Values))
      ensures forall p :: TermAt(p) == if p == segments then Term(prefix, headers) else old(TermAt(p))
    {
      hide Shape;
      var cur := root;
      RootIsEmptyPath();
      for i := 0 to |segments|
        invariant Valid() && fresh(paths.Values - old(paths.Values))
        invariant segments[..i] in paths && paths[segments[..i]] == cur
        invariant forall p :: TermAt(p) == old(TermAt(p))
      {
        var seg := segments[i];
        assert segments[..i + 1] == segments[..i] + [seg];
        ShapeStep(root, paths, Kids(), segments[..i], seg);
        if seg in cur.children {
          cur := cur.children[seg];
        } else {
          cur := AddChild(cur, seg, segments[..i]);
        }
      }
      assert segments[..|segments|] == segments;
      ghost var kids := Kids();
      PathsDiffer();
      cur.headers := headers;
      cur.prefix := prefix;
      assert Kids() == kids;
    }

    lemma RootIsEmptyPath()
      requires Valid()
      ensures [] in paths && paths[[]] == root
    {
    }

    lemma PathsDiffer()
      requires Valid()
      ensures forall p, q :: p in paths && q in paths && p != q ==> paths[p] != paths[q]
    {
    }

    /** The rule for a request, and its headers. */
    method MatchWithPrefix(t: Text, ghost winners: map<string, Rule>, host: string, path: string) returns (prefix: string, headers: seq<string>)
      requires Valid() && Holds(t, winners)
      ensures Chosen(t, winners, RequestSegments(t, host, path), Term(prefix, headers))
    {
      hide RequestSegments, Shape, Chosen, IsTerm;
      RootIsEmptyPath();
      var segments := RequestSegments(t, host, path);
      ghost var terms := Terms(segments);
      var cur := root;
      prefix, headers := "", [];
      var i := 0;
      while i < |segments|
        invariant 0 <= i <= |segments|
        invariant segments[..i] in paths && paths[segments[..i]] == cur
        invariant Deepest(terms, i, Term(prefix, headers))
      {
        var seg := segments[i];
        assert segments[..i + 1] == segments[..i] + [seg];
        ShapeStep(root, paths, Kids(), segments[..i], seg);
        if seg !in cur.children {
          forall j | i < j <= |segments| ensures segments[..j] !in paths {
            NothingBelow(root, paths, Kids(), segments, i, j);
          }
          break;
        }
        cur := cur.children[seg];
        i := i + 1;
        if cur.headers != [] {
          prefix, headers := cur.prefix, cur.headers;
        }
      }
      assert Deepest(terms, |segments|, Term(prefix, headers));
      DeepestIsChosen(t, winners, winners.Keys - {"*"}, segments, terms, Term(prefix, headers));
      if headers == [] {
        FallbackIsChosen(t, winners, segments);
        if wildcard != [] {
          return "*", wildcard;
        }
      }
    }

    /** Insert the rule of a key above all keys so far. */
    method InsertRule(t: Text, ghost done: set<string>, winners: map<string, Rule>, key: string)
      requires Valid() && HoldsKeys(t, done, winners)
      requires key in winners && forall k :: k in done ==> Less(k, key)
      modifies `paths, paths.Values
      ensures Valid() && fresh(paths.Values - old(paths.Values)) && HoldsKeys(t, done + {key}, winners)
    {
      hide Shape, IsTerm, SplitPrefix, Less;
      InsertSegments(SplitPrefix(t, key), key, winners[key].headers);
      forall path | path != [] ensures IsTerm(t, done + {key}, winners, path, TermAt(path)) {
        IsTermExtends(t, done, winners, key, path, old(TermAt(path)));
      }
    }
  }

  lemma FallbackIsChosen(t: Text, winners: map<string, Rule>, segments: seq<string>)
    requires forall p :: !Applies(t, winners, p, segments)
    ensures var wildcard := if "*" in winners then winners["*"].headers else [];
            Chosen(t, winners, segments, if wildcard != [] then Term("*", wildcard) else NO_TERM)
  {
  }

  lemma HoldsNothing(t: Text, m: AccountMatcher, winners: map<string, Rule>)
    requires forall path :: m.TermAt(path) == NO_TERM
    ensures m.HoldsKeys(t, {}, winners)
  {
  }

  /** The matcher for a list of rules. */
  method BuildAccountMatcher(t: Text, rules: seq<Rule>) returns (m: AccountMatcher)
    ensures m.Valid() && m.Holds(t, Collect(t, rules))
    ensures fresh(m) && fresh(m.paths.Values)
  {
    hide Collect, SplitPrefix, Less, Shape, IsTerm, AccountMatcher.HoldsKeys, AccountMatcher.Valid, AccountMatcher.TermAt;
    var ws := CollectWinners(t, rules);
    var keys := SortStrings(ws.Keys);
    m := new AccountMatcher();
    HoldsNothing(t, m, ws);
    ghost var done := {};
    for i := 0 to |keys|
      invariant m.Valid() && fresh(m) && fresh(m.paths.Values)
      invariant forall k :: k in done <==> k in keys[..i] && k != "*"
      invariant m.HoldsKeys(t, done, ws)
      invariant m.wildcard == if "*" in keys[..i] then ws["*"].headers else []
    {
      var key := keys[i];
      assert keys[..i + 1] == keys[..i] + [key];
      if key == "*" {
        m.SetWildcard(ws[key].headers);
        continue;
      }
      m.InsertRule(t, done, ws, key);
      done := done + {key};
    }
    assert keys[..|keys|] == keys;
    assert done == ws.Keys - {"*"};
  }
}
