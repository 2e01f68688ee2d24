/** The segment trie account rules are matched with, and the scan over all rules
    it stands for. */
module RuleTrie {
  import opened Types
  import opened Strings
  import opened RulePrefix
  import opened RuleWinners

  /** What a trie node carries; no headers means no rule ends there. */
  datatype Term = Term(prefix: string, headers: seq<string>)

  const NO_TERM := Term("", [])

  // ------------------------------------------------------------------
  // The scan the trie stands for
  // ------------------------------------------------------------------

  /** The rule carries headers, and no greater prefix has the same segments. */
  ghost predicate Effective(t: Text, winners: map<string, Rule>, p: string) {
    && p in winners && p != "*" && winners[p].headers != []
    && forall q :: q in winners && q != "*" && SplitPrefix(t, q) == SplitPrefix(t, p) ==> !Less(p, q)
  }

  ghost predicate Applies(t: Text, winners: map<string, Rule>, p: string, segments: seq<string>) {
    Effective(t, winners, p) && SplitPrefix(t, p) <= segments
  }

  /** The longest applicable rule; failing that the wildcard; failing that none. */
  ghost predicate Chosen(t: Text, winners: map<string, Rule>, segments: seq<string>, r: Term) {
    if exists p :: Applies(t, winners, p, segments) then
      && Applies(t, winners, r.prefix, segments) && r.headers == winners[r.prefix].headers
      && forall p :: Applies(t, winners, p, segments) ==> |SplitPrefix(t, p)| <= |SplitPrefix(t, r.prefix)|
    else if "*" in winners && winners["*"].headers != [] then r == Term("*", winners["*"].headers)
    else r == NO_TERM
  }

  /** The scan has exactly one answer. */
  lemma ChosenUnique(t: Text, winners: map<string, Rule>, segments: seq<string>, a: Term, b: Term)
    requires Chosen(t, winners, segments, a) && Chosen(t, winners, segments, b)
    ensures a == b
  {
    hide SplitPrefix, Less;
    if p :| Applies(t, winners, p, segments) {
      assert Applies(t, winners, a.prefix, segments) && Applies(t, winners, b.prefix, segments);
      var n := |SplitPrefix(t, a.prefix)|;
      assert SplitPrefix(t, a.prefix) == segments[..n] == SplitPrefix(t, b.prefix);
      LessTotal(a.prefix, b.prefix);
    }
  }

  /** Rules whose order does not decide the winners answer every request alike in
      any order. */
  lemma OrderIrrelevant(t: Text, rules: seq<Rule>, rules': seq<Rule>, segments: seq<string>, a: Term, b: Term)
    requires OneWinner(t, rules) && multiset(rules') == multiset(rules)
    requires Chosen(t, Collect(t, rules), segments, a) && Chosen(t, Collect(t, rules'), segments, b)
    ensures a == b
  {
    hide Collect, Chosen, Winner;
    SameWinners(t, rules, rules');
    ChosenUnique(t, Collect(t, rules), segments, a, b);
  }

  /** With a list no table could hold the order decides: "no headers" and "one
      empty header" for one prefix tie, and the first listed answers. */
  lemma TiedRulesDependOnOrder(t: Text)
    requires t.trim("a") == "a" && t.lower("a") == "a"
    ensures var none, blank := Rule("a", [], 0), Rule("a", [""], 0);
            && Chosen(t, Collect(t, [none, blank]), ["a"], NO_TERM)
            && Chosen(t, Collect(t, [blank, none]), ["a"], Term("a", [""]))
  {
    var none, blank := Rule("a", [], 0), Rule("a", [""], 0);
    assert HeadersKey([]) == "" == HeadersKey([""]);
    assert Host("a") == "a" && Rest("a") == None by {
      BareHost("a");
    }
    assert NormalizeRulePrefix(t, "a") == Some("a");
    OnlyWinner(t, none, blank);
    OnlyWinner(t, blank, none);
    assert SplitPrefix(t, "a") == ["a"];
    hide SplitPrefix, Less, Collect;
    LessTotal("a", "a");
    assert Effective(t, map["a" := blank], "a");
    assert Applies(t, map["a" := blank], "a", ["a"]);
  }

  /** Of two tied rules for one prefix the first listed is the only winner. */
  lemma OnlyWinner(t: Text, a: Rule, b: Rule)
    requires a != b && Tied(a, b) && NormalizeRulePrefix(t, a.urlPrefix).Some?
    ensures Collect(t, [a, b]) == map[NormalizeRulePrefix(t, a.urlPrefix).value := a]
  {
    TiedIff(a, b);
    assert [a, b][..1] == [a] && [a][..0] == [];
    hide NormalizeRulePrefix, ShouldReplaceRule, Tied;
    assert Collect(t, []) == map[];
    assert Collect(t, [a]) == Offer(t, map[], a);
  }

  /** A rule with headers is out of action exactly when it is for a bare host and
      the same host followed by a slash has a rule too. */
  lemma ShadowedIff(t: Text, winners: map<string, Rule>, p: string)
    requires forall q :: q in winners && q != "*" ==> t.lower(Host(q)) == Host(q)
    requires p in winners && p != "*" && winners[p].headers != []
    ensures Effective(t, winners, p) <==> !('/' !in p && p + "/" in winners)
  {
    hide Less, Host, SplitPrefix;
    if '/' !in p && p + "/" in winners {
      LessExtended(p, "/");
      assert (p + "/")[|p|] == '/';
      SegmentsCollideIff(t, p, p + "/");
    } else {
      forall q | q in winners && q != "*" && SplitPrefix(t, q) == SplitPrefix(t, p) ensures !Less(p, q) {
        SegmentsCollideIff(t, p, q);
        LessTotal(p, q);
        if p == q + "/" {
          LessExtended(q, "/");
        }
      }
    }
  }

  /** Two rules a table may hold: a request for the host is answered by the one for
      the host with a slash, and the other never answers anything. */
  lemma ShadowedRule(t: Text, x: string, y: string)
    requires t.trim("a") == "a" && t.trim("a/") == "a/" && t.lower("a") == "a"
    requires x != y
    ensures var rules := [Rule("a", [x], 1), Rule("a/", [y], 0)];
            && Chosen(t, Collect(t, rules), ["a"], Term("a/", [y]))
            && !Effective(t, Collect(t, rules), "a")
  {
    var bare, slashed := Rule("a", [x], 1), Rule("a/", [y], 0);
    var w := map["a" := bare, "a/" := slashed];
    SlashAfterHost("a");
    BareHost("a");
    BareHost("a/");
    HostRestOf("a", Some(""));
    assert "/" + "" == "/" && "a" + "/" == "a/";
    assert NormalizeRulePrefix(t, "a") == Some("a") && NormalizeRulePrefix(t, "a/") == Some("a/");
    assert [bare, slashed][..1] == [bare] && [bare][..0] == [];
    assert Collect(t, []) == map[] && Collect(t, [bare]) == map["a" := bare];
    assert Collect(t, [bare, slashed]) == w;
    assert SplitPrefix(t, "a") == ["a"] == SplitPrefix(t, "a/");
    hide SplitPrefix, Collect, NormalizeRulePrefix;
    LessExtended("a", "/");
    LessTotal("a/", "a/");
    LessTotal("a", "a/");
    assert Effective(t, w, "a/") && !Effective(t, w, "a");
    assert Applies(t, w, "a/", ["a"]);
  }

  // ------------------------------------------------------------------
  // What the nodes carry
  // ------------------------------------------------------------------

  /** The term at a path: the last inserted of the keys with these segments. */
  ghost predicate IsTerm(t: Text, keys: set<string>, winners: map<string, Rule>, path: seq<string>, term: Term)
    requires keys <= winners.Keys
  {
    if exists k :: k in keys && SplitPrefix(t, k) == path then
      && term.prefix in keys && SplitPrefix(t, term.prefix) == path && term.headers == winners[term.prefix].headers
      && forall k :: k in keys && SplitPrefix(t, k) == path ==> !Less(term.prefix, k)
    else term == NO_TERM
  }

  /** Inserting a key above all earlier ones. */
  lemma IsTermExtends(t: Text, keys: set<string>, winners: map<string, Rule>, key: string, path: seq<string>, term: Term)
    requires keys <= winners.Keys && key in winners && forall k :: k in keys ==> Less(k, key)
    requires IsTerm(t, keys, winners, path, term)
    ensures IsTerm(t, keys + {key}, winners, path, if path == SplitPrefix(t, key) then Term(key, winners[key].headers) else term)
  {
    hide SplitPrefix, Less;
    if path == SplitPrefix(t, key) {
      assert key in keys + {key};
      forall k | k in keys + {key} ensures !Less(key, k) {
        LessTotal(k, key);
      }
    } else {
      assert forall k :: k in keys + {key} && SplitPrefix(t, k) == path <==> k in keys && SplitPrefix(t, k) == path;
    }
  }

  /** terms[j]: what the trie holds after the first j segments; best: the deepest
      of them with headers, of depth at least one. */
  ghost predicate Deepest(terms: seq<Term>, n: int, best: Term) {
    || (best.headers == [] && best == NO_TERM && forall j :: 0 < j < |terms| && j <= n ==> terms[j].headers == [])
    || (best.headers != [] && exists d :: 0 < d < |terms| && d <= n && terms[d] == best && forall j :: d < j < |terms| && j <= n ==> terms[j].headers == [])
  }

  /** The deepest term on the way down is what the scan chooses. */
  lemma DeepestIsChosen(t: Text, winners: map<string, Rule>, keys: set<string>, segments: seq<string>, terms: seq<Term>, best: Term)
    requires keys == winners.Keys - {"*"} && |terms| == |segments| + 1
    requires forall j :: 0 < j < |terms| ==> IsTerm(t, keys, winners, segments[..j], terms[j])
    requires Deepest(terms, |segments|, best)
    ensures best.headers != [] ==> Chosen(t, winners, segments, best)
    ensures best.headers == [] ==> forall p :: !Applies(t, winners, p, segments)
  {
    hide SplitPrefix, Less, Deepest;
    forall p | Applies(t, winners, p, segments)
      ensures 0 < |SplitPrefix(t, p)| < |terms| && terms[|SplitPrefix(t, p)|] == Term(p, winners[p].headers)
    {
      AppliesAt(t, winners, keys, segments, terms, p);
    }
    DeepestMeans(terms, |segments|, best);
    if best.headers != [] {
      var d :| 0 < d < |terms| && terms[d] == best && forall j :: d < j < |terms| && j <= |segments| ==> terms[j].headers == [];
      assert IsTerm(t, keys, winners, segments[..d], best);
      assert Applies(t, winners, best.prefix, segments);
    }
  }

  lemma DeepestMeans(terms: seq<Term>, n: int, best: Term)
    requires Deepest(terms, n, best)
    ensures best.headers == [] ==> forall j :: 0 < j < |terms| && j <= n ==> terms[j].headers == []
    ensures best.headers != [] ==> exists d :: 0 < d < |terms| && terms[d] == best && forall j :: d < j < |terms| && j <= n ==> terms[j].headers == []
  {
  }

  lemma AppliesAt(t: Text, winners: map<string, Rule>, keys: set<string>, segments: seq<string>, terms: seq<Term>, p: string)
    requires keys == winners.Keys - {"*"} && |terms| == |segments| + 1
    requires forall j :: 0 < j < |terms| ==> IsTerm(t, keys, winners, segments[..j], terms[j])
    requires Applies(t, winners, p, segments)
    ensures 0 < |SplitPrefix(t, p)| < |terms| && terms[|SplitPrefix(t, p)|] == Term(p, winners[p].headers)
  {
    hide Less;
    var n := |SplitPrefix(t, p)|;
    assert n > 0;
    hide SplitPrefix;
    assert segments[..n] == SplitPrefix(t, p) && p in keys;
    assert IsTerm(t, keys, winners, segments[..n], terms[n]);
    LessTotal(p, terms[n].prefix);
  }
}
