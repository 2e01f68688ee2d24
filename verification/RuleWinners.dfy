/** Which of several rules for one prefix is kept, and when the order they are
    listed in matters. */
module RuleWinners {
  import opened Types
  import opened Strings
  import opened RulePrefix

  /** r is a rule no other for the normalised prefix p replaces. */
  ghost predicate Winner(t: Text, rules: seq<Rule>, p: string, r: Rule) {
    && r in rules && NormalizeRulePrefix(t, r.urlPrefix) == Some(p)
    && forall q :: q in rules && NormalizeRulePrefix(t, q.urlPrefix) == Some(p) ==> !ShouldReplaceRule(q, r)
  }

  /** One winner for each normalised prefix that occurs. */
  ghost predicate IsWinners(t: Text, rules: seq<Rule>, winners: map<string, Rule>) {
    && (forall p :: p in winners ==> Winner(t, rules, p, winners[p]))
    && (forall r :: r in rules && NormalizeRulePrefix(t, r.urlPrefix).Some? ==> NormalizeRulePrefix(t, r.urlPrefix).value in winners)
  }

  /** r stands before every rule it ties with. */
  ghost predicate Earliest(t: Text, rules: seq<Rule>, p: string, r: Rule) {
    exists i :: 0 <= i < |rules| && rules[i] == r &&
      forall j :: 0 <= j < i && NormalizeRulePrefix(t, rules[j].urlPrefix) == Some(p) ==> ShouldReplaceRule(r, rules[j])
  }

  ghost predicate EarliestWin(t: Text, rules: seq<Rule>, winners: map<string, Rule>) {
    forall p :: p in winners ==> Earliest(t, rules, p, winners[p])
  }

  // ------------------------------------------------------------------
  // One pass over the rules
  // ------------------------------------------------------------------

  /** Whether one more rule takes over as the winner of a prefix. */
  predicate TakesOver(t: Text, r: Rule, winners: map<string, Rule>, p: string) {
    NormalizeRulePrefix(t, r.urlPrefix) == Some(p) && (p !in winners || ShouldReplaceRule(r, winners[p]))
  }

  function Offer(t: Text, winners: map<string, Rule>, r: Rule): map<string, Rule> {
    var norm := NormalizeRulePrefix(t, r.urlPrefix);
    if norm.Some? && TakesOver(t, r, winners, norm.value) then winners[norm.value := r] else winners
  }

  function Collect(t: Text, rules: seq<Rule>): map<string, Rule> {
    if rules == [] then map[] else Offer(t, Collect(t, rules[..|rules| - 1]), rules[|rules| - 1])
  }

  method CollectWinners(t: Text, rules: seq<Rule>) returns (winners: map<string, Rule>)
    ensures winners == Collect(t, rules)
  {
    hide NormalizeRulePrefix, ShouldReplaceRule;
    winners := map[];
    for i := 0 to |rules|
      invariant winners == Collect(t, rules[..i])
    {
      var r := rules[i];
      assert rules[..i + 1][..i] == rules[..i];
      var norm := NormalizeRulePrefix(t, r.urlPrefix);
      if norm.Some? && (norm.value !in winners || ShouldReplaceRule(r, winners[norm.value])) {
        winners := winners[norm.value := r];
      }
    }
    assert rules[..|rules|] == rules;
  }

  /** The pass keeps, for every prefix, the earliest of its unbeaten rules. */
  lemma {:induction false} CollectWins(t: Text, rules: seq<Rule>)
    ensures IsWinners(t, rules, Collect(t, rules)) && EarliestWin(t, rules, Collect(t, rules))
  {
    hide NormalizeRulePrefix, ShouldReplaceRule;
    if rules != [] {
      var front, r := rules[..|rules| - 1], rules[|rules| - 1];
      assert rules == front + [r];
      CollectWins(t, front);
      var before := Collect(t, front);
      forall p | p in Collect(t, rules) ensures Winner(t, rules, p, Collect(t, rules)[p]) && Earliest(t, rules, p, Collect(t, rules)[p]) {
        WinnerStep(t, front, r, before, p);
        EarliestStep(t, front, r, before, p);
      }
      hide Winner, Earliest;
    }
  }

  lemma WinnerStep(t: Text, rules: seq<Rule>, r: Rule, winners: map<string, Rule>, p: string)
    requires IsWinners(t, rules, winners)
    requires p in winners || NormalizeRulePrefix(t, r.urlPrefix) == Some(p)
    ensures Winner(t, rules + [r], p, if TakesOver(t, r, winners, p) then r else winners[p])
  {
    hide NormalizeRulePrefix, ShouldReplaceRule;
    var wins := TakesOver(t, r, winners, p);
    var next := if wins then r else winners[p];
    assert p in winners ==> Winner(t, rules, p, winners[p]);
    forall q | q in rules + [r] && NormalizeRulePrefix(t, q.urlPrefix) == Some(p) ensures !ShouldReplaceRule(q, next) {
      TiedIff(q, q);
      assert Tied(q, q);
      if q in rules && wins && ShouldReplaceRule(q, r) {
        ReplaceTrans(q, r, winners[p]);
      }
    }
  }

  lemma EarliestStep(t: Text, rules: seq<Rule>, r: Rule, winners: map<string, Rule>, p: string)
    requires IsWinners(t, rules, winners) && EarliestWin(t, rules, winners)
    requires p in winners || NormalizeRulePrefix(t, r.urlPrefix) == Some(p)
    ensures Earliest(t, rules + [r], p, if TakesOver(t, r, winners, p) then r else winners[p])
  {
    hide NormalizeRulePrefix, ShouldReplaceRule;
    var all, n := rules + [r], |rules|;
    if TakesOver(t, r, winners, p) {
      forall j | 0 <= j < n && NormalizeRulePrefix(t, all[j].urlPrefix) == Some(p) ensures ShouldReplaceRule(r, all[j]) {
        assert all[j] == rules[j] && rules[j] in rules;
        assert Winner(t, rules, p, winners[p]);
        Beats(r, winners[p], rules[j]);
      }
      assert all[n] == r;
    } else {
      assert Earliest(t, rules, p, winners[p]);
      var i :| 0 <= i < |rules| && rules[i] == winners[p] &&
        forall j :: 0 <= j < i && NormalizeRulePrefix(t, rules[j].urlPrefix) == Some(p) ==> ShouldReplaceRule(winners[p], rules[j]);
      assert all[i] == winners[p];
    }
  }

  /** Whoever replaces b replaces all that do not replace b. */
  lemma Beats(a: Rule, b: Rule, c: Rule)
    requires ShouldReplaceRule(a, b) && !ShouldReplaceRule(c, b)
    ensures ShouldReplaceRule(a, c)
  {
    TiedIff(b, c);
    hide HeadersKey, Less;
    if ShouldReplaceRule(b, c) {
      ReplaceTrans(a, b, c);
    }
  }

  // ------------------------------------------------------------------
  // The order of the rules
  // ------------------------------------------------------------------

  /** No prefix has two different unbeaten rules. */
  ghost predicate OneWinner(t: Text, rules: seq<Rule>) {
    forall p, a, b :: Winner(t, rules, p, a) && Winner(t, rules, p, b) ==> a == b
  }

  ghost predicate AnyOrder(t: Text, rules: seq<Rule>) {
    forall rules' :: multiset(rules') == multiset(rules) ==> Collect(t, rules') == Collect(t, rules)
  }

  /** Listing the rules in any other order keeps the same ones, if and only if no
      prefix has two different unbeaten rules. */
  lemma AnyOrderIff(t: Text, rules: seq<Rule>)
    ensures AnyOrder(t, rules) <==> OneWinner(t, rules)
  {
    hide Winner, Collect;
    if OneWinner(t, rules) {
      forall rules' | multiset(rules') == multiset(rules) ensures Collect(t, rules') == Collect(t, rules) {
        SameWinners(t, rules, rules');
      }
    }
    if AnyOrder(t, rules) {
      forall p, a, b | Winner(t, rules, p, a) && Winner(t, rules, p, b) ensures a == b {
        FirstWins(t, rules, p, a);
        FirstWins(t, rules, p, b);
      }
    }
  }

  lemma SameElements(rules: seq<Rule>, rules': seq<Rule>)
    requires multiset(rules) == multiset(rules')
    ensures forall r :: r in rules <==> r in rules'
  {
    forall r ensures r in rules <==> r in rules' {
      assert r in rules <==> r in multiset(rules);
    }
  }

  lemma SameWinners(t: Text, rules: seq<Rule>, rules': seq<Rule>)
    requires OneWinner(t, rules) && multiset(rules') == multiset(rules)
    ensures Collect(t, rules') == Collect(t, rules)
  {
    hide NormalizeRulePrefix, ShouldReplaceRule, Collect;
    CollectWins(t, rules);
    CollectWins(t, rules');
    SameElements(rules, rules');
    var w, w' := Collect(t, rules), Collect(t, rules');
    forall p ensures (p in w <==> p in w') && (p in w ==> w[p] == w'[p]) {
      if p in w {
        assert Winner(t, rules, p, w[p]);
      }
      if p in w' {
        assert Winner(t, rules', p, w'[p]);
        assert Winner(t, rules, p, w'[p]);
      }
    }
  }

  function ToFront(rules: seq<Rule>, i: nat): seq<Rule>
    requires i < |rules|
  {
    [rules[i]] + rules[..i] + rules[i + 1..]
  }

  lemma ToFrontPermutes(rules: seq<Rule>, i: nat)
    requires i < |rules|
    ensures multiset(ToFront(rules, i)) == multiset(rules)
  {
    assert rules == rules[..i] + [rules[i]] + rules[i + 1..];
  }

  /** An unbeaten rule brought to the front is the one kept. */
  lemma FirstWins(t: Text, rules: seq<Rule>, p: string, a: Rule)
    requires Winner(t, rules, p, a)
    ensures exists rules' :: multiset(rules') == multiset(rules) && p in Collect(t, rules') && Collect(t, rules')[p] == a
  {
    hide NormalizeRulePrefix, ShouldReplaceRule, Collect;
    var i :| 0 <= i < |rules| && rules[i] == a;
    var front := ToFront(rules, i);
    ToFrontPermutes(rules, i);
    SameElements(rules, front);
    assert front[0] == a && a in front;
    hide ToFront;
    CollectWins(t, front);
    var w := Collect(t, front);
    assert p in w && Earliest(t, front, p, w[p]) && Winner(t, front, p, w[p]);
    assert !ShouldReplaceRule(w[p], a);
  }

  /** The table the rules are read from is keyed by the prefix as written: its
      rules may be listed in any order, whatever their headers. */
  lemma StoredRulesAnyOrder(t: Text, rules: seq<Rule>)
    requires forall i, j :: 0 <= i < j < |rules| ==> rules[i].urlPrefix != rules[j].urlPrefix
    ensures AnyOrder(t, rules)
  {
    hide NormalizeRulePrefix, ShouldReplaceRule, AnyOrder;
    forall p, a, b | Winner(t, rules, p, a) && Winner(t, rules, p, b) ensures a == b {
      TiedIff(a, b);
    }
    AnyOrderIff(t, rules);
  }

  /** So may any rules with non-empty lists of NUL-free headers. */
  lemma NulFreeAnyOrder(t: Text, rules: seq<Rule>)
    requires forall r :: r in rules ==> r.headers != [] && Free(r.headers, '\0')
    ensures AnyOrder(t, rules)
  {
    hide NormalizeRulePrefix, ShouldReplaceRule, AnyOrder, HeadersKey;
    forall p, a, b | Winner(t, rules, p, a) && Winner(t, rules, p, b) ensures a == b {
      TiedIff(a, b);
      HeadersKeyInjective(a.headers, b.headers);
    }
    AnyOrderIff(t, rules);
  }
}
