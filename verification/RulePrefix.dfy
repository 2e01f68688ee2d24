/** Account rules as text: prefixes, their segments, and which of two rules for
    the same prefix wins. */
module RulePrefix {
  import opened Types
  import opened Strings

  /** Library text functions: lower-casing, trimming white space, and reducing a
      request's host to the form rules are written in. */
  datatype Text = Text(lower: string -> string, trim: string -> string, hostOf: string -> string)

  datatype Rule = Rule(urlPrefix: string, headers: seq<string>, updatedAt: int)

  // ------------------------------------------------------------------
  // Splitting and joining
  // ------------------------------------------------------------------

  function Split(s: string, c: char): (r: seq<string>)
    ensures |r| > 0
  {
    if s == "" then [""]
    else
      var r := Split(s[1..], c);
      if s[0] == c then [""] + r else [[s[0]] + r[0]] + r[1..]
  }

  function Join(parts: seq<string>, c: char): string {
    if parts == [] then "" else if |parts| == 1 then parts[0] else parts[0] + [c] + Join(parts[1..], c)
  }

  lemma {:induction false} JoinSplit(s: string, c: char)
    ensures Join(Split(s, c), c) == s
  {
    if s != "" {
      JoinSplit(s[1..], c);
      var r := Split(s[1..], c);
      if s[0] == c {
        assert ([""] + r)[1..] == r;
      } else {
        assert ([[s[0]] + r[0]] + r[1..])[1..] == r[1..];
      }
    }
  }

  lemma {:induction false} SplitOne(s: string, c: char)
    requires c !in s
    ensures Split(s, c) == [s]
  {
    if s != "" {
      SplitOne(s[1..], c);
      assert s == [s[0]] + s[1..];
    }
  }

  lemma {:induction false} SplitAfter(p: string, rest: string, c: char)
    requires c !in p
    ensures Split(p + [c] + rest, c) == [p] + Split(rest, c)
  {
    var s := p + [c] + rest;
    if p == "" {
      assert s[1..] == rest;
    } else {
      assert s[1..] == p[1..] + [c] + rest;
      SplitAfter(p[1..], rest, c);
      assert p == [p[0]] + p[1..];
      assert ([p[1..]] + Split(rest, c))[1..] == Split(rest, c);
    }
  }

  predicate Free(headers: seq<string>, c: char) {
    forall i :: 0 <= i < |headers| ==> c !in headers[i]
  }

  lemma {:induction false} SplitJoin(parts: seq<string>, c: char)
    requires parts != [] && Free(parts, c)
    ensures Split(Join(parts, c), c) == parts
    decreases |parts|
  {
    if |parts| == 1 {
      SplitOne(parts[0], c);
    } else {
      SplitJoin(parts[1..], c);
      SplitAfter(parts[0], Join(parts[1..], c), c);
    }
  }

  /** The text before the first slash, and after it if there is one. */
  function Host(p: string): string {
    if p == "" || p[0] == '/' then "" else [p[0]] + Host(p[1..])
  }

  function Rest(p: string): Option<string> {
    if p == "" then None else if p[0] == '/' then Some(p[1..]) else Rest(p[1..])
  }

  lemma {:induction false} HostRest(p: string)
    ensures '/' !in Host(p)
    ensures p == Host(p) + if Rest(p).None? then "" else "/" + Rest(p).value
  {
    if p != "" && p[0] != '/' {
      HostRest(p[1..]);
    }
  }

  lemma {:induction false} HostRestOf(host: string, rest: Option<string>)
    requires '/' !in host
    ensures var p := host + if rest.None? then "" else "/" + rest.value;
            Host(p) == host && Rest(p) == rest
  {
    var p := host + if rest.None? then "" else "/" + rest.value;
    if host == "" {
      if rest.Some? {
        assert p[1..] == rest.value;
      }
    } else {
      HostRestOf(host[1..], rest);
      assert p[1..] == host[1..] + if rest.None? then "" else "/" + rest.value;
    }
  }

  // ------------------------------------------------------------------
  // Normal form and segments
  // ------------------------------------------------------------------

  /** None: the prefix is refused. */
  function NormalizeRulePrefix(t: Text, prefix: string): Option<string> {
    var p := t.trim(prefix);
    if p == "" || '?' in p then None
    else if p == "*" then Some(p)
    else if Host(p) == "" then None
    else Some(t.lower(Host(p)) + if Rest(p).None? then "" else "/" + Rest(p).value)
  }

  function SplitPrefix(t: Text, prefix: string): seq<string> {
    [t.lower(Host(prefix))] + PathSegments(Rest(prefix))
  }

  function UpTo(s: string, c: char): string {
    if s == "" || s[0] == c then "" else [s[0]] + UpTo(s[1..], c)
  }

  /** A request's segments: host, then path without query and leading slash. */
  function RequestSegments(t: Text, host: string, path: string): seq<string> {
    var bare := UpTo(path, '?');
    var rest := if bare != "" && bare[0] == '/' then bare[1..] else bare;
    [t.hostOf(host)] + if rest == "" then [] else Split(rest, '/')
  }

  /** Lower-casing a host gives a host, once and for all. */
  predicate LowersHosts(t: Text, host: string) {
    '/' !in t.lower(host) && t.lower(t.lower(host)) == t.lower(host)
  }

  /** A normal form is a fixed point: normalising it, or lower-casing its host
      again, changes nothing. */
  lemma NormalFormStays(t: Text, prefix: string, p: string)
    requires NormalizeRulePrefix(t, prefix) == Some(p) && p != "*"
    requires LowersHosts(t, Host(t.trim(prefix)))
    ensures t.lower(Host(p)) == Host(p) && Rest(p) == Rest(t.trim(prefix))
    ensures t.trim(p) == p && Host(p) != "" && '?' !in p ==> NormalizeRulePrefix(t, p) == Some(p)
  {
    var q := t.trim(prefix);
    HostRestOf(t.lower(Host(q)), Rest(q));
    HostRest(p);
  }

  function PathSegments(rest: Option<string>): seq<string> {
    if rest.None? || rest.value == "" then [] else Split(rest.value, '/')
  }

  lemma PathSegmentsInjective(a: Option<string>, b: Option<string>)
    requires PathSegments(a) == PathSegments(b)
    ensures a == b || (a.None? && b == Some("")) || (b.None? && a == Some(""))
  {
    if PathSegments(a) != [] {
      JoinSplit(a.value, '/');
      JoinSplit(b.value, '/');
    }
  }

  /** Two normal forms share their segments exactly when they are equal or differ
      in one slash after a bare host. */
  lemma SegmentsCollideIff(t: Text, p: string, q: string)
    requires t.lower(Host(p)) == Host(p) && t.lower(Host(q)) == Host(q)
    ensures SplitPrefix(t, p) == SplitPrefix(t, q) <==>
            p == q || ('/' !in p && q == p + "/") || ('/' !in q && p == q + "/")
  {
    HostRest(p);
    HostRest(q);
    BareHost(p);
    BareHost(q);
    hide Host, Rest;
    if SplitPrefix(t, p) == SplitPrefix(t, q) {
      assert SplitPrefix(t, p)[0] == Host(p) && SplitPrefix(t, q)[0] == Host(q);
      assert SplitPrefix(t, p)[1..] == PathSegments(Rest(p)) && SplitPrefix(t, q)[1..] == PathSegments(Rest(q));
      hide SplitPrefix, PathSegments;
      PathSegmentsInjective(Rest(p), Rest(q));
    }
    if '/' !in p && q == p + "/" {
      SlashAfterHost(p);
    }
    if '/' !in q && p == q + "/" {
      SlashAfterHost(q);
    }
  }

  lemma SlashAfterHost(p: string)
    requires '/' !in p
    ensures Host(p) == p == Host(p + "/")
    ensures PathSegments(Rest(p)) == [] == PathSegments(Rest(p + "/"))
  {
    BareHost(p);
    HostRestOf(p, Some(""));
    assert "/" + "" == "/";
  }

  lemma {:induction false} BareHost(p: string)
    ensures Rest(p).None? <==> '/' !in p
    ensures Rest(p).None? ==> Host(p) == p
  {
    if p != "" && p[0] != '/' {
      BareHost(p[1..]);
    }
  }

  // ------------------------------------------------------------------
  // The order of rules
  // ------------------------------------------------------------------

  function HeadersKey(headers: seq<string>): string {
    Join(headers, '\0')
  }

  predicate ShouldReplaceRule(next: Rule, current: Rule) {
    if next.updatedAt != current.updatedAt then next.updatedAt > current.updatedAt
    else if next.urlPrefix != current.urlPrefix then Less(next.urlPrefix, current.urlPrefix)
    else Less(HeadersKey(next.headers), HeadersKey(current.headers))
  }

  lemma ReplaceTrans(a: Rule, b: Rule, c: Rule)
    requires ShouldReplaceRule(a, b) && ShouldReplaceRule(b, c)
    ensures ShouldReplaceRule(a, c)
  {
    LessTotal(a.urlPrefix, b.urlPrefix);
    LessTotal(b.urlPrefix, c.urlPrefix);
    LessTotal(a.urlPrefix, c.urlPrefix);
    if Less(a.urlPrefix, b.urlPrefix) && Less(b.urlPrefix, c.urlPrefix) {
      LessTrans(a.urlPrefix, b.urlPrefix, c.urlPrefix);
    }
    if Less(HeadersKey(a.headers), HeadersKey(b.headers)) && Less(HeadersKey(b.headers), HeadersKey(c.headers)) {
      LessTrans(HeadersKey(a.headers), HeadersKey(b.headers), HeadersKey(c.headers));
    }
  }

  /** Two rules neither of which replaces the other. */
  predicate Tied(a: Rule, b: Rule) {
    a.updatedAt == b.updatedAt && a.urlPrefix == b.urlPrefix && HeadersKey(a.headers) == HeadersKey(b.headers)
  }

  lemma TiedIff(a: Rule, b: Rule)
    ensures Tied(a, b) <==> !ShouldReplaceRule(a, b) && !ShouldReplaceRule(b, a)
  {
    LessTotal(a.urlPrefix, b.urlPrefix);
    LessTotal(HeadersKey(a.headers), HeadersKey(b.headers));
  }

  /** Header lists are told apart by their key, if none of them is empty and no
      header contains NUL. */
  lemma HeadersKeyInjective(a: seq<string>, b: seq<string>)
    requires a != [] && b != [] && Free(a, '\0') && Free(b, '\0')
    requires HeadersKey(a) == HeadersKey(b)
    ensures a == b
  {
    SplitJoin(a, '\0');
    SplitJoin(b, '\0');
  }
}
