/** Listing request logs page by page from several databases at once. */
module Pagination {
  import opened Types
  import opened Strings

  /** content: every column the filter looks at besides the two that order rows. */
  datatype Row = Row(ts: int, id: string, content: int)

  datatype Cursor = Cursor(ts: int, id: string)

  /** accepts: the conditions on the other columns.  before and after are off when
      not positive. */
  datatype Filter = Filter(accepts: int -> bool, before: int, after: int, limit: int, cursor: Option<Cursor>)

  datatype Page = Page(rows: seq<Row>, hasMore: bool, next: Option<Cursor>)

  const DEFAULT_LIMIT := 50

  function Limit(f: Filter): int {
    if f.limit <= 0 then DEFAULT_LIMIT else f.limit
  }

  /** Newest first, the same time by identifier. */
  predicate Precedes(a: Row, b: Row) {
    if a.ts != b.ts then a.ts > b.ts else Less(a.id, b.id)
  }

  predicate PastCursor(c: Cursor, r: Row) {
    r.ts < c.ts || (r.ts == c.ts && Less(c.id, r.id))
  }

  predicate Matches(f: Filter, r: Row) {
    && f.accepts(r.content)
    && (f.before > 0 ==> r.ts < f.before)
    && (f.after > 0 ==> r.ts > f.after)
    && (f.cursor.Some? ==> PastCursor(f.cursor.value, r))
  }

  lemma PrecedesTrans(a: Row, b: Row, c: Row)
    requires Precedes(a, b) && Precedes(b, c)
    ensures Precedes(a, c)
  {
    if a.ts == b.ts == c.ts {
      LessTrans(a.id, b.id, c.id);
    }
  }

  lemma PrecedesTotal(a: Row, b: Row)
    ensures !(Precedes(a, b) && Precedes(b, a))
    ensures (a.ts == b.ts && a.id == b.id) <==> !Precedes(a, b) && !Precedes(b, a)
  {
    LessTotal(a.id, b.id);
  }

  // ------------------------------------------------------------------
  // Listings
  // ------------------------------------------------------------------

  predicate Ascending(rows: seq<Row>) {
    forall i, j :: 0 <= i < j < |rows| ==> Precedes(rows[i], rows[j])
  }

  /** The set's rows, each once, in order. */
  ghost predicate IsListing(rows: seq<Row>, s: set<Row>) {
    Ascending(rows) && forall r :: r in rows <==> r in s
  }

  /** In a sublist a row stands no later than in the list. */
  lemma {:induction false} SubIndex(a: seq<Row>, l: seq<Row>, j: nat, i: nat)
    requires Ascending(a) && Ascending(l) && forall r :: r in a ==> r in l
    requires j < |a| && i < |l| && a[j] == l[i]
    ensures j <= i
    decreases j
  {
    hide Precedes;
    if j > 0 {
      assert a[j - 1] in a;
      var p :| 0 <= p < |l| && l[p] == a[j - 1];
      PrecedesTotal(l[i], l[i]);
      PrecedesTotal(l[p], l[i]);
      SubIndex(a, l, j - 1, p);
    }
  }

  /** A sublist keeping the first m rows begins with exactly those. */
  lemma {:induction false} SamePrefix(a: seq<Row>, l: seq<Row>, m: nat)
    requires Ascending(a) && Ascending(l) && (forall r :: r in a ==> r in l)
    requires m <= |l| && forall i :: 0 <= i < m ==> l[i] in a
    ensures m <= |a| && a[..m] == l[..m]
  {
    hide Precedes;
    if m > 0 {
      SamePrefix(a, l, m - 1);
      var i := m - 1;
      var j :| 0 <= j < |a| && a[j] == l[i];
      SubIndex(a, l, j, i);
      PrecedesTotal(l[i], l[i]);
      assert a[..m] == a[..i] + [a[i]] && l[..m] == l[..i] + [l[i]];
    }
  }

  lemma ListingUnique(a: seq<Row>, b: seq<Row>, s: set<Row>)
    requires IsListing(a, s) && IsListing(b, s)
    ensures a == b
  {
    hide Precedes;
    SamePrefix(a, b, |b|);
    SamePrefix(b, a, |a|);
  }

  /** No two rows share both time and identifier. */
  ghost predicate Keyed(s: set<Row>) {
    forall a, b :: a in s && b in s && a.ts == b.ts && a.id == b.id ==> a == b
  }

  method InsertRow(before: seq<Row>, row: Row) returns (rows: seq<Row>)
    requires Ascending(before) && forall r :: r in before ==> !(r.ts == row.ts && r.id == row.id)
    ensures Ascending(rows) && forall r :: r in rows <==> r in before || r == row
  {
    hide Precedes;
    var i := |before|;
    while i > 0 && Precedes(row, before[i - 1])
      invariant 0 <= i <= |before|
      invariant forall j :: i <= j < |before| ==> Precedes(row, before[j])
    {
      i := i - 1;
    }
    if i > 0 {
      PrecedesTotal(before[i - 1], row);
      forall j | 0 <= j < i - 1 ensures Precedes(before[j], row) {
        PrecedesTrans(before[j], before[i - 1], row);
      }
    }
    assert before == before[..i] + before[i..];
    rows := before[..i] + [row] + before[i..];
  }

  // ------------------------------------------------------------------
  // One page
  // ------------------------------------------------------------------

  /** The rows of all databases. */
  ghost function All(shards: seq<set<Row>>): set<Row> {
    set i, r | 0 <= i < |shards| && r in shards[i] :: r
  }

  /** Times and identifiers are unique across the databases. */
  ghost predicate GloballyKeyed(shards: seq<set<Row>>) {
    Keyed(All(shards)) && forall i, j :: 0 <= i < j < |shards| ==> shards[i] !! shards[j]
  }

  ghost function Matching(s: set<Row>, f: Filter): set<Row> {
    set r | r in s && Matches(f, r)
  }

  /** The first rows of the listing, and whether there are more. */
  ghost predicate IsPage(s: set<Row>, f: Filter, page: Page) {
    exists rest :: IsListing(page.rows + rest, Matching(s, f)) && Cut(f, page, rest)
  }

  predicate Cut(f: Filter, page: Page, rest: seq<Row>) {
    && |page.rows| <= Limit(f)
    && (rest != [] ==> |page.rows| == Limit(f))
    && page.hasMore == (rest != [])
    && page.next == if page.hasMore then Some(Cursor(page.rows[|page.rows| - 1].ts, page.rows[|page.rows| - 1].id)) else None
  }

  /** One database: SELECT ... WHERE ... ORDER BY ts DESC, id ASC LIMIT. */
  method QueryLogs(shard: set<Row>, f: Filter, limit: nat) returns (rows: seq<Row>, ghost rest: seq<Row>)
    requires Keyed(shard)
    ensures IsListing(rows + rest, Matching(shard, f))
    ensures |rows| <= limit && (rest != [] ==> |rows| == limit)
  {
    hide Precedes, Matches;
    rows := [];
    var todo := shard;
    while todo != {}
      invariant todo <= shard
      invariant IsListing(rows, Matching(shard - todo, f))
      decreases todo
    {
      var r :| r in todo;
      todo := todo - {r};
      if Matches(f, r) {
        rows := InsertRow(rows, r);
      }
    }
    assert Matching(shard - todo, f) == Matching(shard, f);
    rest := [];
    if |rows| > limit {
      rest := rows[limit..];
      assert rows == rows[..limit] + rest;
      rows := rows[..limit];
    }
    assert rows + [] == rows;
  }

  method SortRows(rows: seq<Row>) returns (sorted: seq<Row>)
    requires forall i, j :: 0 <= i < j < |rows| ==> !(rows[i].ts == rows[j].ts && rows[i].id == rows[j].id)
    ensures Ascending(sorted) && forall r :: r in sorted <==> r in rows
  {
    hide Precedes;
    sorted := [];
    for i := 0 to |rows|
      invariant Ascending(sorted) && forall r :: r in sorted <==> r in rows[..i]
    {
      assert rows[..i + 1] == rows[..i] + [rows[i]];
      sorted := InsertRow(sorted, rows[i]);
    }
    assert rows[..|rows|] == rows;
  }

  /** What the databases after the first i of them contributed. */
  ghost predicate Fetched(shards: seq<set<Row>>, f: Filter, limit: nat, i: nat, results: seq<Row>)
    requires i <= |shards|
  {
    && (forall k, l :: 0 <= k < l < |results| ==> !(results[k].ts == results[l].ts && results[k].id == results[l].id))
    && (forall r :: r in results ==> r in Matching(All(shards[i..]), f))
    && forall k :: i <= k < |shards| ==> Contributes(shards[k], f, limit, results)
  }

  /** The database's first rows are all there. */
  ghost predicate Contributes(shard: set<Row>, f: Filter, limit: nat, results: seq<Row>) {
    exists rows, rest :: IsListing(rows + rest, Matching(shard, f)) && (rest != [] ==> |rows| == limit) && forall r :: r in rows ==> r in results
  }

  lemma ContributesMore(shard: set<Row>, f: Filter, limit: nat, results: seq<Row>, more: seq<Row>)
    requires Contributes(shard, f, limit, results)
    ensures Contributes(shard, f, limit, results + more)
  {
    hide IsListing;
    var rows, rest :| IsListing(rows + rest, Matching(shard, f)) && (rest != [] ==> |rows| == limit) && forall r :: r in rows ==> r in results;
    assert forall r :: r in rows ==> r in results + more;
  }

  /** One more database, its rows unlike all rows so far. */
  lemma FetchedStep(shards: seq<set<Row>>, f: Filter, limit: nat, i: nat, results: seq<Row>, rows: seq<Row>, rest: seq<Row>)
    requires i < |shards| && GloballyKeyed(shards) && Fetched(shards, f, limit, i + 1, results)
    requires IsListing(rows + rest, Matching(shards[i], f)) && (rest != [] ==> |rows| == limit)
    ensures Fetched(shards, f, limit, i, results + rows)
  {
    hide Matches, Precedes;
    forall k | i <= k < |shards| ensures Contributes(shards[k], f, limit, results + rows) {
      if k > i {
        ContributesMore(shards[k], f, limit, results, rows);
      }
    }
    var all := results + rows;
    forall r | r in all ensures r in Matching(All(shards[i..]), f) {
      if r in rows {
        assert r in rows + rest && shards[i] == shards[i..][0];
      } else {
        var k :| 0 <= k < |shards[i + 1..]| && r in shards[i + 1..][k];
        assert shards[i + 1..][k] == shards[i..][k + 1];
      }
    }
    forall k, l | 0 <= k < l < |all| ensures !(all[k].ts == all[l].ts && all[k].id == all[l].id) {
      if k >= |results| {
        PrecedesTotal((rows + rest)[k - |results|], (rows + rest)[l - |results|]);
      } else if l >= |results| {
        assert all[l] in rows + rest && all[k] in results;
        var m :| 0 <= m < |shards[i + 1..]| && all[k] in shards[i + 1..][m];
        assert shards[i + 1..][m] == shards[i + 1 + m];
        assert all[k] in All(shards) && all[l] in All(shards);
      }
    }
  }

  /** The first limit rows of the whole listing survive the cut in each database. */
  lemma FirstRowsFetched(shards: seq<set<Row>>, f: Filter, limit: nat, results: seq<Row>, l: seq<Row>, i: nat)
    requires Fetched(shards, f, limit, 0, results) && IsListing(l, Matching(All(shards), f)) && i < |l| && i < limit
    ensures l[i] in results
  {
    hide Matches, Precedes;
    assert l[i] in Matching(All(shards), f);
    var k :| 0 <= k < |shards| && l[i] in shards[k];
    assert Contributes(shards[k], f, limit, results);
    var rows, rest :| IsListing(rows + rest, Matching(shards[k], f)) && (rest != [] ==> |rows| == limit) && forall r :: r in rows ==> r in results;
    assert l[i] in rows + rest;
    var j :| 0 <= j < |rows + rest| && (rows + rest)[j] == l[i];
    forall r | r in rows + rest ensures r in l {
      assert r in Matching(All(shards), f);
    }
    SubIndex(rows + rest, l, j, i);
    assert rows[j] == l[i];
  }

  /** The page read off the merged rows is the page of the whole listing. */
  lemma MergedPage(shards: seq<set<Row>>, f: Filter, results: seq<Row>, sorted: seq<Row>, l: seq<Row>, page: Page, rest: seq<Row>)
    requires Fetched(shards, f, Limit(f) + 1, 0, results) && IsListing(l, Matching(All(shards), f))
    requires Ascending(sorted) && forall r :: r in sorted <==> r in results
    requires sorted == page.rows + rest && Cut(f, page, rest)
    ensures IsPage(All(shards), f, page)
  {
    hide Matches, Precedes, Contributes;
    var n := Limit(f) + 1;
    var m := if |l| < n then |l| else n;
    assert shards[0..] == shards;
    forall i | 0 <= i < m ensures l[i] in sorted {
      FirstRowsFetched(shards, f, n, results, l, i);
    }
    hide Fetched, All, Matching, Ascending;
    NoLonger(sorted, l);
    SamePrefix(sorted, l, m);
    SamePage(page, rest, sorted, l, m);
    assert Cut(f, page, l[|page.rows|..]);
  }

  lemma NoLonger(a: seq<Row>, l: seq<Row>)
    requires Ascending(a) && Ascending(l) && forall r :: r in a ==> r in l
    ensures |a| <= |l|
  {
    hide Precedes, Ascending;
    if |a| > 0 {
      var last := |a| - 1;
      assert a[last] in a;
      var i :| 0 <= i < |l| && l[i] == a[last];
      SubIndex(a, l, last, i);
    }
  }

  lemma SamePage(page: Page, rest: seq<Row>, sorted: seq<Row>, l: seq<Row>, m: nat)
    requires sorted == page.rows + rest && |page.rows| <= m <= |l| && m <= |sorted| && sorted[..m] == l[..m]
    ensures page.rows + l[|page.rows|..] == l
  {
    var size := |page.rows|;
    assert page.rows == sorted[..m][..size] == l[..m][..size] == l[..size];
  }

  /** Every matching set of rows has a listing. */
  lemma {:induction false} ListingExists(s: set<Row>) returns (l: seq<Row>)
    requires Keyed(s)
    ensures IsListing(l, s)
    decreases s
  {
    hide Precedes;
    l := [];
    if s != {} {
      var r :| r in s;
      var front := ListingExists(s - {r});
      l := Inserted(front, r);
    }
  }

  lemma {:induction false} Inserted(before: seq<Row>, row: Row) returns (rows: seq<Row>)
    requires Ascending(before) && forall r :: r in before ==> !(r.ts == row.ts && r.id == row.id)
    ensures Ascending(rows) && forall r :: r in rows <==> r in before || r == row
    decreases before
  {
    hide Precedes;
    if before == [] {
      return [row];
    }
    var last := before[|before| - 1];
    PrecedesTotal(last, row);
    if Precedes(last, row) {
      forall j | 0 <= j < |before| - 1 ensures Precedes(before[j], row) {
        PrecedesTrans(before[j], last, row);
      }
      return before + [row];
    }
    var front := Inserted(before[..|before| - 1], row);
    assert before == before[..|before| - 1] + [last];
    forall r | r in front ensures Precedes(r, last) {
      if r != row {
        var k :| 0 <= k < |before| - 1 && before[k] == r;
      }
    }
    LastRow(front, last);
    rows := front + [last];
  }

  lemma LastRow(front: seq<Row>, last: Row)
    requires Ascending(front) && forall r :: r in front ==> Precedes(r, last)
    ensures Ascending(front + [last])
  {
    hide Precedes;
    assert forall j :: 0 <= j < |front| ==> front[j] in front;
  }

  /** The databases as this listing sees them. */
  function Readable(shards: seq<set<Row>>, answers: seq<bool>): (r: seq<set<Row>>)
    requires |answers| == |shards|
    ensures |r| == |shards| && forall i :: 0 <= i < |r| ==> r[i] == if answers[i] then shards[i] else {}
  {
    seq(|shards|, i requires 0 <= i < |shards| => if answers[i] then shards[i] else {})
  }

  lemma ReadableKeyed(shards: seq<set<Row>>, answers: seq<bool>)
    requires GloballyKeyed(shards) && |answers| == |shards|
    ensures GloballyKeyed(Readable(shards, answers))
  {
    assert All(Readable(shards, answers)) <= All(shards);
  }

  lemma NothingMatches(f: Filter)
    ensures IsListing([] + [], Matching({}, f))
  {
  }

  class Repo {
    var shards: seq<set<Row>>

    ghost predicate Valid()
      reads this
    {
      GloballyKeyed(shards)
    }

    constructor (shards: seq<set<Row>>)
      requires GloballyKeyed(shards)
      ensures Valid() && this.shards == shards
    {
      this.shards := shards;
    }

    /** answers: which of the databases can be opened and queried; the others are
        passed over. */
    method List(f: Filter, answers: seq<bool>) returns (page: Page)
      requires Valid() && |answers| == |shards|
      ensures IsPage(All(Readable(shards, answers)), f, page)
    {
      hide Matches, Precedes, Fetched, IsPage;
      ghost var readable := Readable(shards, answers);
      ReadableKeyed(shards, answers);
      var limit := f.limit;
      if limit <= 0 {
        limit := DEFAULT_LIMIT;
      }
      var fetchLimit := limit + 1;
      var results := [];
      NothingFetched(readable, f, fetchLimit);
      var i := |shards|;
      while i > 0
        invariant 0 <= i <= |shards|
        invariant Fetched(readable, f, fetchLimit, i, results)
      {
        i := i - 1;
        if !answers[i] {
          NothingMatches(f);
          FetchedStep(readable, f, fetchLimit, i, results, [], []);
          assert results + [] == results;
          continue;
        }
        ShardKeyed(readable, i);
        var rows, rest := QueryLogs(shards[i], f, fetchLimit);
        FetchedStep(readable, f, fetchLimit, i, results, rows, rest);
        results := results + rows;
      }
      FetchedDistinct(readable, f, fetchLimit, i, results);
      var sorted := SortRows(results);
      MatchingKeyed(readable, f);
      ghost var l := ListingExists(Matching(All(readable), f));
      var hasMore := |sorted| > limit;
      var next := None;
      var rows := sorted;
      if hasMore {
        rows := sorted[..limit];
        var last := rows[|rows| - 1];
        next := Some(Cursor(last.ts, last.id));
      }
      page := Page(rows, hasMore, next);
      assert sorted == rows + sorted[|rows|..];
      MergedPage(readable, f, results, sorted, l, page, sorted[|rows|..]);
    }
  }

  lemma NothingFetched(shards: seq<set<Row>>, f: Filter, limit: nat)
    ensures Fetched(shards, f, limit, |shards|, [])
  {
  }

  lemma ShardKeyed(shards: seq<set<Row>>, i: nat)
    requires GloballyKeyed(shards) && i < |shards|
    ensures Keyed(shards[i])
  {
    assert shards[i] <= All(shards);
  }

  lemma MatchingKeyed(shards: seq<set<Row>>, f: Filter)
    requires GloballyKeyed(shards)
    ensures Keyed(Matching(All(shards), f))
  {
    hide Matches;
  }

  lemma FetchedDistinct(shards: seq<set<Row>>, f: Filter, limit: nat, i: nat, results: seq<Row>)
    requires i <= |shards| && Fetched(shards, f, limit, i, results)
    ensures forall k, l :: 0 <= k < l < |results| ==> !(results[k].ts == results[l].ts && results[k].id == results[l].id)
  {
  }

  // ------------------------------------------------------------------
  // All pages
  // ------------------------------------------------------------------

  /** Each page is asked for with the cursor of the one before. */
  ghost predicate Chain(s: set<Row>, f: Filter, pages: seq<Page>)
    decreases pages
  {
    && pages != [] && IsPage(s, f, pages[0])
    && if |pages| == 1 then true else pages[0].hasMore && Chain(s, f.(cursor := pages[0].next), pages[1..])
  }

  function Concat(pages: seq<Page>): seq<Row> {
    if pages == [] then [] else pages[0].rows + Concat(pages[1..])
  }

  /** Moving the cursor to a matching row keeps exactly the rows after it. */
  lemma MatchesNext(f: Filter, last: Row, r: Row)
    requires Matches(f, last)
    ensures Matches(f.(cursor := Some(Cursor(last.ts, last.id))), r) <==> Matches(f, r) && Precedes(last, r)
  {
    if f.cursor.Some? && Precedes(last, r) {
      var c := f.cursor.value;
      if c.ts == last.ts == r.ts {
        LessTrans(c.id, last.id, r.id);
      }
    }
  }

  lemma AfterIndex(l: seq<Row>, n: nat, r: Row)
    requires Ascending(l) && 0 < n <= |l|
    ensures r in l[n..] <==> r in l && Precedes(l[n - 1], r)
  {
    hide Precedes;
    if r in l {
      var k :| 0 <= k < |l| && l[k] == r;
      PrecedesTotal(l[n - 1], r);
      if k >= n {
        assert l[n..][k - n] == r;
      }
    }
  }

  /** What lies past the cursor of a page is exactly the rest of the listing. */
  lemma RestIsPastCursor(s: set<Row>, f: Filter, page: Page, rest: seq<Row>)
    requires IsListing(page.rows + rest, Matching(s, f)) && Cut(f, page, rest) && page.hasMore
    ensures IsListing(rest, Matching(s, f.(cursor := page.next)))
  {
    hide Matches, Precedes;
    var l, n := page.rows + rest, |page.rows|;
    var last := l[n - 1];
    assert last in l && l[n..] == rest;
    assert Matches(f, last);
    forall r ensures r in rest <==> r in Matching(s, f.(cursor := page.next)) {
      hide Ascending;
      MatchesNext(f, last, r);
      AfterIndex(l, n, r);
    }
    assert Ascending(rest) by {
      assert forall i :: 0 <= i < |rest| ==> rest[i] == l[n + i];
    }
  }

  /** Following the cursors to the end lists every matching row once, in order. */
  lemma {:induction false} PagesAreComplete(s: set<Row>, f: Filter, pages: seq<Page>)
    requires Keyed(s) && Chain(s, f, pages) && !pages[|pages| - 1].hasMore
    ensures IsListing(Concat(pages), Matching(s, f))
    decreases pages
  {
    hide Matches, Ascending;
    var page := pages[0];
    var rest :| IsListing(page.rows + rest, Matching(s, f)) && Cut(f, page, rest);
    assert pages == [page] + pages[1..];
    if |pages| == 1 {
      assert rest == [] && Concat(pages[1..]) == [];
      assert page.rows + rest == page.rows == Concat(pages);
    } else {
      var g := f.(cursor := page.next);
      RestIsPastCursor(s, f, page, rest);
      PagesAreComplete(s, g, pages[1..]);
      ListingUnique(rest, Concat(pages[1..]), Matching(s, g));
    }
  }

  /** And there is an end: every page but the last is full, so n pages with more
      to come mean more than n * limit rows. */
  lemma {:induction false} PagesEnd(s: set<Row>, f: Filter, pages: seq<Page>, l: seq<Row>)
    requires Chain(s, f, pages) && pages[|pages| - 1].hasMore && IsListing(l, Matching(s, f))
    ensures |pages| * Limit(f) < |l|
    decreases pages
  {
    hide Matches, Ascending;
    var page := pages[0];
    var rest :| IsListing(page.rows + rest, Matching(s, f)) && Cut(f, page, rest);
    ListingUnique(l, page.rows + rest, Matching(s, f));
    if |pages| > 1 {
      RestIsPastCursor(s, f, page, rest);
      PagesEnd(s, f.(cursor := page.next), pages[1..], rest);
      assert |pages| * Limit(f) == Limit(f) + |pages[1..]| * Limit(f);
    }
  }
}
