/**
 Keyset pagination, newest first.

 A cursor is the key of the last row of a page; encoding and decoding it is a round
 trip, and a string that does not decode is a bad request.
 */
module Pagination {
  import opened Wrappers
  import opened Arithmetic
  import opened Lists
  import opened Sorting

  datatype PageKey = PageKey(at: real, id: string)

  datatype Cursor = Encoded(key: PageKey) | Garbage

  datatype Page<T> = Page(items: seq<T>, nextCursor: Option<Cursor>)

  datatype Error = BadRequest

  // ---------------------------------------------------------------------------
  // Keys
  // ---------------------------------------------------------------------------

  /** `a` and `b` agree up to `k`, where `a` ends or has the smaller character. */
  predicate LessAt(a: string, b: string, k: nat) {
    k <= |a| && k < |b| && a[..k] == b[..k] && (k == |a| || a[k] < b[k])
  }

  /** Strings compare by their first difference. */
  predicate Less(a: string, b: string) {
    exists k: nat :: k < |b| && LessAt(a, b, k)
  }

  /** Newest first; equal times order by id, descending. */
  function CompareDesc(a: PageKey, b: PageKey): int {
    if a.at != b.at then if b.at < a.at then -1 else 1
    else if Less(a.id, b.id) then 1
    else if Less(b.id, a.id) then -1
    else 0
  }

  lemma FirstDifference(a: string, b: string) returns (k: nat)
    ensures k <= |a| && k <= |b| && a[..k] == b[..k]
    ensures k == |a| || k == |b| || a[k] != b[k]
  {
    k := 0;
    while k < |a| && k < |b| && a[k] == b[k]
      invariant k <= |a| && k <= |b| && a[..k] == b[..k]
    {
      assert a[..k + 1] == a[..k] + [a[k]] && b[..k + 1] == b[..k] + [b[k]];
      k := k + 1;
    }
  }

  lemma LessIsTotal(a: string, b: string)
    ensures Less(a, b) || Less(b, a) || a == b
  {
    var k := FirstDifference(a, b);
    if k == |a| == |b| {
      assert a == a[..k] && b == b[..k];
    } else {
      assert LessAt(a, b, k) || LessAt(b, a, k);
    }
  }

  lemma AgreementEnds(a: string, b: string, k: nat, j: nat)
    ensures LessAt(a, b, k) && j <= |a| && j <= |b| && a[..j] == b[..j] ==> j <= k
  {
    if j <= |a| && j <= |b| && a[..j] == b[..j] {
      forall i | 0 <= i < j
        ensures a[i] == b[i]
      {
        assert a[..j][i] == b[..j][i];
      }
    }
  }

  lemma LessIsAsymmetric(a: string, b: string, k: nat, j: nat)
    requires LessAt(a, b, k)
    ensures !LessAt(b, a, j)
  {
    AgreementEnds(a, b, k, j);
    AgreementEnds(b, a, j, k);
  }

  lemma LessIsTransitive(a: string, b: string, c: string)
    requires Less(a, b) && Less(b, c)
    ensures Less(a, c)
  {
    var k: nat :| k < |b| && LessAt(a, b, k);
    var j: nat :| j < |c| && LessAt(b, c, j);
    var m := if k < j then k else j;
    assert a[..m] == a[..k][..m] && b[..m] == b[..k][..m] == b[..j][..m] && c[..m] == c[..j][..m];
    if k < j {
      assert b[..j][k] == c[..j][k];
    } else if j < k {
      assert a[..k][j] == b[..k][j];
    }
    assert LessAt(a, c, m);
  }

  lemma LessIsOrder(a: string, b: string)
    ensures (if Less(a, b) then 1 else 0) + (if Less(b, a) then 1 else 0) + (if a == b then 1 else 0) == 1
  {
    LessIsTotal(a, b);
    if Less(a, b) {
      var k: nat :| k < |b| && LessAt(a, b, k);
      forall j: nat
        ensures !LessAt(b, a, j)
      {
        LessIsAsymmetric(a, b, k, j);
      }
    } else if Less(b, a) {
      var k: nat :| k < |a| && LessAt(b, a, k);
      forall j: nat
        ensures !LessAt(a, b, j)
      {
        LessIsAsymmetric(b, a, k, j);
      }
    }
  }

  /** Comparison of keys is a total order. */
  lemma CompareIsOrder(a: PageKey, b: PageKey, c: PageKey)
    ensures CompareDesc(a, b) == 0 <==> a == b
    ensures CompareDesc(a, b) < 0 <==> CompareDesc(b, a) > 0
    ensures CompareDesc(a, b) <= 0 && CompareDesc(b, c) <= 0 ==> CompareDesc(a, c) <= 0
    ensures CompareDesc(a, b) < 0 && CompareDesc(b, c) <= 0 ==> CompareDesc(a, c) < 0
  {
    LessIsOrder(a.id, b.id);
    LessIsOrder(b.id, c.id);
    LessIsOrder(a.id, c.id);
    if Less(c.id, b.id) && Less(b.id, a.id) {
      LessIsTransitive(c.id, b.id, a.id);
    }
  }

  /** A later time comes first, and of equal times the greater id. */
  lemma NewestFirst(a: PageKey, b: PageKey)
    ensures CompareDesc(a, b) < 0 <==> a.at > b.at || (a.at == b.at && Less(b.id, a.id))
  {
    LessIsOrder(a.id, b.id);
  }

  /** Ids compare by their first different character; a beginning comes before the whole. */
  lemma LessByCharacter(common: string, x: char, y: char, a: string, b: string)
    requires x < y
    ensures Less(common + [x] + a, common + [y] + b) && Less(common, common + [x] + a)
  {
    var s, t := common + [x] + a, common + [y] + b;
    assert s[..|common|] == common && t[..|common|] == common && common[..|common|] == common;
    assert LessAt(s, t, |common|) && LessAt(common, s, |common|);
  }

  function Newest<T>(keyOf: T -> PageKey): (T, T) -> bool {
    (a: T, b: T) => CompareDesc(keyOf(a), keyOf(b)) <= 0
  }

  lemma NewestIsPreorder<T(!new)>(keyOf: T -> PageKey)
    ensures TotalPreorder(Newest(keyOf))
  {
    forall a, b
      ensures Newest(keyOf)(a, b) || Newest(keyOf)(b, a)
    {
      CompareIsOrder(keyOf(a), keyOf(b), keyOf(b));
    }
    forall a, b, c | Newest(keyOf)(a, b) && Newest(keyOf)(b, c)
      ensures Newest(keyOf)(a, c)
    {
      CompareIsOrder(keyOf(a), keyOf(b), keyOf(c));
    }
  }

  // ---------------------------------------------------------------------------
  // Pages
  // ---------------------------------------------------------------------------

  /** Rows strictly older than the cursor. */
  function OlderThan<T>(keyOf: T -> PageKey, after: PageKey): T -> bool {
    (row: T) => CompareDesc(after, keyOf(row)) < 0
  }

  function SortedDesc<T>(rows: seq<T>, keyOf: T -> PageKey): seq<T> {
    Sort(Newest(keyOf), rows)
  }

  /** What of the sorted rows a page after the cursor can hold. */
  function Remaining<T>(sorted: seq<T>, keyOf: T -> PageKey, after: Option<PageKey>): seq<T> {
    if after.Some? then Filter(OlderThan(keyOf, after.value), sorted) else sorted
  }

  function Min(a: nat, b: nat): nat {
    if a < b then a else b
  }

  function PageOf<T>(sorted: seq<T>, keyOf: T -> PageKey, limit: nat, after: Option<PageKey>): Page<T>
    requires limit >= 1
  {
    var remaining := Remaining(sorted, keyOf, after);
    var items := remaining[..Min(limit, |remaining|)];
    Page(items, if |remaining| > limit then Some(Encoded(keyOf(items[|items| - 1]))) else None)
  }

  function PaginateDesc<T>(rows: seq<T>, keyOf: T -> PageKey, limit: nat, cursor: Option<Cursor>): Result<Page<T>, Error>
    requires limit >= 1
  {
    match cursor
    case None => Success(PageOf(SortedDesc(rows, keyOf), keyOf, limit, None))
    case Some(Garbage) => Failure(BadRequest)
    case Some(Encoded(key)) => Success(PageOf(SortedDesc(rows, keyOf), keyOf, limit, Some(key)))
  }

  ghost predicate DistinctKeys<T>(rows: seq<T>, keyOf: T -> PageKey) {
    forall i, j :: 0 <= i < j < |rows| ==> keyOf(rows[i]) != keyOf(rows[j])
  }

  /** Each row comes strictly before the ones after it. */
  ghost predicate Descending<T>(s: seq<T>, keyOf: T -> PageKey) {
    forall i, j :: 0 <= i < j < |s| ==> CompareDesc(keyOf(s[i]), keyOf(s[j])) < 0
  }

  lemma DistinctKeysAfterSort<T>(a: seq<T>, b: seq<T>, keyOf: T -> PageKey)
    requires multiset(a) == multiset(b) && DistinctKeys(a, keyOf)
    ensures DistinctKeys(b, keyOf)
  {
    DistinctPermutes(a, b);
    forall i, j | 0 <= i < j < |b|
      ensures keyOf(b[i]) != keyOf(b[j])
    {
      assert b[i] in multiset(b) && b[j] in multiset(b);
      assert b[i] in a && b[j] in a;
      var x :| 0 <= x < |a| && a[x] == b[i];
      var y :| 0 <= y < |a| && a[y] == b[j];
      assert x != y;
    }
  }

  lemma SortsDescending<T(!new)>(rows: seq<T>, keyOf: T -> PageKey)
    requires DistinctKeys(rows, keyOf)
    ensures Descending(SortedDesc(rows, keyOf), keyOf) && multiset(SortedDesc(rows, keyOf)) == multiset(rows)
    ensures |SortedDesc(rows, keyOf)| == |rows|
  {
    var s := SortedDesc(rows, keyOf);
    NewestIsPreorder(keyOf);
    SortAscends(Newest(keyOf), rows);
    SortPermutes(Newest(keyOf), rows);
    SortKeepsMembers(Newest(keyOf), rows);
    DistinctKeysAfterSort(rows, s, keyOf);
    forall i, j | 0 <= i < j < |s|
      ensures CompareDesc(keyOf(s[i]), keyOf(s[j])) < 0
    {
      assert Newest(keyOf)(s[i], s[j]);
      CompareIsOrder(keyOf(s[i]), keyOf(s[j]), keyOf(s[j]));
    }
  }

  lemma {:induction false} FilterSuffix<T>(older: T -> bool, s: seq<T>, p: nat)
    requires p <= |s| && (forall i :: 0 <= i < p ==> !older(s[i])) && (forall i :: p <= i < |s| ==> older(s[i]))
    ensures Filter(older, s) == s[p..]
    decreases p
  {
    if p == 0 {
      FilterAll(older, s);
    } else {
      FilterSuffix(older, s[1..], p - 1);
      assert s[1..][p - 1..] == s[p..];
    }
  }

  lemma OlderAt<T>(s: seq<T>, keyOf: T -> PageKey, p: nat, i: nat)
    requires Descending(s, keyOf) && p < |s| && i < |s|
    ensures OlderThan(keyOf, keyOf(s[p]))(s[i]) <==> i > p
  {
    CompareIsOrder(keyOf(s[i]), keyOf(s[p]), keyOf(s[p]));
  }

  /** What is older than a row of a descending list is what follows it. */
  lemma OlderIsSuffix<T>(s: seq<T>, keyOf: T -> PageKey, p: nat)
    requires Descending(s, keyOf) && p < |s|
    ensures Filter(OlderThan(keyOf, keyOf(s[p])), s) == s[p + 1..]
  {
    var older := OlderThan(keyOf, keyOf(s[p]));
    forall i | 0 <= i < |s|
      ensures older(s[i]) <==> i > p
    {
      OlderAt(s, keyOf, p, i);
    }
    FilterSuffix(older, s, p + 1);
  }

  // ---------------------------------------------------------------------------
  // Following the cursors
  // ---------------------------------------------------------------------------

  function KeyOfCursor(cursor: Option<Cursor>): Option<PageKey> {
    if cursor.Some? && cursor.value.Encoded? then Some(cursor.value.key) else None
  }

  lemma {:induction false} FilterSmaller<T>(p: T -> bool, q: T -> bool, s: seq<T>, x: int)
    requires forall i :: 0 <= i < |s| && p(s[i]) ==> q(s[i])
    requires 0 <= x < |s| ==> q(s[x]) && !p(s[x])
    ensures |Filter(p, s)| <= |Filter(q, s)|
    ensures 0 <= x < |s| ==> |Filter(p, s)| < |Filter(q, s)|
    decreases |s|
  {
    if s != [] {
      FilterSmaller(p, q, s[1..], x - 1);
    }
  }

  lemma NextKey<T>(sorted: seq<T>, keyOf: T -> PageKey, limit: nat, after: Option<PageKey>)
    requires limit >= 1 && |Remaining(sorted, keyOf, after)| > limit
    ensures KeyOfCursor(PageOf(sorted, keyOf, limit, after).nextCursor)
            == Some(keyOf(Remaining(sorted, keyOf, after)[limit - 1]))
  {
    var remaining := Remaining(sorted, keyOf, after);
    assert remaining[..limit][limit - 1] == remaining[limit - 1];
  }

  /** Behind the last row of a page there is less than behind its cursor. */
  lemma CursorAdvances<T>(sorted: seq<T>, keyOf: T -> PageKey, limit: nat, after: Option<PageKey>)
    requires limit >= 1 && PageOf(sorted, keyOf, limit, after).nextCursor.Some?
    ensures |Remaining(sorted, keyOf, KeyOfCursor(PageOf(sorted, keyOf, limit, after).nextCursor))|
            < |Remaining(sorted, keyOf, after)|
  {
    NextKey(sorted, keyOf, limit, after);
    OlderThanRow(sorted, keyOf, after, limit - 1);
  }

  lemma OlderThanRow<T>(s: seq<T>, keyOf: T -> PageKey, after: Option<PageKey>, k: nat)
    requires k < |Remaining(s, keyOf, after)|
    ensures |Remaining(s, keyOf, Some(keyOf(Remaining(s, keyOf, after)[k])))| < |Remaining(s, keyOf, after)|
  {
    var r := Remaining(s, keyOf, after);
    var last := r[k];
    assert last in r;
    var p := OlderThan(keyOf, keyOf(last));
    var q := if after.Some? then OlderThan(keyOf, after.value) else (row: T) => true;
    if after.Some? {
      FilterMember(q, s, last);
    } else {
      FilterAll(q, s);
    }
    var x :| 0 <= x < |s| && s[x] == last;
    CompareIsOrder(keyOf(last), keyOf(last), keyOf(last));
    forall i | 0 <= i < |s| && p(s[i])
      ensures q(s[i])
    {
      if after.Some? {
        CompareIsOrder(after.value, keyOf(last), keyOf(s[i]));
      }
    }
    FilterSmaller(p, q, s, x);
  }

  /** The pages a client gets by following `nextCursor` until there is none. */
  function Follow<T>(sorted: seq<T>, keyOf: T -> PageKey, limit: nat, after: Option<PageKey>): seq<Page<T>>
    requires limit >= 1
    decreases |Remaining(sorted, keyOf, after)|
  {
    var page := PageOf(sorted, keyOf, limit, after);
    if page.nextCursor.None? then [page]
    else
      CursorAdvances(sorted, keyOf, limit, after);
      [page] + Follow(sorted, keyOf, limit, KeyOfCursor(page.nextCursor))
  }

  /** A client that asks for a page, then for the next one as long as there is a cursor. */
  function FollowCursors<T>(rows: seq<T>, keyOf: T -> PageKey, limit: nat, cursor: Option<Cursor>)
    : Result<seq<Page<T>>, Error>
    requires limit >= 1
    decreases |Remaining(SortedDesc(rows, keyOf), keyOf, KeyOfCursor(cursor))|
  {
    match PaginateDesc(rows, keyOf, limit, cursor)
    case Failure(error) => Failure(error)
    case Success(page) =>
      if page.nextCursor.None? then Success([page])
      else
        CursorAdvances(SortedDesc(rows, keyOf), keyOf, limit, KeyOfCursor(cursor));
        match FollowCursors(rows, keyOf, limit, page.nextCursor)
        case Failure(error) => Failure(error)
        case Success(rest) => Success([page] + rest)
  }

  /** No cursor the service gives out is refused. */
  lemma {:induction false} FollowCursorsIs<T>(rows: seq<T>, keyOf: T -> PageKey, limit: nat, cursor: Option<Cursor>)
    requires limit >= 1 && cursor != Some(Garbage)
    ensures FollowCursors(rows, keyOf, limit, cursor)
            == Success(Follow(SortedDesc(rows, keyOf), keyOf, limit, KeyOfCursor(cursor)))
    decreases |Remaining(SortedDesc(rows, keyOf), keyOf, KeyOfCursor(cursor))|
  {
    var s := SortedDesc(rows, keyOf);
    var page := PageOf(s, keyOf, limit, KeyOfCursor(cursor));
    assert PaginateDesc(rows, keyOf, limit, cursor) == Success(page);
    if page.nextCursor.Some? {
      CursorAdvances(s, keyOf, limit, KeyOfCursor(cursor));
      FollowCursorsIs(rows, keyOf, limit, page.nextCursor);
    }
  }

  function Items<T>(pages: seq<Page<T>>): seq<T> {
    if pages == [] then [] else pages[0].items + Items(pages[1..])
  }

  /** max(1, ceil(n / limit)) */
  function PageCount(n: nat, limit: nat): nat
    requires limit >= 1
  {
    if n == 0 then 1 else (n + limit - 1) / limit
  }

  /** How many chunks of at most `limit` rows there are. */
  function Chunks(n: nat, limit: nat): nat
    requires limit >= 1
    decreases n
  {
    if n <= limit then 1 else 1 + Chunks(n - limit, limit)
  }

  lemma {:induction false} ChunksFit(n: nat, limit: nat)
    requires limit >= 1
    ensures Fits(Chunks(n, limit), n, limit)
    decreases n
  {
    if n > limit {
      ChunksFit(n - limit, limit);
      FitsNext(Chunks(n - limit, limit), n, limit);
    }
  }

  lemma ChunksArePageCount(n: nat, limit: nat)
    requires limit >= 1
    ensures Chunks(n, limit) == PageCount(n, limit)
  {
    ChunksFit(n, limit);
    FitsIsPageCount(Chunks(n, limit), n, limit);
  }

  /** `k` pages are needed and enough for `n` rows. */
  predicate Fits(k: nat, n: nat, limit: nat) {
    k >= 1 && n <= k * limit && (k == 1 || (k - 1) * limit < n)
  }

  lemma FitsNext(k: nat, n: nat, limit: nat)
    requires limit >= 1 && n > limit && Fits(k, n - limit, limit)
    ensures Fits(k + 1, n, limit)
  {
    assert (k + 1) * limit == k * limit + limit;
    assert (k - 1) * limit == k * limit - limit;
  }

  lemma FitsIsPageCount(k: nat, n: nat, limit: nat)
    requires limit >= 1 && Fits(k, n, limit)
    ensures k == PageCount(n, limit)
  {
    if n == 0 {
      assert k > 1 ==> (k - 1) * limit >= 0;
    } else {
      assert (k - 1) * limit == k * limit - limit;
      DivUnique(n + limit - 1, limit, k, n - 1 - (k - 1) * limit);
    }
  }

  /** A list cut into pages, each but the last with the key of its last row as cursor. */
  function Pages<T>(r: seq<T>, keyOf: T -> PageKey, limit: nat): seq<Page<T>>
    requires limit >= 1
    decreases |r|
  {
    if |r| <= limit then [Page(r, None)]
    else [Page(r[..limit], Some(Encoded(keyOf(r[limit - 1]))))] + Pages(r[limit..], keyOf, limit)
  }

  lemma {:induction false} PagesHoldAll<T>(r: seq<T>, keyOf: T -> PageKey, limit: nat)
    requires limit >= 1
    ensures Items(Pages(r, keyOf, limit)) == r && |Pages(r, keyOf, limit)| == Chunks(|r|, limit)
    decreases |r|
  {
    if |r| <= limit {
      assert Items([Page(r, None)]) == r + Items([]) == r;
    } else {
      var page, rest := Page(r[..limit], Some(Encoded(keyOf(r[limit - 1])))), Pages(r[limit..], keyOf, limit);
      PagesHoldAll(r[limit..], keyOf, limit);
      assert ([page] + rest)[1..] == rest;
      assert r == r[..limit] + r[limit..];
    }
  }

  lemma {:induction false} FilterTwice<T>(p: T -> bool, q: T -> bool, s: seq<T>)
    requires forall i :: 0 <= i < |s| && p(s[i]) ==> q(s[i])
    ensures Filter(p, Filter(q, s)) == Filter(p, s)
  {
    if s != [] {
      FilterTwice(p, q, s[1..]);
      var head := if q(s[0]) then [s[0]] else [];
      FilterConcat(p, head, Filter(q, s[1..]));
    }
  }

  /** What is left behind a row of what is left is what follows the row. */
  lemma RemainingNext<T>(s: seq<T>, keyOf: T -> PageKey, after: Option<PageKey>, k: nat)
    requires Descending(s, keyOf) && k < |Remaining(s, keyOf, after)|
    ensures var r := Remaining(s, keyOf, after); Remaining(s, keyOf, Some(keyOf(r[k]))) == r[k + 1..]
  {
    var r := Remaining(s, keyOf, after);
    var p := OlderThan(keyOf, keyOf(r[k]));
    if after.Some? {
      var q := OlderThan(keyOf, after.value);
      FilterDescends(q, s, keyOf);
      FilterMember(q, s, r[k]);
      assert r[k] in r;
      forall i | 0 <= i < |s| && p(s[i])
        ensures q(s[i])
      {
        CompareIsOrder(after.value, keyOf(r[k]), keyOf(s[i]));
      }
      FilterTwice(p, q, s);
    }
    OlderIsSuffix(r, keyOf, k);
  }

  /** Following cursors over sorted rows cuts what is left into pages. */
  lemma {:induction false} FollowIsPages<T>(s: seq<T>, keyOf: T -> PageKey, limit: nat, after: Option<PageKey>)
    requires limit >= 1 && Descending(s, keyOf)
    ensures Follow(s, keyOf, limit, after) == Pages(Remaining(s, keyOf, after), keyOf, limit)
    decreases |Remaining(s, keyOf, after)|
  {
    var r := Remaining(s, keyOf, after);
    if |r| <= limit {
      assert PageOf(s, keyOf, limit, after) == Page(r, None);
    } else {
      var next := keyOf(r[limit - 1]);
      assert PageOf(s, keyOf, limit, after) == Page(r[..limit], Some(Encoded(next)));
      RemainingNext(s, keyOf, after, limit - 1);
      FollowIsPages(s, keyOf, limit, Some(next));
    }
  }

  /** Following the cursors to the end yields all rows, newest first, each once, in
      max(1, ceil(n / limit)) pages. */
  lemma FollowsAllRows<T(!new)>(rows: seq<T>, keyOf: T -> PageKey, limit: nat)
    requires limit >= 1 && DistinctKeys(rows, keyOf)
    ensures var pages := FollowCursors(rows, keyOf, limit, None);
      && pages.Success?
      && Descending(Items(pages.value), keyOf) && multiset(Items(pages.value)) == multiset(rows)
      && (forall i, j :: 0 <= i < j < |Items(pages.value)| ==>
            keyOf(Items(pages.value)[i]).at >= keyOf(Items(pages.value)[j]).at)
      && |pages.value| == PageCount(|rows|, limit)
  {
    FollowCursorsIs(rows, keyOf, limit, None);
    var s := SortedDesc(rows, keyOf);
    SortsDescending(rows, keyOf);
    FollowIsPages(s, keyOf, limit, None);
    PagesHoldAll(s, keyOf, limit);
    ChunksArePageCount(|rows|, limit);
  }

  // ---------------------------------------------------------------------------
  // Rows inserted between requests
  // ---------------------------------------------------------------------------

  lemma {:induction false} FilterDescends<T>(p: T -> bool, s: seq<T>, keyOf: T -> PageKey)
    requires Descending(s, keyOf)
    ensures Descending(Filter(p, s), keyOf)
  {
    if s != [] {
      var rest := Filter(p, s[1..]);
      FilterDescends(p, s[1..], keyOf);
      forall j | 0 <= j < |rest|
        ensures CompareDesc(keyOf(s[0]), keyOf(rest[j])) < 0
      {
        FilterMember(p, s[1..], rest[j]);
        assert rest[j] in rest;
        var i :| 0 <= i < |s[1..]| && s[1..][i] == rest[j];
        assert s[i + 1] == rest[j];
      }
    }
  }

  lemma DescendingUnique<T(!new)>(a: seq<T>, b: seq<T>, keyOf: T -> PageKey)
    requires Descending(a, keyOf) && Descending(b, keyOf) && multiset(a) == multiset(b)
    ensures a == b
  {
    forall x, y | x in a && y in a && Newest(keyOf)(x, y) && Newest(keyOf)(y, x)
      ensures x == y
    {
      var i :| 0 <= i < |a| && a[i] == x;
      var j :| 0 <= j < |a| && a[j] == y;
      CompareIsOrder(keyOf(x), keyOf(y), keyOf(y));
      CompareIsOrder(keyOf(a[i]), keyOf(a[j]), keyOf(a[j]));
    }
    AscendingUnique(Newest(keyOf), a, b);
  }

  /** Rows not older than the cursor do not show behind it. */
  lemma NewerRowsDoNotShow<T(!new)>(s: seq<T>, extra: seq<T>, all: seq<T>, keyOf: T -> PageKey, after: PageKey)
    requires Descending(all, keyOf) && Descending(s, keyOf) && multiset(all) == multiset(s) + multiset(extra)
    requires forall i :: 0 <= i < |extra| ==> CompareDesc(after, keyOf(extra[i])) >= 0
    ensures Remaining(all, keyOf, Some(after)) == Remaining(s, keyOf, Some(after))
  {
    var older := OlderThan(keyOf, after);
    FilterDescends(older, all, keyOf);
    FilterDescends(older, s, keyOf);
    FilterPermutes(older, all, s + extra);
    FilterConcat(older, s, extra);
    FilterNone(older, extra);
    DescendingUnique(Filter(older, all), Filter(older, s), keyOf);
  }

  /** Rows inserted between requests that are not older than the cursor change no later page. */
  lemma InsertsChangeNoLaterPage<T(!new)>(rows: seq<T>, extra: seq<T>, all: seq<T>, keyOf: T -> PageKey,
                                          limit: nat, after: PageKey)
    requires limit >= 1
    requires DistinctKeys(all, keyOf) && DistinctKeys(rows, keyOf) && multiset(all) == multiset(rows) + multiset(extra)
    requires forall i :: 0 <= i < |extra| ==> CompareDesc(after, keyOf(extra[i])) >= 0
    ensures FollowCursors(all, keyOf, limit, Some(Encoded(after))) == FollowCursors(rows, keyOf, limit, Some(Encoded(after)))
  {
    FollowCursorsIs(all, keyOf, limit, Some(Encoded(after)));
    FollowCursorsIs(rows, keyOf, limit, Some(Encoded(after)));
    var s, t := SortedDesc(rows, keyOf), SortedDesc(all, keyOf);
    SortsDescending(all, keyOf);
    SortsDescending(rows, keyOf);
    NewerRowsDoNotShow(s, extra, t, keyOf, after);
    FollowIsPages(s, keyOf, limit, Some(after));
    FollowIsPages(t, keyOf, limit, Some(after));
  }
}
