/** What the list endpoints do with a query result: `.sort(...)`,
    `.skip(n).limit(m)` and the `{ page, pages, total }` summary. Sorting is
    stated for any total preorder; strings compare by code unit, as the
    database's default collation does. */
module Listing {
  import opened Common

  /** Lexicographic order on strings, by character code. */
  predicate StrLe(a: string, b: string)
    decreases |a|
  {
    a == [] || (b != [] && (a[0] < b[0] || (a[0] == b[0] && StrLe(a[1..], b[1..]))))
  }

  lemma {:induction false} StrLeTotal(a: string, b: string)
    ensures StrLe(a, b) || StrLe(b, a)
    decreases |a|
  {
    if a != [] && b != [] && a[0] == b[0] {
      StrLeTotal(a[1..], b[1..]);
    }
  }

  lemma {:induction false} StrLeTransitive(a: string, b: string, c: string)
    requires StrLe(a, b) && StrLe(b, c)
    ensures StrLe(a, c)
    decreases |a|
  {
    if a != [] && a[0] == b[0] && b[0] == c[0] {
      StrLeTransitive(a[1..], b[1..], c[1..]);
    }
  }

  lemma {:induction false} StrLeAntisymmetric(a: string, b: string)
    requires StrLe(a, b) && StrLe(b, a)
    ensures a == b
    decreases |a|
  {
    if a != [] {
      StrLeAntisymmetric(a[1..], b[1..]);
    }
  }

  ghost predicate TotalPreorder<T(!new)>(le: (T, T) -> bool) {
    && (forall x, y :: le(x, y) || le(y, x))
    && (forall x, y, z :: le(x, y) && le(y, z) ==> le(x, z))
  }

  predicate SortedBy<T>(le: (T, T) -> bool, s: seq<T>) {
    forall i, j :: 0 <= i < j < |s| ==> le(s[i], s[j])
  }

  /** Places `x` before the first element it does not exceed. */
  function Insert<T>(le: (T, T) -> bool, x: T, s: seq<T>): (r: seq<T>)
    ensures multiset(r) == multiset(s) + multiset{x}
    ensures |r| == |s| + 1
  {
    if s == [] then [x]
    else if le(x, s[0]) then [x] + s
    else
      assert s == [s[0]] + s[1..];
      [s[0]] + Insert(le, x, s[1..])
  }

  /** A stable insertion sort: the model's choice among the orders the
      database may return when keys tie. */
  function SortBy<T>(le: (T, T) -> bool, s: seq<T>): (r: seq<T>)
    ensures multiset(r) == multiset(s)
    ensures |r| == |s|
  {
    if s == [] then []
    else
      assert s == [s[0]] + s[1..];
      Insert(le, s[0], SortBy(le, s[1..]))
  }

  lemma {:induction false} InsertSorted<T(!new)>(le: (T, T) -> bool, x: T, s: seq<T>)
    requires TotalPreorder(le)
    requires SortedBy(le, s)
    ensures SortedBy(le, Insert(le, x, s))
  {
    if s != [] && !le(x, s[0]) {
      var rest := Insert(le, x, s[1..]);
      InsertSorted(le, x, s[1..]);
      assert le(s[0], x);
      forall k | 0 <= k < |rest| ensures le(s[0], rest[k]) {
        assert rest[k] in multiset(rest);
        assert rest[k] in multiset(s[1..]) + multiset{x};
        if rest[k] != x {
          assert rest[k] in s[1..];
          var j :| 0 <= j < |s[1..]| && s[1..][j] == rest[k];
          assert s[j + 1] == rest[k];
        }
      }
      var r := [s[0]] + rest;
      forall i, j | 0 <= i < j < |r| ensures le(r[i], r[j]) {
        if i > 0 {
          assert r[i] == rest[i - 1] && r[j] == rest[j - 1];
        } else {
          assert r[j] == rest[j - 1];
        }
      }
    }
  }

  /** The sort returns the elements it was given, in order. */
  lemma {:induction false} SortBySorted<T(!new)>(le: (T, T) -> bool, s: seq<T>)
    requires TotalPreorder(le)
    ensures SortedBy(le, SortBy(le, s))
    ensures multiset(SortBy(le, s)) == multiset(s)
  {
    if s != [] {
      SortBySorted(le, s[1..]);
      InsertSorted(le, s[0], SortBy(le, s[1..]));
    }
  }

  /** `find(filter)`: the documents `keep` accepts, in storage order. */
  function Filter<T(!new)>(s: seq<T>, keep: T -> bool): (r: seq<T>)
    ensures |r| <= |s|
    ensures forall x :: x in r <==> x in s && keep(x)
  {
    if s == [] then [] else (if keep(s[0]) then [s[0]] else []) + Filter(s[1..], keep)
  }

  /** Filtering keeps every accepted document as often as it occurs and
      drops every other one. */
  lemma {:induction false} FilterCounts<T(!new)>(s: seq<T>, keep: T -> bool)
    ensures forall x :: multiset(Filter(s, keep))[x] == if keep(x) then multiset(s)[x] else 0
  {
    if s != [] {
      assert s == [s[0]] + s[1..];
      FilterCounts(s[1..], keep);
    }
  }

  /** Filtering a concatenation filters each part. */
  lemma {:induction false} FilterAppend<T(!new)>(a: seq<T>, b: seq<T>, keep: T -> bool)
    ensures Filter(a + b, keep) == Filter(a, keep) + Filter(b, keep)
  {
    if a == [] {
      assert a + b == b;
    } else {
      var head := if keep(a[0]) then [a[0]] else [];
      assert (a + b)[0] == a[0] && (a + b)[1..] == a[1..] + b;
      assert Filter(a + b, keep) == head + Filter(a[1..] + b, keep);
      FilterAppend(a[1..], b, keep);
      assert Filter(a, keep) == head + Filter(a[1..], keep);
      assert head + (Filter(a[1..], keep) + Filter(b, keep)) == (head + Filter(a[1..], keep)) + Filter(b, keep);
    }
  }

  function Min(a: int, b: int): int { if a <= b then a else b }

  /** `.skip(skip).limit(limit)`: the database applies skip before limit in
      either call order; a limit of 0 means no limit and a negative limit
      returns at most its absolute value. */
  function Window<T>(s: seq<T>, skip: nat, limit: int): (r: seq<T>)
    ensures limit != 0 ==> |r| <= if limit < 0 then -limit else limit
    ensures skip >= |s| ==> r == []
    ensures forall k :: 0 <= k < |r| ==> skip + k < |s| && r[k] == s[skip + k]
    ensures limit == 0 && skip <= |s| ==> |r| == |s| - skip
    ensures limit > 0 && skip + limit <= |s| ==> |r| == limit
    ensures |r| == if skip >= |s| then 0
                   else if limit == 0 then |s| - skip
                   else Min(if limit < 0 then -limit else limit, |s| - skip)
  {
    var from := if skip < |s| then skip else |s|;
    var n := if limit < 0 then -limit else limit;
    var to := if n == 0 || from + n > |s| then |s| else from + n;
    s[from..to]
  }

  /** `Math.ceil(total / limit)`; `None` stands for the `null` that
      `Infinity` and `NaN` become in the JSON response when the limit is 0. */
  function PageCount(total: nat, limit: int): (r: Option<int>)
    ensures r.None? <==> limit == 0
    ensures limit > 0 ==> r.Some? && (r.value - 1) * limit < total <= r.value * limit
    ensures limit < 0 ==> r.Some? && r.value * limit <= total < (r.value - 1) * limit
  {
    if limit == 0 then None
    else if limit > 0 then
      var q := (total + limit - 1) / limit;
      assert q * limit <= total + limit - 1 < (q + 1) * limit;
      Some(q)
    else
      var q := total / (-limit);
      assert q * (-limit) <= total < (q + 1) * (-limit);
      Some(-q)
  }

  /** The offset `(page - 1) * limit` of a requested page. */
  function SkipFor(page: int, limit: int): (r: int)
    ensures page >= 1 && limit >= 0 ==> r >= 0
    ensures limit > 0 ==> (r < 0 <==> page < 1)
  {
    (page - 1) * limit
  }

  /** The summary the list endpoints return beside the page of documents. */
  datatype PageInfo = PageInfo(page: int, pages: Option<int>, total: nat)

  /** One page of `matches` in the requested order and its summary; `None`
      when the database refuses a negative skip (a 500). */
  function Paginate<T>(matches: seq<T>, page: int, limit: int): (r: Option<(seq<T>, PageInfo)>)
    ensures r.None? <==> SkipFor(page, limit) < 0
    ensures r.Some? ==> r.value.1.total == |matches| && r.value.1.page == page
    ensures r.Some? ==> r.value.0 == Window(matches, SkipFor(page, limit), limit)
    ensures r.Some? ==> r.value.1.pages == PageCount(|matches|, limit)
  {
    var skip := SkipFor(page, limit);
    if skip < 0 then None
    else Some((Window(matches, skip, limit), PageInfo(page, PageCount(|matches|, limit), |matches|)))
  }

  /** The query defaults of both list endpoints, `page = 1` and `limit = 20`,
      applied when the parameter is missing. */
  const DefaultPage := 1
  const DefaultLimit := 20

  /** A request without page and limit gets the first twenty matches and a
      page count of the matches divided by twenty, rounded up. */
  lemma DefaultsGiveFirstPage<T>(matches: seq<T>)
    ensures Paginate(matches, DefaultPage, DefaultLimit) ==
      Some((matches[..Min(DefaultLimit, |matches|)], PageInfo(DefaultPage, Some((|matches| + 19) / 20), |matches|)))
  {
  }

  /** A page is a run of the list it is cut from, so it keeps the list's
      order and holds only its elements. */
  lemma WindowOfSorted<T>(le: (T, T) -> bool, s: seq<T>, skip: nat, limit: int)
    requires SortedBy(le, s)
    ensures SortedBy(le, Window(s, skip, limit))
    ensures forall x :: x in Window(s, skip, limit) ==> x in s
  {
    var w := Window(s, skip, limit);
    forall i, j | 0 <= i < j < |w| ensures le(w[i], w[j]) {
      assert w[i] == s[skip + i] && w[j] == s[skip + j];
    }
    WindowWithin(s, skip, limit);
  }

  lemma WindowWithin<T>(s: seq<T>, skip: nat, limit: int)
    ensures forall x :: x in Window(s, skip, limit) ==> x in s
  {
    var w := Window(s, skip, limit);
    forall x | x in w ensures x in s {
      var k :| 0 <= k < |w| && w[k] == x;
      assert s[skip + k] == x;
    }
  }

  /** A sorted, paginated listing: every page is in order, holds only
      matches, is no longer than the limit, and reports the number of all
      matches. */
  lemma {:induction false} SortedPage<T(!new)>(le: (T, T) -> bool, matches: seq<T>, page: int, limit: int)
    requires TotalPreorder(le) && SkipFor(page, limit) >= 0
    ensures var r := Paginate(SortBy(le, matches), page, limit);
      && r.Some?
      && SortedBy(le, r.value.0)
      && (forall x :: x in r.value.0 ==> x in matches)
      && r.value.1.total == |matches|
      && (limit > 0 ==> |r.value.0| <= limit)
  {
    var sorted := SortBy(le, matches);
    SortBySorted(le, matches);
    WindowOfSorted(le, sorted, SkipFor(page, limit), limit);
    forall x | x in sorted ensures x in matches {
      assert x in multiset(sorted);
    }
  }

  /** Consecutive pages of a positive size do not overlap and leave no gap. */
  lemma PagesTile<T>(s: seq<T>, page: int, limit: int)
    requires page >= 1 && limit > 0
    requires SkipFor(page, limit) + limit <= |s|
    ensures Window(s, SkipFor(page, limit), limit) + Window(s, SkipFor(page + 1, limit), limit)
            == s[SkipFor(page, limit)..if SkipFor(page + 1, limit) + limit <= |s| then SkipFor(page + 1, limit) + limit else |s|]
  {
    assert SkipFor(page + 1, limit) == SkipFor(page, limit) + limit;
  }
}
