/**
 * `GET /issues`: the stored issues filtered by title search, status, priority and assignee,
 * sorted by one field, counted, and cut down to one page.
 */
module Listing {
  import opened Json
  import opened Text
  import opened Seqs
  import opened Http

  /**
   * The query parameters of `list_issues`. A parameter the request leaves out and one it sends as
   * `null` are both `None`; FastAPI fills in `sortBy = "updatedAt"`, `sortDir = "desc"`,
   * `page = 1` and `pageSize = 10` when they are absent, so a caller passes those defaults here.
   */
  datatype ListQuery = ListQuery(search: Option<string>, status: Option<string>, priority: Option<string>,
                                 assignee: Option<string>, sortBy: Option<string>, sortDir: Option<string>,
                                 page: int, pageSize: int)

  /** The declared bounds `page >= 1` and `1 <= pageSize <= 100`. */
  predicate ValidPaging(q: ListQuery) {
    q.page >= 1 && 1 <= q.pageSize <= 100
  }

  /** Python truthiness of an optional query string (`if search:`). */
  predicate Given(o: Option<string>) {
    o.Some? && o.value != ""
  }

  // ---- Filters ----

  /** `i.get("title", "")` has a `lower()` method: the title is absent or a string. */
  predicate TitleIsText(i: Object) {
    "title" in i ==> i["title"].VStr?
  }

  predicate AllTitlesText(issues: seq<Object>) {
    forall k :: 0 <= k < |issues| ==> TitleIsText(issues[k])
  }

  function TitleOf(i: Object): string
    requires TitleIsText(i)
  {
    if "title" in i then i["title"].s else ""
  }

  /** `s in i.get("title", "").lower()` with `s = search.lower()`. */
  predicate SearchMatches(i: Object, search: string) {
    TitleIsText(i) && Contains(Lower(TitleOf(i)), Lower(search))
  }

  /**
   * The search stage. A title that is not a string makes `lower()` raise, which the handler does
   * not catch.
   */
  function SearchStage(issues: seq<Object>, search: Option<string>): Result<seq<Object>> {
    if !Given(search) then Ok(issues)
    else if !AllTitlesText(issues) then Err(InternalError)
    else Ok(Filter(issues, i => SearchMatches(i, search.value)))
  }

  /** `i.get(key) == want` for a string `want`. */
  predicate FieldIs(i: Object, key: string, want: string) {
    key in i && i[key] == VStr(want)
  }

  /** One equality stage: `[i for i in issues if i.get(key) == want]` when `want` is given. */
  function EqStage(issues: seq<Object>, key: string, want: Option<string>): seq<Object> {
    if Given(want) then Filter(issues, i => FieldIs(i, key, want.value)) else issues
  }

  /** The four stages in the handler's order: search, status, priority, assignee. */
  function Filtered(issues: seq<Object>, q: ListQuery): Result<seq<Object>> {
    match SearchStage(issues, q.search)
    case Err(e) => Err(e)
    case Ok(a) => Ok(EqStage(EqStage(EqStage(a, "status", q.status), "priority", q.priority), "assignee", q.assignee))
  }

  /** An issue passes the search stage: it matches when a search is given. */
  predicate PassesSearch(i: Object, search: Option<string>) {
    Given(search) ==> SearchMatches(i, search.value)
  }

  /** An issue passes a stage that is given exactly when it matches it; a stage not given passes all. */
  predicate PassesEq(i: Object, key: string, want: Option<string>) {
    Given(want) ==> FieldIs(i, key, want.value)
  }

  /** The condition an issue has to meet to be listed. */
  predicate Matches(i: Object, q: ListQuery) {
    PassesSearch(i, q.search) && PassesEq(i, "status", q.status)
    && PassesEq(i, "priority", q.priority) && PassesEq(i, "assignee", q.assignee)
  }

  /** An equality stage keeps exactly the issues that pass it, in order; not given, it keeps all. */
  lemma EqStageIsFilter(issues: seq<Object>, key: string, want: Option<string>)
    ensures EqStage(issues, key, want) == Filter(issues, i => PassesEq(i, key, want))
  {
    if Given(want) {
      FilterTwice(issues, i => true, i => FieldIs(i, key, want.value), i => PassesEq(i, key, want));
      FilterAllPass(issues, i => true);
    } else {
      FilterAllPass(issues, i => PassesEq(i, key, want));
    }
  }

  /** The search stage fails only on a non-text title, and otherwise keeps exactly the matches. */
  lemma SearchStageIsFilter(issues: seq<Object>, search: Option<string>)
    ensures SearchStage(issues, search).Err? <==> Given(search) && !AllTitlesText(issues)
    ensures SearchStage(issues, search).Ok? ==>
      SearchStage(issues, search).value == Filter(issues, i => PassesSearch(i, search))
  {
    if Given(search) {
      FilterTwice(issues, i => true, i => SearchMatches(i, search.value), i => PassesSearch(i, search));
      FilterAllPass(issues, i => true);
    } else {
      FilterAllPass(issues, i => PassesSearch(i, search));
    }
  }

  /**
   * The filters together keep exactly the issues that match the whole query, each as often as it
   * is stored, in stored order, so the result is a subsequence of the store.
   */
  lemma FilteredIsMatches(issues: seq<Object>, q: ListQuery)
    ensures Filtered(issues, q).Err? <==> Given(q.search) && !AllTitlesText(issues)
    ensures Filtered(issues, q).Ok? ==> Filtered(issues, q).value == Filter(issues, i => Matches(i, q))
  {
    SearchStageIsFilter(issues, q.search);
    if Filtered(issues, q).Ok? {
      var S := i => PassesSearch(i, q.search);
      var St := i => PassesEq(i, "status", q.status);
      var P := i => PassesEq(i, "priority", q.priority);
      var A := i => PassesEq(i, "assignee", q.assignee);
      var a := Filter(issues, S);
      var b := EqStage(a, "status", q.status);
      var c := EqStage(b, "priority", q.priority);
      EqStageIsFilter(a, "status", q.status);
      EqStageIsFilter(b, "priority", q.priority);
      EqStageIsFilter(c, "assignee", q.assignee);
      var h1 := i => S(i) && St(i);
      var h2 := i => h1(i) && P(i);
      FilterTwice(issues, S, St, h1);
      FilterTwice(issues, h1, P, h2);
      FilterTwice(issues, h2, A, i => Matches(i, q));
    }
  }

  /** The listed matches: in the store, matching, all of them, and in stored order. */
  lemma FilteredExactly(issues: seq<Object>, q: ListQuery)
    requires Filtered(issues, q).Ok?
    ensures forall i :: i in Filtered(issues, q).value ==> i in issues && Matches(i, q)
    ensures forall i | i in issues && Matches(i, q) ::
      multiset(Filtered(issues, q).value)[i] == multiset(issues)[i]
    ensures IsSubseq(Filtered(issues, q).value, issues)
  {
    FilteredIsMatches(issues, q);
    FilterKeepsExactlyMatching(issues, i => Matches(i, q));
  }

  /** A query with no filter given lists every stored issue. */
  lemma NoFiltersKeepAll(issues: seq<Object>, q: ListQuery)
    requires !Given(q.search) && !Given(q.status) && !Given(q.priority) && !Given(q.assignee)
    ensures Filtered(issues, q) == Ok(issues)
  {
  }

  /** The search keeps an issue exactly when the lower-cased query occurs in its lower-cased title. */
  lemma SearchKeepsIff(issues: seq<Object>, search: string, i: Object)
    requires search != "" && AllTitlesText(issues)
    ensures SearchStage(issues, Some(search)).Ok?
    ensures i in SearchStage(issues, Some(search)).value <==>
      i in issues && Contains(Lower(TitleOf(i)), Lower(search))
  {
    FilterKeepsExactlyMatching(issues, i => SearchMatches(i, search));
    if i in issues {
      var k :| 0 <= k < |issues| && issues[k] == i;
      if Contains(Lower(TitleOf(i)), Lower(search)) {
        assert multiset(issues)[i] > 0;
      }
    }
  }

  // ---- Sorting ----

  /** `x.get(sortBy) or ""`: the field's value when it is truthy, the empty string otherwise. */
  function SortKey(i: Object, field: Option<string>): Value {
    if field.Some? && field.value in i && Truthy(i[field.value]) then i[field.value] else VStr("")
  }

  /** Python's `<` on strings: code point by code point, a proper prefix first. */
  predicate StrLess(a: string, b: string)
    decreases |a|
  {
    if a == [] then b != []
    else if b == [] then false
    else if a[0] != b[0] then a[0] < b[0]
    else StrLess(a[1..], b[1..])
  }

  /**
   * The key order: numbers by value and strings as Python orders them. Python refuses to compare
   * a number with a string; here every number comes before every string.
   */
  predicate Less(a: Value, b: Value) {
    match (a, b)
    case (VInt(m), VInt(n)) => m < n
    case (VStr(s), VStr(t)) => StrLess(s, t)
    case (VNull, VNull) => false
    case _ => Rank(a) < Rank(b)
  }

  function Rank(v: Value): nat {
    match v
    case VNull => 0
    case VInt(_) => 1
    case VStr(_) => 2
  }

  lemma {:induction false} StrLessIrreflexive(a: string)
    ensures !StrLess(a, a)
    decreases |a|
  {
    if a != [] {
      StrLessIrreflexive(a[1..]);
    }
  }

  lemma {:induction false} StrLessTransitive(a: string, b: string, c: string)
    requires StrLess(a, b) && StrLess(b, c)
    ensures StrLess(a, c)
    decreases |a|
  {
    if a != [] && b != [] && c != [] && a[0] == b[0] && b[0] == c[0] {
      StrLessTransitive(a[1..], b[1..], c[1..]);
    }
  }

  lemma {:induction false} StrLessTotal(a: string, b: string)
    requires a != b
    ensures StrLess(a, b) || StrLess(b, a)
    decreases |a|
  {
    if a != [] && b != [] && a[0] == b[0] {
      assert a == [a[0]] + a[1..] && b == [b[0]] + b[1..];
      StrLessTotal(a[1..], b[1..]);
    }
  }

  /** `Less` is a strict total order on keys. */
  lemma LessIsStrictTotalOrder(a: Value, b: Value, c: Value)
    ensures !Less(a, a)
    ensures Less(a, b) && Less(b, c) ==> Less(a, c)
    ensures a != b ==> Less(a, b) || Less(b, a)
  {
    if a.VStr? {
      StrLessIrreflexive(a.s);
      if b.VStr? && c.VStr? && StrLess(a.s, b.s) && StrLess(b.s, c.s) {
        StrLessTransitive(a.s, b.s, c.s);
      }
      if b.VStr? && a != b {
        StrLessTotal(a.s, b.s);
      }
    }
  }

  /** `a` goes strictly before `b`: a smaller key ascending, a larger key with `reverse=True`. */
  predicate Before(a: Object, b: Object, field: Option<string>, desc: bool) {
    if desc then Less(SortKey(b, field), SortKey(a, field)) else Less(SortKey(a, field), SortKey(b, field))
  }

  /** Put `x` in front of the first element that does not go strictly before it. */
  function Insert(x: Object, r: seq<Object>, field: Option<string>, desc: bool): seq<Object> {
    if r == [] || !Before(r[0], x, field, desc) then [x] + r
    else [r[0]] + Insert(x, r[1..], field, desc)
  }

  /**
   * `issues.sort(key=…, reverse=desc)`: a stable sort, which with `reverse=True` orders by
   * decreasing key and still keeps issues with equal keys in their original order.
   */
  function Sort(s: seq<Object>, field: Option<string>, desc: bool): seq<Object>
    decreases |s|
  {
    if s == [] then [] else Insert(s[0], Sort(s[1..], field, desc), field, desc)
  }

  /** No element goes strictly before an earlier one. */
  predicate SortedBy(r: seq<Object>, field: Option<string>, desc: bool) {
    forall i, j :: 0 <= i < j < |r| ==> !Before(r[j], r[i], field, desc)
  }

  lemma {:induction false} InsertPermutes(x: Object, r: seq<Object>, field: Option<string>, desc: bool)
    ensures multiset(Insert(x, r, field, desc)) == multiset([x]) + multiset(r)
    decreases |r|
  {
    if r != [] && Before(r[0], x, field, desc) {
      InsertPermutes(x, r[1..], field, desc);
      assert r == [r[0]] + r[1..];
    }
  }

  /**
   * `Before` orders issues strictly and, since keys are totally ordered, "not before" is
   * transitive too.
   */
  lemma BeforeIsStrictWeakOrder(a: Object, b: Object, c: Object, field: Option<string>, desc: bool)
    ensures !Before(a, a, field, desc)
    ensures Before(a, b, field, desc) && Before(b, c, field, desc) ==> Before(a, c, field, desc)
    ensures Before(c, a, field, desc) ==> Before(c, b, field, desc) || Before(b, a, field, desc)
    ensures Before(a, b, field, desc) ==> SortKey(a, field) != SortKey(b, field)
  {
    var ka, kb, kc := SortKey(a, field), SortKey(b, field), SortKey(c, field);
    LessIsStrictTotalOrder(ka, kb, kc);
    LessIsStrictTotalOrder(kc, ka, kb);
    LessIsStrictTotalOrder(kb, kc, ka);
    LessIsStrictTotalOrder(kc, kb, ka);
    LessIsStrictTotalOrder(ka, kc, kb);
    LessIsStrictTotalOrder(kb, ka, kc);
  }

  lemma ConsSorted(a: Object, t: seq<Object>, field: Option<string>, desc: bool)
    requires SortedBy(t, field, desc)
    requires forall j :: 0 <= j < |t| ==> !Before(t[j], a, field, desc)
    ensures SortedBy([a] + t, field, desc)
  {
    var res := [a] + t;
    forall i, j | 0 <= i < j < |res| ensures !Before(res[j], res[i], field, desc) {
      assert res[j] == t[j - 1];
      if i > 0 {
        assert res[i] == t[i - 1];
      }
    }
  }

  lemma {:induction false} InsertSorted(x: Object, r: seq<Object>, field: Option<string>, desc: bool)
    requires SortedBy(r, field, desc)
    ensures SortedBy(Insert(x, r, field, desc), field, desc)
    decreases |r|
  {
    if r != [] && Before(r[0], x, field, desc) {
      var tail := r[1..];
      assert SortedBy(tail, field, desc) by {
        forall i, j | 0 <= i < j < |tail| ensures !Before(tail[j], tail[i], field, desc) {
          assert tail[j] == r[j + 1] && tail[i] == r[i + 1];
        }
      }
      InsertSorted(x, tail, field, desc);
      var t := Insert(x, tail, field, desc);
      InsertPermutes(x, tail, field, desc);
      forall j | 0 <= j < |t| ensures !Before(t[j], r[0], field, desc) {
        var y := t[j];
        assert y in multiset(t);
        if y == x {
          BeforeIsStrictWeakOrder(r[0], x, r[0], field, desc);
        } else {
          assert y in multiset(tail);
          var m :| 0 <= m < |tail| && tail[m] == y;
          assert r[m + 1] == y;
        }
      }
      ConsSorted(r[0], t, field, desc);
    } else if r != [] {
      forall j | 0 <= j < |r| ensures !Before(r[j], x, field, desc) {
        BeforeIsStrictWeakOrder(x, r[0], r[j], field, desc);
      }
      ConsSorted(x, r, field, desc);
    }
  }

  /** The sort returns a rearrangement of its input, ordered by key in the requested direction. */
  lemma {:induction false} SortPermutesAndOrders(s: seq<Object>, field: Option<string>, desc: bool)
    ensures multiset(Sort(s, field, desc)) == multiset(s)
    ensures SortedBy(Sort(s, field, desc), field, desc)
    decreases |s|
  {
    if s != [] {
      SortPermutesAndOrders(s[1..], field, desc);
      InsertPermutes(s[0], Sort(s[1..], field, desc), field, desc);
      InsertSorted(s[0], Sort(s[1..], field, desc), field, desc);
      assert s == [s[0]] + s[1..];
    }
  }

  /** Ascending, keys never decrease; with `sortDir == "desc"`, keys never increase. */
  lemma SortDirection(s: seq<Object>, field: Option<string>, desc: bool, i: int, j: int)
    requires 0 <= i < j < |Sort(s, field, desc)|
    ensures var r := Sort(s, field, desc);
      if desc then !Less(SortKey(r[i], field), SortKey(r[j], field))
      else !Less(SortKey(r[j], field), SortKey(r[i], field))
  {
    SortPermutesAndOrders(s, field, desc);
  }

  /** The issues with one key, in the order they appear. */
  function WithKey(s: seq<Object>, field: Option<string>, k: Value): seq<Object> {
    Filter(s, i => SortKey(i, field) == k)
  }

  lemma {:induction false} InsertStable(x: Object, r: seq<Object>, field: Option<string>, desc: bool, k: Value)
    ensures WithKey(Insert(x, r, field, desc), field, k) ==
      (if SortKey(x, field) == k then [x] else []) + WithKey(r, field, k)
    decreases |r|
  {
    if r != [] && Before(r[0], x, field, desc) {
      InsertStable(x, r[1..], field, desc, k);
      var k0 := SortKey(r[0], field);
      LessIsStrictTotalOrder(k0, k0, k0);
      assert ([r[0]] + Insert(x, r[1..], field, desc))[1..] == Insert(x, r[1..], field, desc);
      if k0 == k {
        assert SortKey(x, field) != k;
      }
    } else {
      assert ([x] + r)[1..] == r;
    }
  }

  /** The sort is stable: the issues with any one key keep their original relative order. */
  lemma {:induction false} SortStable(s: seq<Object>, field: Option<string>, desc: bool, k: Value)
    ensures WithKey(Sort(s, field, desc), field, k) == WithKey(s, field, k)
    decreases |s|
  {
    if s != [] {
      SortStable(s[1..], field, desc, k);
      InsertStable(s[0], Sort(s[1..], field, desc), field, desc, k);
    }
  }

  // ---- Pagination and the response ----

  /** Python's `s[start:end]` for `0 <= start <= end`: out-of-range bounds are clamped to the length. */
  function Slice(s: seq<Object>, start: nat, end: nat): seq<Object>
    requires start <= end
  {
    var a := if start <= |s| then start else |s|;
    var b := if end <= |s| then end else |s|;
    s[a..b]
  }

  /** The body of the response. */
  datatype ListResponse = ListResponse(total: nat, page: int, pageSize: int, issues: seq<Object>)

  /** `start = (page - 1) * pageSize`, never negative for a valid page. */
  function PageStart(page: int, pageSize: int): (start: nat)
    requires page >= 1 && pageSize >= 0
    ensures start == (page - 1) * pageSize
  {
    MulNonNegative(page - 1, pageSize);
    (page - 1) * pageSize
  }

  lemma MulNonNegative(a: int, b: int)
    requires a >= 0 && b >= 0
    ensures a * b >= 0
  {
  }

  /** `issues[start:end]` with `start = (page - 1) * pageSize` and `end = start + pageSize`. */
  function PageOf(sorted: seq<Object>, page: int, pageSize: int): seq<Object>
    requires page >= 1 && pageSize >= 0
  {
    var start := PageStart(page, pageSize);
    Slice(sorted, start, start + pageSize)
  }

  function Min(a: int, b: int): int {
    if a <= b then a else b
  }

  function Max(a: int, b: int): int {
    if a >= b then a else b
  }

  /**
   * A page holds `min(pageSize, max(0, total - start))` issues, the ones at positions
   * `start, start + 1, …` of the sorted list: a page past the end is empty.
   */
  lemma PageWindow(sorted: seq<Object>, page: int, pageSize: int)
    requires page >= 1 && pageSize >= 0
    ensures var start, items := PageStart(page, pageSize), PageOf(sorted, page, pageSize);
      && |items| == Min(pageSize, Max(0, |sorted| - start))
      && (items != [] ==> start + |items| <= |sorted| && items == sorted[start..start + |items|])
  {
  }

  /** Consecutive pages meet: page `p + 1` starts where page `p` ends, so pages neither overlap nor leave gaps. */
  lemma PagesAdjacent(page: int, pageSize: int)
    requires page >= 1 && pageSize >= 0
    ensures PageStart(page + 1, pageSize) == PageStart(page, pageSize) + pageSize
    ensures PageStart(1, pageSize) == 0
  {
  }

  lemma DivMod(k: nat, n: nat)
    requires n > 0
    ensures (k / n) * n + k % n == k && 0 <= k % n < n
  {
  }

  /** Entry `k` of the sorted list is entry `k % pageSize` of page `k / pageSize + 1`. */
  lemma PagesCover(sorted: seq<Object>, pageSize: int, k: nat)
    requires pageSize >= 1 && k < |sorted|
    ensures var items := PageOf(sorted, k / pageSize + 1, pageSize);
      k % pageSize < |items| && items[k % pageSize] == sorted[k]
  {
    var p := k / pageSize + 1;
    var start, off := PageStart(p, pageSize), k % pageSize;
    assert start + off == k && off < pageSize by {
      DivMod(k, pageSize);
    }
    PageWindow(sorted, p, pageSize);
  }

  /** `list_issues` over the stored issues. */
  function ListIssues(stored: seq<Object>, q: ListQuery): Result<ListResponse> {
    if !ValidPaging(q) then Err(Unprocessable)
    else
      match Filtered(stored, q)
      case Err(e) => Err(e)
      case Ok(issues) =>
        Ok(ListResponse(|issues|, q.page, q.pageSize, PageOf(Sort(issues, q.sortBy, q.sortDir == Some("desc")), q.page, q.pageSize)))
  }

  /** The two ways a listing fails: out-of-range paging (checked first), or a search over a non-text title. */
  lemma ListErrors(stored: seq<Object>, q: ListQuery)
    ensures ListIssues(stored, q) == Err(Unprocessable) <==> !ValidPaging(q)
    ensures ListIssues(stored, q) == Err(InternalError) <==>
      ValidPaging(q) && Given(q.search) && !AllTitlesText(stored)
    ensures ListIssues(stored, q).Err? ==>
      ListIssues(stored, q) == Err(Unprocessable) || ListIssues(stored, q) == Err(InternalError)
  {
    FilteredIsMatches(stored, q);
  }

  /** The issues a query lists, before sorting. */
  function Matching(stored: seq<Object>, q: ListQuery): seq<Object> {
    Filter(stored, i => Matches(i, q))
  }

  /** The matches in the requested order. */
  function SortedMatches(stored: seq<Object>, q: ListQuery): seq<Object> {
    Sort(Matching(stored, q), q.sortBy, q.sortDir == Some("desc"))
  }

  /**
   * A listing that succeeds: `total` counts every matching issue (also the number of sorted
   * matches), the requested `page` and `pageSize` come back as sent, and the page is the window
   * of the sorted matches that `PageWindow` describes.
   */
  lemma ListPage(stored: seq<Object>, q: ListQuery)
    requires ListIssues(stored, q).Ok?
    ensures var r := ListIssues(stored, q).value;
      && r.total == |Matching(stored, q)| == |SortedMatches(stored, q)|
      && r.page == q.page && r.pageSize == q.pageSize
      && r.issues == PageOf(SortedMatches(stored, q), q.page, q.pageSize)
  {
    FilteredIsMatches(stored, q);
    var matched := Matching(stored, q);
    SortPermutesAndOrders(matched, q.sortBy, q.sortDir == Some("desc"));
    var sorted := SortedMatches(stored, q);
    assert |sorted| == |multiset(sorted)| == |matched|;
  }

  /** Only the filters decide which issues match. */
  lemma MatchingIgnoresPaging(stored: seq<Object>, q: ListQuery, q': ListQuery)
    requires q'.search == q.search && q'.status == q.status && q'.priority == q.priority && q'.assignee == q.assignee
    ensures Filtered(stored, q') == Filtered(stored, q) && Matching(stored, q') == Matching(stored, q)
  {
    assert forall i :: Matches(i, q') == Matches(i, q);
    FilterTwice(stored, i => true, i => Matches(i, q), i => Matches(i, q'));
    FilterAllPass(stored, i => true);
  }

  /** The total does not depend on which page is asked for, nor on its size or the sort order. */
  lemma TotalIndependentOfPaging(stored: seq<Object>, q: ListQuery, page: int, pageSize: int,
                                 sortBy: Option<string>, sortDir: Option<string>)
    requires ListIssues(stored, q).Ok?
    requires 1 <= page && 1 <= pageSize <= 100
    ensures var q' := q.(page := page, pageSize := pageSize, sortBy := sortBy, sortDir := sortDir);
      ListIssues(stored, q').Ok? && ListIssues(stored, q').value.total == ListIssues(stored, q).value.total
  {
    var q' := q.(page := page, pageSize := pageSize, sortBy := sortBy, sortDir := sortDir);
    MatchingIgnoresPaging(stored, q, q');
  }

  /** Any other page of the same query is the window, at that page, of the same sorted matches. */
  lemma OtherPage(stored: seq<Object>, q: ListQuery, page: int)
    requires ListIssues(stored, q).Ok? && page >= 1
    ensures ListIssues(stored, q.(page := page)).Ok?
    ensures ListIssues(stored, q.(page := page)).value.issues == PageOf(SortedMatches(stored, q), page, q.pageSize)
  {
    var q' := q.(page := page);
    MatchingIgnoresPaging(stored, q, q');
    ListPage(stored, q');
  }

  /**
   * Page `page` of a query lists, at offset `off`, the sorted match at position
   * `(page - 1) * pageSize + off`, so walking the pages in turn visits every match once
   * (`PagesCover` gives, for match `k`, the page `k / pageSize + 1` and offset `k % pageSize`).
   */
  lemma PagesCoverMatches(stored: seq<Object>, q: ListQuery, page: int, off: int)
    requires ListIssues(stored, q).Ok? && page >= 1 && 0 <= off < q.pageSize
    requires PageStart(page, q.pageSize) + off < ListIssues(stored, q).value.total
    ensures PageStart(page, q.pageSize) + off < |SortedMatches(stored, q)|
    ensures var items := ListIssues(stored, q.(page := page));
      items.Ok? && off < |items.value.issues|
      && items.value.issues[off] == SortedMatches(stored, q)[PageStart(page, q.pageSize) + off]
  {
    ListPage(stored, q);
    OtherPage(stored, q, page);
    PageWindow(SortedMatches(stored, q), page, q.pageSize);
  }
}
