/**
 * The client's view state (the global `state` record of frontend/src/app.js), the transitions
 * its UI handlers apply, the list query `load` derives from it, and what `load` does with the
 * list response: write back the total, build the page label and the assignee options.
 */
module Client {
  import opened Json
  import opened Text
  import opened Seqs

  /** The four text filters, `state.filters`; the empty string means "no filter". */
  datatype Filters = Filters(search: string, status: string, priority: string, assignee: string)

  /** Which filter a UI control edits: the search box or one of the three selects. */
  datatype FilterKey = Search | Status | Priority | Assignee

  function FilterValue(f: Filters, k: FilterKey): string {
    match k
    case Search => f.search
    case Status => f.status
    case Priority => f.priority
    case Assignee => f.assignee
  }

  function WithFilter(f: Filters, k: FilterKey, value: string): Filters {
    match k
    case Search => f.(search := value)
    case Status => f.(status := value)
    case Priority => f.(priority := value)
    case Assignee => f.(assignee := value)
  }

  /** A value snapshot of the view state. */
  datatype View = View(page: nat, pageSize: nat, total: nat, sortBy: string, sortDir: string, filters: Filters)

  /** The state the page starts in. */
  const Initial: View := View(1, 10, 0, "updatedAt", "desc", Filters("", "", "", ""))

  /** What every reachable state satisfies: a page from 1 on, a positive page size, a known direction. */
  predicate WellFormed(v: View) {
    v.page >= 1 && v.pageSize >= 1 && (v.sortDir == "asc" || v.sortDir == "desc")
  }

  /** `Math.ceil(total / pageSize)` for a non-negative total and a positive page size. */
  function CeilDiv(total: nat, pageSize: nat): nat
    requires pageSize > 0
  {
    (total + pageSize - 1) / pageSize
  }

  /** The integer ceiling is the least number of pages of `pageSize` that hold `total` items. */
  lemma CeilDivIsCeiling(total: nat, pageSize: nat)
    requires pageSize > 0
    ensures CeilDiv(total, pageSize) * pageSize >= total
    ensures CeilDiv(total, pageSize) > 0 ==> (CeilDiv(total, pageSize) - 1) * pageSize < total
  {
    var c := CeilDiv(total, pageSize);
    assert c * pageSize + (total + pageSize - 1) % pageSize == total + pageSize - 1;
  }

  /** The page count the label shows: `Math.max(1, Math.ceil(total / pageSize))`. */
  function PageCount(total: nat, pageSize: nat): nat
    requires pageSize > 0
  {
    if CeilDiv(total, pageSize) > 1 then CeilDiv(total, pageSize) else 1
  }

  // ---- Transitions of the UI handlers, as functions of the state ----

  /** A filter control changed: store the value, back to page 1. */
  function AfterSetFilter(v: View, k: FilterKey, value: string): View {
    v.(filters := WithFilter(v.filters, k, value), page := 1)
  }

  /** The page-size select changed: store the size, back to page 1. */
  function AfterSetPageSize(v: View, n: nat): View {
    v.(pageSize := n, page := 1)
  }

  /** "Previous": one page back if not on the first page. */
  function AfterPrevPage(v: View): View {
    if v.page > 1 then v.(page := v.page - 1) else v
  }

  /** "Next": one page on if below `Math.ceil(total / pageSize)` (no `max(1, ...)` here). */
  function AfterNextPage(v: View): View
    requires v.pageSize > 0
  {
    if v.page < CeilDiv(v.total, v.pageSize) then v.(page := v.page + 1) else v
  }

  /** A column header was clicked: flip the direction of the current field, or sort a new field ascending. */
  function AfterSortClick(v: View, field: string): View {
    if v.sortBy == field then v.(sortDir := if v.sortDir == "asc" then "desc" else "asc")
    else v.(sortBy := field, sortDir := "asc")
  }

  /** A list response arrived: only its total is written back. */
  function AfterResponse(v: View, total: nat): View {
    v.(total := total)
  }

  // ---- Properties of the transitions ----

  /** Changing a filter puts page at 1 and changes that filter and nothing else. */
  lemma SetFilterResetsPage(v: View, k: FilterKey, value: string)
    ensures var w := AfterSetFilter(v, k, value);
      && w.page == 1 && FilterValue(w.filters, k) == value
      && (forall k' :: k' != k ==> FilterValue(w.filters, k') == FilterValue(v.filters, k'))
      && w.pageSize == v.pageSize && w.total == v.total && w.sortBy == v.sortBy && w.sortDir == v.sortDir
  {
  }

  /** Changing the page size puts page at 1 and changes nothing else. */
  lemma SetPageSizeResetsPage(v: View, n: nat)
    ensures var w := AfterSetPageSize(v, n);
      w.page == 1 && w.pageSize == n && w == v.(page := 1, pageSize := n)
  {
  }

  /** "Previous" moves back exactly one page when it can and never goes below page 1. */
  lemma PrevPageStep(v: View)
    requires v.page >= 1
    ensures var w := AfterPrevPage(v);
      && w.page >= 1
      && (v.page > 1 ==> w.page == v.page - 1)
      && (v.page == 1 ==> w == v)
      && w == v.(page := w.page)
  {
  }

  /** "Next" moves on exactly one page when below the page count and is otherwise a no-op. */
  lemma NextPageStep(v: View)
    requires v.pageSize > 0
    ensures var w := AfterNextPage(v);
      && (v.page < CeilDiv(v.total, v.pageSize) ==> w.page == v.page + 1)
      && (v.page >= CeilDiv(v.total, v.pageSize) ==> w == v)
      && (v.total == 0 ==> w == v)
      && w == v.(page := w.page)
  {
  }

  /** The page lies between 1 and the label's page count. */
  predicate PageInRange(v: View)
    requires v.pageSize > 0
  {
    1 <= v.page <= PageCount(v.total, v.pageSize)
  }

  /** Both navigation buttons keep a page that is in range in range. */
  lemma NavigationKeepsPageInRange(v: View)
    requires v.pageSize > 0 && PageInRange(v)
    ensures PageInRange(AfterPrevPage(v)) && PageInRange(AfterNextPage(v))
  {
  }

  /** Clicking the current sort field flips the direction and keeps everything else. */
  lemma SortClickSameFieldFlips(v: View, field: string)
    requires WellFormed(v) && v.sortBy == field
    ensures var w := AfterSortClick(v, field);
      w.sortDir != v.sortDir && WellFormed(w) && w == v.(sortDir := w.sortDir)
  {
  }

  /** Two clicks on the current sort field restore the state. */
  lemma SortClickTwiceRestores(v: View, field: string)
    requires WellFormed(v) && v.sortBy == field
    ensures AfterSortClick(AfterSortClick(v, field), field) == v
  {
  }

  /** Clicking another field sorts by it ascending (and, unlike a filter change, keeps the page). */
  lemma SortClickNewField(v: View, field: string)
    requires v.sortBy != field
    ensures var w := AfterSortClick(v, field);
      w.sortBy == field && w.sortDir == "asc" && w == v.(sortBy := field, sortDir := "asc")
  {
  }

  /** Every transition keeps a well-formed state well formed (a page size must be positive). */
  lemma TransitionsKeepWellFormed(v: View, k: FilterKey, value: string, n: nat, field: string, total: nat)
    requires WellFormed(v) && n > 0
    ensures WellFormed(AfterSetFilter(v, k, value)) && WellFormed(AfterSetPageSize(v, n))
    ensures WellFormed(AfterPrevPage(v)) && WellFormed(AfterNextPage(v))
    ensures WellFormed(AfterSortClick(v, field)) && WellFormed(AfterResponse(v, total))
  {
  }

  /** A response total changes the total and nothing else. */
  lemma ResponseWritesOnlyTotal(v: View, total: nat)
    ensures AfterResponse(v, total).total == total && AfterResponse(v, total) == v.(total := total)
  {
  }

  /**
   * The page is not reconciled with a smaller total: on page 3 of 10-item pages, an empty
   * response leaves the page beyond the single page the label then counts.
   */
  lemma ResponseMayLeavePageOutOfRange()
    ensures var v := Initial.(page := 3, total := 30);
      PageInRange(v) && !PageInRange(AfterResponse(v, 0))
  {
  }

  // ---- The list query ----

  /** The names of the list query's parameters. */
  datatype Name = FilterName(key: FilterKey) | Page | PageSize | SortBy | SortDir

  /** The text of each name as it appears in the query string. */
  function NameText(n: Name): string {
    match n
    case FilterName(Search) => "search"
    case FilterName(Status) => "status"
    case FilterName(Priority) => "priority"
    case FilterName(Assignee) => "assignee"
    case Page => "page"
    case PageSize => "pageSize"
    case SortBy => "sortBy"
    case SortDir => "sortDir"
  }

  /** Different names are different texts, so the query string keeps them apart. */
  lemma NameTextInjective(m: Name, n: Name)
    requires m != n
    ensures NameText(m) != NameText(n)
  {
    var a, b := NameText(m), NameText(n);
    if |a| == |b| {
      assert a[0] != b[0] || a[1] != b[1] || a[|a| - 1] != b[|b| - 1];
    }
  }

  /** A query parameter: name and value, before percent-encoding. */
  type Param = (Name, string)

  /** The parameter names of `q`, in order. */
  function Names(q: seq<Param>): seq<Name> {
    seq(|q|, i requires 0 <= i < |q| => q[i].0)
  }

  /** The pairs of `q` whose name is not `k`. */
  function Without(q: seq<Param>, k: Name): seq<Param> {
    if q == [] then [] else (if q[0].0 == k then [] else [q[0]]) + Without(q[1..], k)
  }

  /** The pairs of `q` whose name is `k`. */
  function Only(q: seq<Param>, k: Name): seq<Param> {
    if q == [] then [] else (if q[0].0 == k then [q[0]] else []) + Only(q[1..], k)
  }

  lemma NamesAppend(a: seq<Param>, b: seq<Param>)
    ensures Names(a + b) == Names(a) + Names(b)
  {
  }

  lemma ParamsAppend(a: seq<Param>, b: seq<Param>, k: Name)
    ensures Without(a + b, k) == Without(a, k) + Without(b, k)
    ensures Only(a + b, k) == Only(a, k) + Only(b, k)
  {
    WithoutAppend(a, b, k);
    OnlyAppend(a, b, k);
  }

  lemma {:induction false} WithoutAppend(a: seq<Param>, b: seq<Param>, k: Name)
    ensures Without(a + b, k) == Without(a, k) + Without(b, k)
    decreases |a|
  {
    if a != [] {
      var h := if a[0].0 == k then [] else [a[0]];
      assert (a + b)[0] == a[0] && (a + b)[1..] == a[1..] + b;
      assert Without(a + b, k) == h + Without(a[1..] + b, k);
      WithoutAppend(a[1..], b, k);
      assert h + (Without(a[1..], k) + Without(b, k)) == (h + Without(a[1..], k)) + Without(b, k);
    } else {
      assert a + b == b;
    }
  }

  lemma {:induction false} OnlyAppend(a: seq<Param>, b: seq<Param>, k: Name)
    ensures Only(a + b, k) == Only(a, k) + Only(b, k)
    decreases |a|
  {
    if a != [] {
      var h := if a[0].0 == k then [a[0]] else [];
      assert (a + b)[0] == a[0] && (a + b)[1..] == a[1..] + b;
      assert Only(a + b, k) == h + Only(a[1..] + b, k);
      OnlyAppend(a[1..], b, k);
      assert h + (Only(a[1..], k) + Only(b, k)) == (h + Only(a[1..], k)) + Only(b, k);
    } else {
      assert a + b == b;
    }
  }

  lemma NamesOfConcat(a: seq<Param>, b: seq<Param>, c: seq<Param>, d: seq<Param>, e: seq<Param>)
    ensures Names(a + b + c + d + e) == Names(a) + Names(b) + Names(c) + Names(d) + Names(e)
  {
    NamesAppend(a + b + c + d, e);
    NamesAppend(a + b + c, d);
    NamesAppend(a + b, c);
    NamesAppend(a, b);
  }

  lemma OnlyOfConcat(a: seq<Param>, b: seq<Param>, c: seq<Param>, d: seq<Param>, e: seq<Param>, n: Name)
    ensures Only(a + b + c + d + e, n) == Only(a, n) + Only(b, n) + Only(c, n) + Only(d, n) + Only(e, n)
  {
    ParamsAppend(a + b + c + d, e, n);
    ParamsAppend(a + b + c, d, n);
    ParamsAppend(a + b, c, n);
    ParamsAppend(a, b, n);
  }

  /** A name is absent exactly when no pair carries it; removing an absent name changes nothing. */
  lemma {:induction false} OnlyEmptyIffAbsent(q: seq<Param>, k: Name)
    ensures Only(q, k) == [] <==> k !in Names(q)
    ensures k !in Names(q) ==> Without(q, k) == q
  {
    if q != [] {
      OnlyEmptyIffAbsent(q[1..], k);
      assert Names(q) == [q[0].0] + Names(q[1..]);
      assert q == [q[0]] + q[1..];
    }
  }

  lemma {:induction false} WithoutOfWithout(q: seq<Param>, k: Name)
    ensures Only(Without(q, k), k) == [] && Without(Without(q, k), k) == Without(q, k)
  {
    if q != [] {
      WithoutOfWithout(q[1..], k);
      ParamsAppend(if q[0].0 == k then [] else [q[0]], Without(q[1..], k), k);
    }
  }

  /**
   * `URLSearchParams.set(k, v)` as the WHATWG URL Standard defines it: the first pair named `k`
   * gets the value `v` and all later pairs named `k` are removed; with no such pair, `(k, v)` is
   * appended. Either way one pair named `k` remains and the other pairs keep their order.
   */
  function SetParam(q: seq<Param>, k: Name, v: string): seq<Param>
    decreases |q|
  {
    if q == [] then [(k, v)]
    else if q[0].0 == k then [(k, v)] + Without(q[1..], k)
    else [q[0]] + SetParam(q[1..], k, v)
  }

  /** After `set`, exactly one pair carries the name, with the new value; the other pairs are kept in order. */
  lemma {:induction false} SetParamSpec(q: seq<Param>, k: Name, v: string)
    ensures Only(SetParam(q, k, v), k) == [(k, v)]
    ensures Without(SetParam(q, k, v), k) == Without(q, k)
    decreases |q|
  {
    if q == [] {
      assert Only([(k, v)], k) == [(k, v)] + Only([], k);
    } else if q[0].0 == k {
      var rest := Without(q[1..], k);
      WithoutOfWithout(q[1..], k);
      ParamsAppend([(k, v)], rest, k);
    } else {
      SetParamSpec(q[1..], k, v);
      ParamsAppend([q[0]], SetParam(q[1..], k, v), k);
    }
  }

  /** Setting a name the query does not hold yet appends the pair. */
  lemma {:induction false} SetParamAppends(q: seq<Param>, k: Name, v: string)
    requires k !in Names(q)
    ensures SetParam(q, k, v) == q + [(k, v)]
    decreases |q|
  {
    if q != [] {
      assert Names(q) == [q[0].0] + Names(q[1..]);
      SetParamAppends(q[1..], k, v);
      assert q == [q[0]] + q[1..];
    }
  }

  /** The parameter for one filter, present only when the filter is non-empty. */
  function FilterParam(f: Filters, k: FilterKey): seq<Param> {
    if FilterValue(f, k) != "" then [(FilterName(k), FilterValue(f, k))] else []
  }

  /** The parameters that always come last. */
  function PagingParams(v: View): seq<Param> {
    [(Page, NatToString(v.page)), (PageSize, NatToString(v.pageSize)), (SortBy, v.sortBy), (SortDir, v.sortDir)]
  }

  /** The query `load` sends, in the order its `set` calls make. */
  function Query(v: View): seq<Param> {
    FilterParam(v.filters, Search) + FilterParam(v.filters, Status)
    + FilterParam(v.filters, Priority) + FilterParam(v.filters, Assignee) + PagingParams(v)
  }

  /** Every parameter name the query can hold, in the order the query holds them. */
  const QueryOrder: seq<Name> := [FilterName(Search), FilterName(Status), FilterName(Priority), FilterName(Assignee),
                                  Page, PageSize, SortBy, SortDir]

  /** The name of a filter's parameter if the query carries it. */
  function PresentName(f: Filters, k: FilterKey): seq<Name> {
    if FilterValue(f, k) != "" then [FilterName(k)] else []
  }

  lemma FilterParamNames(f: Filters, k: FilterKey)
    ensures Names(FilterParam(f, k)) == PresentName(f, k)
  {
  }

  lemma FilterParamOnly(f: Filters, k: FilterKey, n: Name)
    ensures Only(FilterParam(f, k), n) == if n == FilterName(k) then FilterParam(f, k) else []
  {
  }

  /** The names the query carries: the non-empty filters', then the four paging names. */
  lemma QueryNames(v: View)
    ensures Names(Query(v)) == PresentName(v.filters, Search) + PresentName(v.filters, Status)
      + PresentName(v.filters, Priority) + PresentName(v.filters, Assignee) + [Page, PageSize, SortBy, SortDir]
  {
    var f := v.filters;
    var a, b, c, d, e := FilterParam(f, Search), FilterParam(f, Status), FilterParam(f, Priority),
                         FilterParam(f, Assignee), PagingParams(v);
    NamesOfConcat(a, b, c, d, e);
    FilterParamNames(f, Search);
    FilterParamNames(f, Status);
    FilterParamNames(f, Priority);
    FilterParamNames(f, Assignee);
  }

  /** The query holds a filter's parameter exactly when the filter is non-empty, with its value. */
  lemma QueryHasFilterIffSet(v: View, k: FilterKey)
    ensures FilterName(k) in Names(Query(v)) <==> FilterValue(v.filters, k) != ""
    ensures Only(Query(v), FilterName(k)) == FilterParam(v.filters, k)
  {
    QueryOnlyFilter(v, k);
    OnlyEmptyIffAbsent(Query(v), FilterName(k));
  }

  lemma QueryOnlyFilter(v: View, k: FilterKey)
    ensures Only(Query(v), FilterName(k)) == FilterParam(v.filters, k)
  {
    var f, n := v.filters, FilterName(k);
    var a, b, c, d, e := FilterParam(f, Search), FilterParam(f, Status), FilterParam(f, Priority),
                         FilterParam(f, Assignee), PagingParams(v);
    assert Only(Query(v), n) == Only(a, n) + Only(b, n) + Only(c, n) + Only(d, n) + Only(e, n) by {
      OnlyOfConcat(a, b, c, d, e, n);
    }
    assert Only(e, n) == [] by {
      PagingHasNoFilter(v, n);
    }
    OnlyOfFilters(f, n, Only(a, n), Only(b, n), Only(c, n), Only(d, n));
  }

  lemma PagingHasNoFilter(v: View, n: Name)
    requires n.FilterName?
    ensures Only(PagingParams(v), n) == []
  {
    var e := PagingParams(v);
    assert Names(e) == [Page, PageSize, SortBy, SortDir];
    OnlyEmptyIffAbsent(e, n);
  }

  /** Of the four filter parameters, only the one for `n` survives `Only(_, n)`. */
  lemma OnlyOfFilters(f: Filters, n: Name, a: seq<Param>, b: seq<Param>, c: seq<Param>, d: seq<Param>)
    requires n.FilterName?
    requires a == Only(FilterParam(f, Search), n) && b == Only(FilterParam(f, Status), n)
    requires c == Only(FilterParam(f, Priority), n) && d == Only(FilterParam(f, Assignee), n)
    ensures a + b + c + d + [] == FilterParam(f, n.key)
  {
    FilterParamOnly(f, Search, n);
    FilterParamOnly(f, Status, n);
    FilterParamOnly(f, Priority, n);
    FilterParamOnly(f, Assignee, n);
  }

  /** The query always ends with page, pageSize, sortBy and sortDir carrying the current state. */
  lemma QueryEndsWithPaging(v: View)
    ensures |Query(v)| >= 4
    ensures Query(v)[|Query(v)| - 4..] ==
      [(Page, NatToString(v.page)), (PageSize, NatToString(v.pageSize)), (SortBy, v.sortBy), (SortDir, v.sortDir)]
  {
  }

  /** Whether the query carries a name: filters only when non-empty, paging names always. */
  predicate Sent(f: Filters, n: Name) {
    n.FilterName? ==> FilterValue(f, n.key) != ""
  }

  /**
   * The query's names are the canonical order search, status, priority, assignee, page,
   * pageSize, sortBy, sortDir with the unset filters left out.
   */
  lemma QueryNamesInOrder(v: View)
    ensures Names(Query(v)) == Filter(QueryOrder, n => Sent(v.filters, n))
    ensures IsSubseq(Names(Query(v)), QueryOrder)
  {
    var f := v.filters;
    var P := n => Sent(f, n);
    QueryNames(v);
    var o := QueryOrder;
    var s, t, p, a, tail := PresentName(f, Search), PresentName(f, Status), PresentName(f, Priority),
                            PresentName(f, Assignee), o[4..];
    FilterAllPass(o[4..], P);
    FilterFilterName(o[3..], f, Assignee);
    assert o[3..][1..] == o[4..];
    FilterFilterName(o[2..], f, Priority);
    assert o[2..][1..] == o[3..];
    FilterFilterName(o[1..], f, Status);
    assert o[1..][1..] == o[2..];
    FilterFilterName(o, f, Search);
    RightToLeftNesting(s, t, p, a, tail);
    FilterKeepsExactlyMatching(o, P);
  }

  lemma RightToLeftNesting<T>(s: seq<T>, t: seq<T>, p: seq<T>, a: seq<T>, e: seq<T>)
    ensures s + (t + (p + (a + e))) == s + t + p + a + e
  {
  }

  lemma FilterFilterName(o: seq<Name>, f: Filters, k: FilterKey)
    requires o != [] && o[0] == FilterName(k)
    ensures Filter(o, n => Sent(f, n)) == PresentName(f, k) + Filter(o[1..], n => Sent(f, n))
  {
  }

  /** Status "open" on page 2 of 10-item pages, newest first. */
  lemma QueryExample()
    ensures Query(View(2, 10, 25, "updatedAt", "desc", Filters("", "open", "", ""))) ==
      [(FilterName(Status), "open"), (Page, "2"), (PageSize, "10"), (SortBy, "updatedAt"), (SortDir, "desc")]
  {
    assert NatToString(2) == "2";
    assert NatToString(1) == "1";
    assert NatToString(10) == "10";
  }

  /**
   * A filter's `if (value) qp.set(name, value)` appends its parameter when the query so far holds
   * only the parameters of the filters in `earlier`.
   */
  lemma FilterStep(q: seq<Param>, f: Filters, k: FilterKey, earlier: set<FilterKey>)
    requires forall n :: n in Names(q) ==> n.FilterName? && n.key in earlier
    requires k !in earlier
    ensures (if FilterValue(f, k) != "" then SetParam(q, FilterName(k), FilterValue(f, k)) else q) == q + FilterParam(f, k)
    ensures forall n :: n in Names(q + FilterParam(f, k)) ==> n.FilterName? && n.key in earlier + {k}
  {
    if FilterValue(f, k) != "" {
      SetParamAppends(q, FilterName(k), FilterValue(f, k));
    }
    NamesAppend(q, FilterParam(f, k));
    FilterParamNames(f, k);
  }

  /** Setting two new, different names appends both pairs. */
  lemma AppendTwo(q: seq<Param>, k0: Name, v0: string, k1: Name, v1: string)
    requires k0 !in Names(q) && k1 !in Names(q) && k0 != k1
    ensures SetParam(SetParam(q, k0, v0), k1, v1) == q + [(k0, v0), (k1, v1)]
    ensures Names(q + [(k0, v0), (k1, v1)]) == Names(q) + [k0, k1]
  {
    SetParamAppends(q, k0, v0);
    NamesAppend(q, [(k0, v0)]);
    SetParamAppends(q + [(k0, v0)], k1, v1);
    NamesAppend(q + [(k0, v0)], [(k1, v1)]);
    assert q + [(k0, v0)] + [(k1, v1)] == q + [(k0, v0), (k1, v1)];
  }

  /** The four paging parameters are appended to a query that holds only filter names. */
  lemma PagingAppends(q: seq<Param>, v: View)
    requires forall n :: n in Names(q) ==> n.FilterName?
    ensures SetParam(SetParam(SetParam(SetParam(q, Page, NatToString(v.page)), PageSize, NatToString(v.pageSize)),
                              SortBy, v.sortBy), SortDir, v.sortDir) == q + PagingParams(v)
  {
    var p0, p1 := NatToString(v.page), NatToString(v.pageSize);
    AppendTwo(q, Page, p0, PageSize, p1);
    var q2 := q + [(Page, p0), (PageSize, p1)];
    AppendTwo(q2, SortBy, v.sortBy, SortDir, v.sortDir);
    assert q2 + [(SortBy, v.sortBy), (SortDir, v.sortDir)] == q + PagingParams(v);
  }

  // ---- What load does with the response ----

  /** The part of a list response the client reads: `data.issues`, `data.total`, `data.page`. */
  datatype ListData = ListData(issues: Option<seq<Object>>, total: nat, page: nat)

  /** `data.issues || []` */
  function IssuesOf(data: ListData): seq<Object> {
    if data.issues.Some? then data.issues.value else []
  }

  /** The page label, `Page ${data.page} / ${Math.max(1, Math.ceil(data.total / pageSize))} — ${data.total} items`. */
  function PageLabel(page: nat, total: nat, pageSize: nat): string
    requires pageSize > 0
  {
    "Page " + NatToString(page) + " / " + NatToString(PageCount(total, pageSize))
    + " \U{2014} " + NatToString(total) + " items"
  }

  /** The label's page count is at least 1, and is the number of pages the items fill when there are any. */
  lemma PageCountAtLeastOne(total: nat, pageSize: nat)
    requires pageSize > 0
    ensures PageCount(total, pageSize) >= 1
    ensures total > 0 ==> PageCount(total, pageSize) == CeilDiv(total, pageSize)
    ensures PageCount(total, pageSize) * pageSize >= total
  {
    CeilDivIsCeiling(total, pageSize);
  }

  /** An empty first page of 10 is labelled "Page 1 / 1 — 0 items". */
  lemma EmptyPageLabel()
    ensures PageLabel(1, 0, 10) == "Page 1 / 1 \U{2014} 0 items"
  {
  }

  /** The truthy `assignee` values of the issues, in issue order: `issues.map(i => i.assignee).filter(Boolean)`. */
  function Assignees(issues: seq<Object>): (r: seq<Value>)
    ensures forall k :: 0 <= k < |r| ==> Truthy(r[k])
  {
    if issues == [] then []
    else
      var a := Get(issues[0], "assignee");
      (if TruthyGet(a) then [a.value] else []) + Assignees(issues[1..])
  }

  /** An issue contributes its assignee to the list exactly when that assignee is truthy. */
  lemma {:induction false} AssigneesFromIssues(issues: seq<Object>)
    ensures forall x :: x in Assignees(issues) <==> exists k :: 0 <= k < |issues| && IssueHasAssignee(issues[k], x)
  {
    if issues != [] {
      AssigneesFromIssues(issues[1..]);
      forall x
        ensures (exists k :: 0 <= k < |issues| && IssueHasAssignee(issues[k], x)) <==>
          IssueHasAssignee(issues[0], x) || exists k :: 0 <= k < |issues[1..]| && IssueHasAssignee(issues[1..][k], x)
      {
        if exists k :: 0 <= k < |issues| && IssueHasAssignee(issues[k], x) {
          var k :| 0 <= k < |issues| && IssueHasAssignee(issues[k], x);
          if k > 0 { assert issues[1..][k - 1] == issues[k]; }
        }
        if exists k :: 0 <= k < |issues[1..]| && IssueHasAssignee(issues[1..][k], x) {
          var k :| 0 <= k < |issues[1..]| && IssueHasAssignee(issues[1..][k], x);
          assert issues[k + 1] == issues[1..][k];
        }
      }
    }
  }

  /** The issue has the truthy assignee `x`. */
  predicate IssueHasAssignee(issue: Object, x: Value) {
    "assignee" in issue && issue["assignee"] == x && Truthy(x)
  }

  /** The assignee options: `Array.from(new Set(...))` of the truthy assignees. */
  function AssigneeOptions(issues: seq<Object>): seq<Value> {
    Distinct(Assignees(issues))
  }

  /**
   * The options are distinct and truthy, each is the assignee of some issue on the page, every
   * truthy assignee on the page is one of them, and they come in first-seen order.
   */
  lemma AssigneeOptionsSound(issues: seq<Object>)
    ensures var opts := AssigneeOptions(issues);
      && (forall i, j :: 0 <= i < j < |opts| ==> opts[i] != opts[j])
      && (forall i :: 0 <= i < |opts| ==>
            Truthy(opts[i]) && exists k :: 0 <= k < |issues| && IssueHasAssignee(issues[k], opts[i]))
      && (forall k :: 0 <= k < |issues| && TruthyGet(Get(issues[k], "assignee")) ==>
            issues[k]["assignee"] in opts)
      && (forall i, j :: 0 <= i < j < |opts| ==>
            FirstIndex(Assignees(issues), opts[i]) < FirstIndex(Assignees(issues), opts[j]))
  {
    var opts := AssigneeOptions(issues);
    var names := Assignees(issues);
    AssigneesFromIssues(issues);
    DistinctFirstSeenOrder(names);
    forall i | 0 <= i < |opts|
      ensures Truthy(opts[i]) && exists k :: 0 <= k < |issues| && IssueHasAssignee(issues[k], opts[i])
    {
      assert opts[i] in names;
    }
    forall k | 0 <= k < |issues| && TruthyGet(Get(issues[k], "assignee"))
      ensures issues[k]["assignee"] in opts
    {
      var x := issues[k]["assignee"];
      assert IssueHasAssignee(issues[k], x);
      assert x in names;
      var j :| 0 <= j < |names| && names[j] == x;
    }
  }

  /** No issues, no options. */
  lemma NoIssuesNoOptions()
    ensures AssigneeOptions([]) == []
  {
  }

  // ---- The state object ----

  /** The single mutable view-state record the handlers and `load` update in place. */
  class ViewState {
    var page: nat
    var pageSize: nat
    var total: nat
    var sortBy: string
    var sortDir: string
    var filters: Filters

    function Snapshot(): View
      reads this
    {
      View(page, pageSize, total, sortBy, sortDir, filters)
    }

    ghost predicate Valid()
      reads this
    {
      WellFormed(Snapshot())
    }

    constructor ()
      ensures Valid() && Snapshot() == Initial
    {
      page, pageSize, total := 1, 10, 0;
      sortBy, sortDir := "updatedAt", "desc";
      filters := Filters("", "", "", "");
    }

    /** The search box or a filter select changed. */
    method SetFilter(k: FilterKey, value: string)
      requires Valid()
      modifies this
      ensures Valid() && Snapshot() == AfterSetFilter(old(Snapshot()), k, value)
    {
      match k {
        case Search => filters := filters.(search := value);
        case Status => filters := filters.(status := value);
        case Priority => filters := filters.(priority := value);
        case Assignee => filters := filters.(assignee := value);
      }
      page := 1;
    }

    /** The page-size select changed to `n`. */
    method SetPageSize(n: nat)
      requires Valid() && n > 0
      modifies this
      ensures Valid() && Snapshot() == AfterSetPageSize(old(Snapshot()), n)
    {
      pageSize := n;
      page := 1;
    }

    /** "Previous" was clicked; `moved` says whether a reload follows. */
    method PrevPage() returns (moved: bool)
      requires Valid()
      modifies this
      ensures Valid() && Snapshot() == AfterPrevPage(old(Snapshot()))
      ensures moved <==> old(page) > 1
    {
      moved := page > 1;
      if moved {
        page := page - 1;
      }
    }

    /** "Next" was clicked; `moved` says whether a reload follows. */
    method NextPage() returns (moved: bool)
      requires Valid()
      modifies this
      ensures Valid() && Snapshot() == AfterNextPage(old(Snapshot()))
      ensures moved <==> old(page) < CeilDiv(old(total), old(pageSize))
    {
      var max := CeilDiv(total, pageSize);
      moved := page < max;
      if moved {
        page := page + 1;
      }
    }

    /** The header of column `field` was clicked. */
    method SortClick(field: string)
      requires Valid()
      modifies this
      ensures Valid() && Snapshot() == AfterSortClick(old(Snapshot()), field)
    {
      if sortBy == field {
        sortDir := if sortDir == "asc" then "desc" else "asc";
      } else {
        sortBy := field;
        sortDir := "asc";
      }
    }

    /** The query `load` builds with successive `URLSearchParams.set` calls. */
    method BuildQuery() returns (qp: seq<Param>)
      requires Valid()
      ensures qp == Query(Snapshot())
    {
      var f := filters;
      qp := [];
      FilterStep(qp, f, Search, {});
      if f.search != "" {
        qp := SetParam(qp, FilterName(Search), f.search);
      }
      assert qp == FilterParam(f, Search);
      FilterStep(qp, f, Status, {Search});
      if f.status != "" {
        qp := SetParam(qp, FilterName(Status), f.status);
      }
      FilterStep(qp, f, Priority, {Search, Status});
      if f.priority != "" {
        qp := SetParam(qp, FilterName(Priority), f.priority);
      }
      FilterStep(qp, f, Assignee, {Search, Status, Priority});
      if f.assignee != "" {
        qp := SetParam(qp, FilterName(Assignee), f.assignee);
      }
      PagingAppends(qp, Snapshot());
      qp := SetParam(qp, Page, NatToString(page));
      qp := SetParam(qp, PageSize, NatToString(pageSize));
      qp := SetParam(qp, SortBy, sortBy);
      qp := SetParam(qp, SortDir, sortDir);
    }

    /**
     * `load` with the list response `data` in place of the network call: the query it sends,
     * then the total written back, the page label and the assignee options it renders.
     */
    method Load(data: ListData) returns (query: seq<Param>, pageInfo: string, options: seq<Value>)
      requires Valid()
      modifies this
      ensures Valid() && Snapshot() == AfterResponse(old(Snapshot()), data.total)
      ensures query == Query(old(Snapshot()))
      ensures pageInfo == PageLabel(data.page, data.total, pageSize)
      ensures options == AssigneeOptions(IssuesOf(data))
    {
      query := BuildQuery();
      total := data.total;
      pageInfo := PageLabel(data.page, data.total, pageSize);
      options := AssigneeOptions(IssuesOf(data));
    }
  }
}
