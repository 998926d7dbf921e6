# Issue tracker: the list view and the issue API, in Dafny

This project models the two halves of a small issue tracker.

- **The browser client** (`frontend/src/app.js`).
  - Its single view-state record: page, page size, last known total, sort field and direction, and four text filters.
  - The transitions the UI handlers apply to that record.
  - The query string `load` builds with `URLSearchParams.set`.
  - What `load` does with a list response: it writes back the total, builds the page label and derives the assignee options.
  - `escapeHtml`, applied to titles before they go into the table markup.
  - The decision `saveModal` takes when the issue form is saved.
- **The server** (`backend/app/main.py`).
  - `GET /issues`: filter by title search, status, priority and assignee; sort by one field in either direction; count; cut out one page.
  - `GET /issues/{id}`, `POST /issues` and `PUT /issues/{id}`, over the in-memory table `{last_id, issues}`.
  - The partial-update model `IssueUpdate`.

Modules, one file each:

| module | contents |
|---|---|
| `Json` (`json.dfy`) | issue records as JSON objects; truthiness |
| `Seqs` (`seqs.dfy`) | comprehension filters; de-duplication in first-seen order |
| `Text` (`text.dfy`) | lower-casing, substring search, `String(n)`, `trim`, global replace |
| `HtmlEscape` (`html_escape.dfy`) | the client's `escapeHtml` |
| `Client` (`client.dfy`) | the view state as a class `ViewState`, with value-level step functions specifying its methods; the query; the response |
| `SaveForm` (`save_form.dfy`) | `saveModal` |
| `Http` (`http.dfy`) | the error statuses 404, 422 and 500 |
| `Listing` (`issue_list.dfy`) | `list_issues` |
| `IssueStore` (`store.dfy`) | the table as a class `Store`, with `Create`, `Get` and `Update` as methods, and the patch semantics as functions |

The clock (`_now_iso()`) is a `now` parameter. The network call in `load` is replaced by the list response, passed in as a `ListData` value.

Two behaviours of the code worth knowing:

- `load` never reconciles `page` with the server's answer. It only writes back `total`, and uses `data.page` for the label alone. `ResponseMayLeavePageOutOfRange` shows a state in which a smaller total leaves the page beyond the last page.
- "Next" compares the page with `Math.ceil(total / pageSize)` without `max(1, …)`. That is the same decision for every page of at least 1.

## Model

| member | source | states |
|---|---|---|
| Client.ViewState.constructor | frontend/src/app.js:4-11 | the initial state is page 1 of 10, total 0, sorted by `updatedAt` descending, no filters |
| Client.ViewState.SetFilter | frontend/src/app.js:32-35 | the new state is `AfterSetFilter` of the old one, and stays well formed |
| Client.ViewState.SetPageSize | frontend/src/app.js:36 | the new state is `AfterSetPageSize` of the old one, and stays well formed |
| Client.ViewState.PrevPage | frontend/src/app.js:37 | the new state is `AfterPrevPage`; a reload follows exactly when the page was above 1 |
| Client.ViewState.NextPage | frontend/src/app.js:38 | the new state is `AfterNextPage`; a reload follows exactly when the page was below `ceil(total / pageSize)` |
| Client.ViewState.SortClick | frontend/src/app.js:43-53 | the new state is `AfterSortClick` of the clicked field |
| Client.ViewState.BuildQuery | frontend/src/app.js:57-69 | the successive `set` calls build exactly `Query` of the current state |
| Client.ViewState.Load | frontend/src/app.js:56-75 | sends `Query` of the old state; writes back only the total; returns `PageLabel` of the response and the assignee options of its issues |
| Client.AfterSetFilter | frontend/src/app.js:32-35 | a filter control's handler as a step on the state; its properties are `SetFilterResetsPage` and `TransitionsKeepWellFormed` |
| Client.AfterSetPageSize | frontend/src/app.js:36 | the page-size handler; properties in `SetPageSizeResetsPage` |
| Client.AfterPrevPage | frontend/src/app.js:37 | the "Previous" handler; properties in `PrevPageStep` and `NavigationKeepsPageInRange` |
| Client.AfterNextPage | frontend/src/app.js:38 | the "Next" handler; properties in `NextPageStep` and `NavigationKeepsPageInRange` |
| Client.AfterSortClick | frontend/src/app.js:46-51 | the column-header handler; properties in `SortClickSameFieldFlips`, `SortClickTwiceRestores` and `SortClickNewField` |
| Client.AfterResponse | frontend/src/app.js:71 | what a response writes; properties in `ResponseWritesOnlyTotal` and `ResponseMayLeavePageOutOfRange` |
| Client.SetParam | frontend/src/app.js:59-69 | `URLSearchParams.set`; its contract is `SetParamSpec`, with `SetParamAppends` |
| Client.Query | frontend/src/app.js:57-69 | the closed form of the query `load` sends; `BuildQuery` is proved to build it, and `QueryNames`, `QueryHasFilterIffSet`, `QueryEndsWithPaging` and `QueryNamesInOrder` state what it holds |
| Client.PageLabel | frontend/src/app.js:73 | the page label; properties in `PageCountAtLeastOne` and `EmptyPageLabel` |
| Client.AssigneeOptions | frontend/src/app.js:104 | the assignee options; properties in `AssigneeOptionsSound` and `NoIssuesNoOptions` |
| Client.SetFilterResetsPage | frontend/src/app.js:32-35 | a filter change puts the page at 1, sets that filter, and keeps every other filter and field |
| Client.SetPageSizeResetsPage | frontend/src/app.js:36 | a page-size change puts the page at 1 and changes nothing else |
| Client.PrevPageStep | frontend/src/app.js:37 | "Previous" moves back exactly one page above page 1, is a no-op on page 1, never goes below 1, and changes nothing but the page |
| Client.NextPageStep | frontend/src/app.js:38 | "Next" moves on exactly one page below the page count; otherwise, and always with total 0, it is a no-op; it changes nothing but the page |
| Client.CeilDivIsCeiling | frontend/src/app.js:38 | the integer ceiling is the least number of pages that hold `total` items |
| Client.NavigationKeepsPageInRange | frontend/src/app.js:37-38 | a page in `1..max(1, ceil(total / pageSize))` stays in that range after either button |
| Client.SortClickSameFieldFlips | frontend/src/app.js:46-47 | clicking the current field flips the direction and changes nothing else |
| Client.SortClickTwiceRestores | frontend/src/app.js:46-47 | two clicks on the current field restore the state |
| Client.SortClickNewField | frontend/src/app.js:48-51 | clicking another field sorts by it ascending and keeps the page |
| Client.TransitionsKeepWellFormed | frontend/src/app.js:32-51 | every handler keeps page at least 1, page size positive and direction `asc` or `desc` |
| Client.ResponseWritesOnlyTotal | frontend/src/app.js:71 | a response changes the total and nothing else |
| Client.ResponseMayLeavePageOutOfRange | frontend/src/app.js:71-73 | an in-range page 3 is out of range after an empty response, because the page is not reconciled |
| Client.NameTextInjective | frontend/src/app.js:58-69 | the eight parameter names are distinct strings |
| Client.SetParamSpec | frontend/src/app.js:59 | after `set(k, v)` exactly one pair named `k` remains, holding `v`, and the pairs with other names are unchanged and in order |
| Client.SetParamAppends | frontend/src/app.js:59 | `set` of a name not yet present appends the pair |
| Client.QueryNames | frontend/src/app.js:57-69 | the query's names are those of the non-empty filters, then page, pageSize, sortBy, sortDir |
| Client.QueryHasFilterIffSet | frontend/src/app.js:58-65 | the query carries a filter's name if and only if the filter is non-empty, and then with the filter's value |
| Client.QueryEndsWithPaging | frontend/src/app.js:66-69 | the query always ends with the four paging pairs carrying the state's page, page size, field and direction |
| Client.QueryNamesInOrder | frontend/src/app.js:57-69 | the names are the fixed canonical order with exactly the unset filters removed, so they form a subsequence of it |
| Client.QueryExample | frontend/src/app.js:57-69 | the status filter "open" on page 2 of 10, newest first, gives the five pairs (status, "open"), (page, "2"), (pageSize, "10"), (sortBy, "updatedAt"), (sortDir, "desc"), in that order |
| Client.PageCountAtLeastOne | frontend/src/app.js:73 | the label's page count is at least 1, enough for all items, and equal to the ceiling whenever there are items |
| Client.EmptyPageLabel | frontend/src/app.js:73 | an empty first page of 10 is labelled "Page 1 / 1 — 0 items" |
| Client.Assignees | frontend/src/app.js:104 | every collected assignee is truthy |
| Client.AssigneesFromIssues | frontend/src/app.js:104 | a value is collected if and only if some issue has it as its truthy assignee |
| Client.AssigneeOptionsSound | frontend/src/app.js:104 | the options are distinct, truthy, each the assignee of some issue on the page, include every truthy assignee on the page, and come in first-seen order |
| Client.NoIssuesNoOptions | frontend/src/app.js:104 | a page without issues gives no options |
| Seqs.Distinct | frontend/src/app.js:104 | `Array.from(new Set(s))` has no repeats, holds only elements of `s`, and holds all of them |
| Seqs.DistinctFirstSeenOrder | frontend/src/app.js:104 | the distinct elements come in the order of their first occurrences |
| Text.NatToString | frontend/src/app.js:66-67 | `String(n)` (for `n` below 10^21, see "Left out") is a non-empty digit string without a leading zero that denotes `n` |
| Text.Trim | frontend/src/app.js:138 | `trim()` is a slice of the input with only white space cut from either end and none left at its own ends |
| Text.TrimEmptyIffAllSpace | frontend/src/app.js:139 | a text trims to empty if and only if it is all white space |
| SaveForm.OptionalText | frontend/src/app.js:142-145 | `value.trim() \|\| undefined` is absent if and only if the text is all white space, else the non-empty trimmed text |
| SaveForm.Save | frontend/src/app.js:138-154 | "Title required" if and only if the title is blank; otherwise the body of trimmed fields, sent with PUT to `/issues/{id}` if and only if the form has a non-empty id, else with POST to `/issues` |
| SaveForm.SentTitleIsTrimmed | frontend/src/app.js:138-141 | a sent title is non-empty and has no surrounding white space |
| SaveForm.EmptyIdCreates | frontend/src/app.js:147-153 | an empty `data-id` is treated as no id: the form creates an issue |
| HtmlEscape.EscapeHtml | frontend/src/app.js:162 | the three global replacements; properties in `EscapeHtmlIsEncoded`, `UnescapeEscapeHtml`, `EscapeHtmlHasNoBrackets` and `EscapeHtmlPlainText` |
| HtmlEscape.EscapePass | frontend/src/app.js:162 | each replacement pass escapes one more character, provided '&' goes first |
| HtmlEscape.EscapeHtmlIsEncoded | frontend/src/app.js:162 | escaping writes each of '&', '<' and '>' as its entity and keeps every other character |
| HtmlEscape.UnescapeEscapeHtml | frontend/src/app.js:162 | undoing the entities gives back the original text, so no information is lost |
| HtmlEscape.EscapeHtmlHasNoBrackets | frontend/src/app.js:162 | escaped text contains no '<' and no '>' |
| HtmlEscape.EscapeHtmlPlainText | frontend/src/app.js:162 | text without the three characters is unchanged |
| Listing.ListIssues | backend/app/main.py:63-100 | the whole handler over the stored issues; properties in `ListErrors`, `ListPage`, `TotalIndependentOfPaging`, `OtherPage` and `PagesCoverMatches` |
| Listing.SearchStage | backend/app/main.py:78-80 | the search filter, failing on a non-text title; properties in `SearchStageIsFilter` and `SearchKeepsIff` |
| Listing.EqStage | backend/app/main.py:81-86 | one equality filter; its property is `EqStageIsFilter` |
| Listing.Filtered | backend/app/main.py:78-86 | the four filters in order; properties in `FilteredIsMatches`, `FilteredExactly` and `NoFiltersKeepAll` |
| Listing.SortKey | backend/app/main.py:91 | the key `x.get(sortBy) or ""`; `LessIsStrictTotalOrder` orders the keys |
| Listing.Sort | backend/app/main.py:89-93 | the stable sort in the requested direction; properties in `SortPermutesAndOrders`, `SortDirection` and `SortStable` |
| Listing.Slice | backend/app/main.py:99 | Python's clamping slice; with `PageOf`, its property is `PageWindow` |
| Listing.PageOf | backend/app/main.py:97-99 | one page of the sorted list; properties in `PageWindow`, `PagesAdjacent` and `PagesCover` |
| Seqs.FilterKeepsExactlyMatching | backend/app/main.py:78-86 | a comprehension filter keeps exactly the matching elements, each as often as it occurs, in order |
| Listing.SearchStageIsFilter | backend/app/main.py:78-80 | the search stage fails (500) if and only if a search is given and some title is not text; otherwise it keeps exactly the issues that pass |
| Listing.SearchKeepsIff | backend/app/main.py:78-80 | a search keeps an issue if and only if its lower-cased text occurs in the lower-cased title |
| Listing.EqStageIsFilter | backend/app/main.py:81-86 | an equality filter keeps exactly the issues whose field equals the given value; an absent or empty value keeps all |
| Listing.FilteredIsMatches | backend/app/main.py:78-86 | the four filters together fail exactly as the search does, and otherwise keep exactly the issues matching the whole query, in stored order |
| Listing.FilteredExactly | backend/app/main.py:78-86 | every listed match is stored and matches; every stored match is kept as often as it is stored; the result is a subsequence of the store |
| Listing.NoFiltersKeepAll | backend/app/main.py:75-86 | with no filter given, every stored issue is kept |
| Listing.MatchingIgnoresPaging | backend/app/main.py:78-86 | only the four filter parameters decide which issues match |
| Listing.LessIsStrictTotalOrder | backend/app/main.py:91 | the key order is irreflexive, transitive and total |
| Listing.BeforeIsStrictWeakOrder | backend/app/main.py:89-91 | "goes before", in either direction, is a strict weak order and separates only different keys |
| Listing.SortPermutesAndOrders | backend/app/main.py:89-91 | the sort returns a permutation of its input in which no issue goes before an earlier one |
| Listing.SortDirection | backend/app/main.py:89-91 | ascending, keys never decrease; with `sortDir == "desc"`, they never increase |
| Listing.SortStable | backend/app/main.py:89-91 | issues with the same key keep their relative order, also with `reverse=True` |
| Listing.PagesAdjacent | backend/app/main.py:97-98 | page `p + 1` starts where page `p` ends (`start + pageSize`), and page 1 starts at 0, so the pages tile the sorted list |
| Listing.PageWindow | backend/app/main.py:97-99 | a page holds `min(pageSize, max(0, total - start))` issues, the run of the sorted list from `start` |
| Listing.PagesCover | backend/app/main.py:97-99 | entry `k` of the sorted list is entry `k % pageSize` of page `k / pageSize + 1` |
| Listing.ListErrors | backend/app/main.py:71-80 | a listing fails with 422 if and only if page or page size is out of bounds, with 500 if and only if the bounds hold and a search meets a non-text title, and in no other way |
| Listing.ListPage | backend/app/main.py:95-100 | `total` is the number of matches; page and page size come back as sent; the page is the window of the sorted matches |
| Listing.TotalIndependentOfPaging | backend/app/main.py:95 | the total does not depend on page, page size, sort field or direction |
| Listing.OtherPage | backend/app/main.py:97-100 | every other page of the same query succeeds and is a window of the same sorted matches |
| Listing.PagesCoverMatches | backend/app/main.py:89-100 | page `p` lists, at offset `off`, the sorted match at position `(p - 1) * pageSize + off` |
| IssueStore.NewIssue | backend/app/main.py:115-118 | the record `create_issue` builds; its property is `NewIssueFields` |
| IssueStore.Patched | backend/app/main.py:128-137 | the record `update_issue` returns and stores; properties in `PatchedSpec`, `PatchedKeepsIdentity` and `PatchTwice`, and `Merge` is proved to compute it |
| IssueStore.Find | backend/app/main.py:106-109 | `get_issue`'s answer; `FindIndex` states its position, `Store.Get` is proved to compute it |
| IssueStore.NewIssueFields | backend/app/main.py:115-118 | a new issue holds exactly the request's fields, the new id and one time for both stamps |
| IssueStore.Merge | backend/app/main.py:130-136 | the loop over the patch yields `Patched`, and `changed` holds if and only if some set field is in the record |
| IssueStore.PatchedSpec | backend/app/main.py:128-137 | a patch changes the record if and only if some set field is in it; each such field takes the patch's value and every other field is kept; a change stamps `updatedAt`; no change leaves the record as it was |
| IssueStore.PatchedKeepsIdentity | backend/app/main.py:131-137 | a patch never adds, removes or changes `id` or `createdAt` |
| IssueStore.PatchTwice | backend/app/main.py:128-137 | applying the same patch again gives what one application at the later time gives: only the time stamp moves |
| IssueStore.FindIndex | backend/app/main.py:106-108 | the position of the first issue with the id, or none if and only if no issue has it |
| IssueStore.Store.constructor | backend/app/main.py:14-16 | a new table has `last_id = 0`, no issues, and satisfies the table invariant |
| IssueStore.Store.Create | backend/app/main.py:110-122 | `last_id` grows by one, the new record is inserted first with that id, and the invariant of unique ids in `1..last_id` is kept |
| IssueStore.Store.Get | backend/app/main.py:103-109 | 422 for an id below 1; otherwise the first issue with the id, or 404 if and only if none has it |
| IssueStore.Store.Update | backend/app/main.py:124-141 | 404 with nothing changed when no issue has the id; otherwise the first such issue is replaced by its patched version, which is returned; the invariant is kept |
| IssueStore.UpdateThenFind | backend/app/main.py:103-141 | after an update, `get_issue` of the same id finds the patched issue |
| IssueStore.CreateThenFind | backend/app/main.py:103-122 | after a create, `get_issue` of the new id finds the new issue |
| IssueStore.CreateKeepsFinds | backend/app/main.py:113-119 | in a valid table, allocating `last_id + 1` shadows no stored issue: after a create, `get_issue` of every stored id finds what it found before |

## Left out

- The DOM: reading the inputs and selects, rendering the table rows and the drawer, opening and closing the modal, alerts. The handlers receive the input values as parameters.
- `populateAssigneeFilter` restoring the select's value when it is among the old options (app.js:105-108). This is DOM state; the options themselves are modelled.
- The wiring of the cancel and close-drawer buttons (app.js:40-41), which call `closeModal()` and `closeDrawer()` once at binding time instead of passing the handlers. This is DOM wiring outside the model.
- `fetch`, JSON transport, `apiGet`/`apiPost`/`apiPut` error handling, and the reload after saving. `Load` takes the response as a value. `Save` returns the request it would send.
- Concurrency: overlapping `load` calls whose responses arrive out of order, and the server's `threading.Lock`. Each call is modelled as a whole.
- Client.ViewState.BuildQuery: the query is a sequence of name/value pairs before percent-encoding, because the `application/x-www-form-urlencoded` serializer is not part of the model.
- Text.NatToString, Client.CeilDiv and Client.ViewState.NextPage: JavaScript's `page`, `pageSize` and `total` are IEEE doubles, but the model uses unbounded naturals. `String(n)` is a plain decimal numeral only below 10^21. `Math.ceil(total / pageSize)` equals the integer ceiling, and `page++` still increases, only below 2^53. The values the UI handles stay far below these bounds, so the model does not track them.
- Client.ViewState.SetPageSize: requires a positive size, because the select offers only positive sizes; `parseInt` of other text (NaN) is not modelled.
- Client.PageLabel: the em dash is the character U+2014. The source file shows it mis-decoded, as three characters.
- Text.Lower: lower-cases ASCII letters only. Python's `str.lower()` is full Unicode case mapping, which is not modelled.
- Listing.Less: puts every integer key before every string key. In Python, comparing an integer with a string raises `TypeError`, and the handler's `except Exception: pass` keeps whatever order the interrupted sort left, which is not modelled.
- Listing.Sort: the library's sort (Timsort) is modelled by a stable insertion sort with the same result, not by its own algorithm.
- `renderTable`'s `toLocaleString()` of the update time: locale formatting is not modelled.
- IssueStore.Store: file persistence (`_load_data`, `_save_data`, the JSON file) is not modelled. The table lives in memory, the constructor stands for the missing-file case, and `_save_data` being skipped when nothing changed has no visible effect on it.
- IssueStore.Merge: `changed` holds whenever a set field is present, also when the new value equals the old one. This follows the code, which stamps `updatedAt` in that case too.
- IssueStore.IssueCreate and IssueStore.IssueUpdate: pydantic's 422 for a status or priority outside the allowed literals, or for a missing title, happens before the handlers run. The model's types allow only valid values, so that 422 path is not modelled.
- FastAPI routing, CORS middleware, `/health`, and the `response_model` filtering of the response.
