/**
 * The server's issue table `{last_id, issues}` and the handlers that read and change it:
 * `create_issue`, `get_issue` and `update_issue`. The clock reading `_now_iso()` is passed in.
 */
module IssueStore {
  import opened Json
  import opened Http

  datatype Status = Open | InProgress | Closed
  datatype Priority = Low | Medium | High

  function StatusText(s: Status): string {
    match s
    case Open => "open"
    case InProgress => "in-progress"
    case Closed => "closed"
  }

  function PriorityText(p: Priority): string {
    match p
    case Low => "low"
    case Medium => "medium"
    case High => "high"
  }

  /**
   * A validated `IssueCreate`: pydantic has filled in `status = "open"`, `priority = "medium"`
   * and `None` for description and assignee when the request left them out.
   */
  datatype IssueCreate = IssueCreate(title: string, description: Option<string>, status: Status,
                                     priority: Priority, assignee: Option<string>)

  /** An optional string as JSON: `None` becomes `null`. */
  function OptText(o: Option<string>): Value {
    if o.Some? then VStr(o.value) else VNull
  }

  /** `issue.dict()` updated with the new id and the creation time for both time stamps. */
  function NewIssue(c: IssueCreate, id: int, now: string): Object {
    map["title" := VStr(c.title), "description" := OptText(c.description), "status" := VStr(StatusText(c.status)),
        "priority" := VStr(PriorityText(c.priority)), "assignee" := OptText(c.assignee),
        "id" := VInt(id), "createdAt" := VStr(now), "updatedAt" := VStr(now)]
  }

  /** The new record holds the request's fields, the given id, and one time for both stamps. */
  lemma NewIssueFields(c: IssueCreate, id: int, now: string)
    ensures var r := NewIssue(c, id, now);
      && r.Keys == {"title", "description", "status", "priority", "assignee", "id", "createdAt", "updatedAt"}
      && r["id"] == VInt(id) && r["createdAt"] == r["updatedAt"] == VStr(now)
      && r["title"] == VStr(c.title) && r["status"] == VStr(StatusText(c.status))
      && r["priority"] == VStr(PriorityText(c.priority))
      && (r["description"] == VNull <==> c.description.None?)
      && (r["assignee"] == VNull <==> c.assignee.None?)
  {
  }

  /**
   * A validated `IssueUpdate` after `dict(exclude_unset=True)`: a field the request left out and
   * one it set to `null` are both `None`, since the handler skips `None` values either way.
   */
  datatype IssueUpdate = IssueUpdate(title: Option<string>, description: Option<string>, status: Option<Status>,
                                     priority: Option<Priority>, assignee: Option<string>)

  type Item = (string, Option<Value>)

  /** The patch's items in the model's field order. */
  function PatchItems(u: IssueUpdate): seq<Item> {
    [("title", if u.title.Some? then Some(VStr(u.title.value)) else None),
     ("description", if u.description.Some? then Some(VStr(u.description.value)) else None),
     ("status", if u.status.Some? then Some(VStr(StatusText(u.status.value))) else None),
     ("priority", if u.priority.Some? then Some(VStr(PriorityText(u.priority.value))) else None),
     ("assignee", if u.assignee.Some? then Some(VStr(u.assignee.value)) else None)]
  }

  /** The value the patch carries for a key; the patch has no other keys. */
  function PatchValue(u: IssueUpdate, key: string): Option<Value> {
    if key == "title" then PatchItems(u)[0].1
    else if key == "description" then PatchItems(u)[1].1
    else if key == "status" then PatchItems(u)[2].1
    else if key == "priority" then PatchItems(u)[3].1
    else if key == "assignee" then PatchItems(u)[4].1
    else None
  }

  /** `if k in i and v is not None`. */
  predicate Applies(i: Object, item: Item) {
    item.0 in i && item.1.Some?
  }

  /** One step of the loop: `i[k] = v` when the item applies. */
  function ApplyItem(i: Object, item: Item): Object {
    if Applies(i, item) then i[item.0 := item.1.value] else i
  }

  /** The record after the loop has handled `items`, in order. */
  function ApplyItems(i: Object, items: seq<Item>): Object
    decreases |items|
  {
    if items == [] then i else ApplyItem(ApplyItems(i, items[..|items| - 1]), items[|items| - 1])
  }

  /** The `changed` flag after the loop has handled `items`. */
  predicate AnyApplies(i: Object, items: seq<Item>) {
    exists k :: 0 <= k < |items| && Applies(i, items[k])
  }

  /** The patched record `update_issue` returns and stores. */
  function Patched(i: Object, u: IssueUpdate, now: string): Object {
    var p := ApplyItems(i, PatchItems(u));
    if AnyApplies(i, PatchItems(u)) then p["updatedAt" := VStr(now)] else p
  }

  /** Some field of the patch is set and the record already has it. */
  predicate Changes(i: Object, u: IssueUpdate) {
    exists key :: key in i && PatchValue(u, key).Some?
  }

  lemma {:induction false} ApplyItemsKeys(i: Object, items: seq<Item>)
    ensures ApplyItems(i, items).Keys == i.Keys
    decreases |items|
  {
    if items != [] {
      ApplyItemsKeys(i, items[..|items| - 1]);
    }
  }

  lemma ApplyItemsSnoc(i: Object, items: seq<Item>, x: Item)
    ensures ApplyItems(i, items + [x]) == ApplyItem(ApplyItems(i, items), x)
  {
    assert (items + [x])[..|items|] == items;
  }

  /** The loop over the five patch items, unrolled. */
  lemma ApplyPatchItems(i: Object, u: IssueUpdate)
    ensures var its := PatchItems(u);
      ApplyItems(i, its) == ApplyItem(ApplyItem(ApplyItem(ApplyItem(ApplyItem(i, its[0]), its[1]), its[2]), its[3]), its[4])
  {
    var its := PatchItems(u);
    ApplyItemsSnoc(i, [], its[0]);
    ApplyItemsSnoc(i, [its[0]], its[1]);
    ApplyItemsSnoc(i, [its[0], its[1]], its[2]);
    ApplyItemsSnoc(i, [its[0], its[1], its[2]], its[3]);
    ApplyItemsSnoc(i, [its[0], its[1], its[2], its[3]], its[4]);
    assert [its[0]] == [] + [its[0]];
    assert [its[0], its[1]] == [its[0]] + [its[1]];
    assert [its[0], its[1], its[2]] == [its[0], its[1]] + [its[2]];
    assert [its[0], its[1], its[2], its[3]] == [its[0], its[1], its[2]] + [its[3]];
    assert its == [its[0], its[1], its[2], its[3]] + [its[4]];
  }

  /** One item overwrites its own key, if the record has it, and nothing else. */
  lemma ApplyItemAt(m: Object, item: Item, key: string)
    ensures key in ApplyItem(m, item) <==> key in m
    ensures key in m ==> ApplyItem(m, item)[key] == if item.0 == key && item.1.Some? then item.1.value else m[key]
  {
  }

  /** The value each key of the record has after the five items. */
  lemma MergedValue(i: Object, u: IssueUpdate, key: string)
    requires key in i
    ensures var m := ApplyItems(i, PatchItems(u));
      key in m && m[key] == if PatchValue(u, key).Some? then PatchValue(u, key).value else i[key]
  {
    var its := PatchItems(u);
    ApplyPatchItems(i, u);
    var m1 := ApplyItem(i, its[0]);
    var m2 := ApplyItem(m1, its[1]);
    var m3 := ApplyItem(m2, its[2]);
    var m4 := ApplyItem(m3, its[3]);
    ApplyItemAt(i, its[0], key);
    ApplyItemAt(m1, its[1], key);
    ApplyItemAt(m2, its[2], key);
    ApplyItemAt(m3, its[3], key);
    ApplyItemAt(m4, its[4], key);
  }

  /**
   * The merge: a field the record has takes the patch's value when the patch sets it; nothing
   * else changes, except that `updatedAt` is set to `now` exactly when some field was set. No
   * key is added other than `updatedAt`.
   */
  lemma PatchedSpec(i: Object, u: IssueUpdate, now: string)
    ensures AnyApplies(i, PatchItems(u)) <==> Changes(i, u)
    ensures Patched(i, u, now).Keys == if Changes(i, u) then i.Keys + {"updatedAt"} else i.Keys
    ensures forall key | key in i && key != "updatedAt" ::
      Patched(i, u, now)[key] == if PatchValue(u, key).Some? then PatchValue(u, key).value else i[key]
    ensures Changes(i, u) ==> Patched(i, u, now)["updatedAt"] == VStr(now)
    ensures !Changes(i, u) ==> Patched(i, u, now) == i
  {
    var its := PatchItems(u);
    ApplyItemsKeys(i, its);
    forall key | key in i
      ensures ApplyItems(i, its)[key] == if PatchValue(u, key).Some? then PatchValue(u, key).value else i[key]
    {
      MergedValue(i, u, key);
    }
    if AnyApplies(i, its) {
      var k :| 0 <= k < |its| && Applies(i, its[k]);
      assert PatchValue(u, its[k].0) == its[k].1;
    }
    if Changes(i, u) {
      var key :| key in i && PatchValue(u, key).Some?;
      if key == "title" { assert Applies(i, its[0]); }
      else if key == "description" { assert Applies(i, its[1]); }
      else if key == "status" { assert Applies(i, its[2]); }
      else if key == "priority" { assert Applies(i, its[3]); }
      else { assert Applies(i, its[4]); }
    } else {
      assert ApplyItems(i, its) == i;
    }
  }

  /** The patch type has no `id` or `createdAt`, so an update never alters them. */
  lemma PatchedKeepsIdentity(i: Object, u: IssueUpdate, now: string)
    ensures "id" in i ==> "id" in Patched(i, u, now) && Patched(i, u, now)["id"] == i["id"]
    ensures "createdAt" in i ==> "createdAt" in Patched(i, u, now) && Patched(i, u, now)["createdAt"] == i["createdAt"]
    ensures "id" in Patched(i, u, now) <==> "id" in i
  {
    PatchedSpec(i, u, now);
  }

  /**
   * Applying the same patch again gives the record the first application would have given at the
   * later time: only the time stamp moves, and a patch that changes nothing changes nothing twice.
   */
  lemma PatchTwice(i: Object, u: IssueUpdate, now: string, later: string)
    ensures Patched(Patched(i, u, now), u, later) == Patched(i, u, later)
  {
    var p := Patched(i, u, now);
    PatchedSpec(i, u, now);
    if !Changes(i, u) {
      PatchedSpec(i, u, later);
      return;
    }
    assert Changes(p, u) by {
      var key :| key in i && PatchValue(u, key).Some?;
      assert key in p;
    }
    PatchedSpec(p, u, later);
    PatchedSpec(i, u, later);
  }

  /** `i.get("id") == issue_id`. */
  predicate IdIs(i: Object, id: int) {
    "id" in i && i["id"] == VInt(id)
  }

  /** The position of the first issue with the given id. */
  function FindIndex(issues: seq<Object>, id: int): (r: Option<nat>)
    ensures r.Some? ==> r.value < |issues| && IdIs(issues[r.value], id)
    ensures r.Some? ==> forall j :: 0 <= j < r.value ==> !IdIs(issues[j], id)
    ensures r.None? <==> forall j :: 0 <= j < |issues| ==> !IdIs(issues[j], id)
    decreases |issues|
  {
    if issues == [] then None
    else if IdIs(issues[0], id) then Some(0)
    else
      match FindIndex(issues[1..], id)
      case None => None
      case Some(k) => Some(k + 1)
  }

  /** `get_issue`'s answer: the first issue with the id, or 404. */
  function Find(issues: seq<Object>, id: int): Result<Object> {
    match FindIndex(issues, id)
    case None => Err(NotFound)
    case Some(k) => Ok(issues[k])
  }

  /** The id an issue record carries, 0 when it has none. */
  function IdOf(i: Object): int {
    if "id" in i && i["id"].VInt? then i["id"].n else 0
  }

  /** The table invariant the handlers keep: every issue has its own id in `1..last_id`. */
  ghost predicate TableValid(lastId: int, issues: seq<Object>) {
    && lastId >= 0
    && (forall k :: 0 <= k < |issues| ==> "id" in issues[k] && issues[k]["id"].VInt? && 1 <= IdOf(issues[k]) <= lastId)
    && (forall j, k :: 0 <= j < k < |issues| ==> IdOf(issues[j]) != IdOf(issues[k]))
  }

  class Store {
    var lastId: int
    var issues: seq<Object>

    ghost predicate Valid()
      reads this
    {
      TableValid(lastId, issues)
    }

    /** `_load_data()` when there is no data file yet. */
    constructor ()
      ensures lastId == 0 && issues == [] && Valid()
    {
      lastId := 0;
      issues := [];
    }

    /** `create_issue`: the next id, the same time for both stamps, newest issue first. */
    method Create(c: IssueCreate, now: string) returns (created: Object)
      modifies this
      ensures lastId == old(lastId) + 1
      ensures created == NewIssue(c, lastId, now)
      ensures issues == [created] + old(issues)
      ensures old(Valid()) ==> Valid()
    {
      var id := lastId + 1;
      created := NewIssue(c, id, now);
      issues := [created] + issues;
      lastId := id;
      assert IdOf(created) == lastId && "id" in created;
      if old(Valid()) {
        forall k | 0 <= k < |issues|
          ensures "id" in issues[k] && issues[k]["id"].VInt? && 1 <= IdOf(issues[k]) <= lastId
        {
          if k > 0 {
            assert issues[k] == old(issues)[k - 1];
            assert 1 <= IdOf(old(issues)[k - 1]) <= old(lastId);
          }
        }
        forall j, k | 0 <= j < k < |issues| ensures IdOf(issues[j]) != IdOf(issues[k]) {
          assert issues[k] == old(issues)[k - 1];
          if j > 0 {
            assert issues[j] == old(issues)[j - 1];
          }
        }
      }
    }

    /**
     * `get_issue`: an id below 1 fails the path's `ge=1` bound (422); otherwise scan the issues in
     * order and return the first with the id, or 404.
     */
    method Get(id: int) returns (r: Result<Object>)
      ensures id < 1 ==> r == Err(Unprocessable)
      ensures id >= 1 ==> r == Find(issues, id)
      ensures id >= 1 && r.Ok? ==> r.value in issues && IdIs(r.value, id)
      ensures id >= 1 && r.Err? ==> r.error == NotFound && forall k :: 0 <= k < |issues| ==> !IdIs(issues[k], id)
    {
      if id < 1 {
        return Err(Unprocessable);
      }
      var k := 0;
      while k < |issues|
        invariant 0 <= k <= |issues|
        invariant forall j :: 0 <= j < k ==> !IdIs(issues[j], id)
      {
        if IdIs(issues[k], id) {
          return Ok(issues[k]);
        }
        k := k + 1;
      }
      return Err(NotFound);
    }

    /**
     * `update_issue`: find the first issue with the id, overwrite the fields it has that the
     * patch sets, and stamp `updatedAt` if any was; with no such issue, 404 and no change.
     */
    method Update(id: int, u: IssueUpdate, now: string) returns (r: Result<Object>)
      modifies this
      ensures lastId == old(lastId)
      ensures FindIndex(old(issues), id).None? ==> r == Err(NotFound) && issues == old(issues)
      ensures FindIndex(old(issues), id).Some? ==>
        var idx := FindIndex(old(issues), id).value;
        r == Ok(Patched(old(issues)[idx], u, now)) && issues == old(issues)[idx := r.value]
      ensures old(Valid()) ==> Valid()
    {
      var idx := 0;
      while idx < |issues|
        invariant 0 <= idx <= |issues|
        invariant issues == old(issues) && lastId == old(lastId)
        invariant forall j :: 0 <= j < idx ==> !IdIs(issues[j], id)
      {
        if IdIs(issues[idx], id) {
          var orig := issues[idx];
          var i, changed := Merge(orig, u, now);
          if changed {
            issues := issues[idx := i];
          }
          PatchedKeepsIdentity(orig, u, now);
          assert IdOf(i) == IdOf(orig);
          return Ok(i);
        }
        idx := idx + 1;
      }
      return Err(NotFound);
    }
  }

  /**
   * The loop of `update_issue` over the fields set in the patch: each one the record already has
   * and whose value is not `None` overwrites the record's value and marks the record changed; a
   * changed record then gets the new `updatedAt`.
   */
  method Merge(orig: Object, u: IssueUpdate, now: string) returns (i: Object, changed: bool)
    ensures i == Patched(orig, u, now)
    ensures changed == Changes(orig, u)
    ensures !changed ==> i == orig
  {
    i := orig;
    changed := false;
    var items := PatchItems(u);
    var n := 0;
    while n < |items|
      invariant 0 <= n <= |items|
      invariant i == ApplyItems(orig, items[..n])
      invariant changed == AnyApplies(orig, items[..n])
    {
      ApplyItemsKeys(orig, items[..n]);
      var (k, v) := items[n];
      if k in i && v.Some? {
        i := i[k := v.value];
        changed := true;
      }
      assert items[..n + 1][..n] == items[..n];
      n := n + 1;
    }
    assert items[..n] == items;
    if changed {
      i := i["updatedAt" := VStr(now)];
    }
    PatchedSpec(orig, u, now);
  }

  /** Update and get agree: after an update, a get of the same id finds the patched issue. */
  lemma UpdateThenFind(issues: seq<Object>, id: int, u: IssueUpdate, now: string)
    requires FindIndex(issues, id).Some?
    ensures var idx := FindIndex(issues, id).value;
      var p := Patched(issues[idx], u, now);
      Find(issues[idx := p], id) == Ok(p)
  {
    var idx := FindIndex(issues, id).value;
    var p := Patched(issues[idx], u, now);
    PatchedKeepsIdentity(issues[idx], u, now);
    var after := issues[idx := p];
    assert IdIs(after[idx], id);
    assert forall j :: 0 <= j < idx ==> after[j] == issues[j];
  }

  /**
   * Allocating `last_id + 1` leaves every stored issue reachable: in a valid table no stored issue
   * has the new id, so after a create a get of any stored id finds what it found before.
   */
  lemma CreateKeepsFinds(lastId: int, issues: seq<Object>, c: IssueCreate, now: string, id: int)
    requires TableValid(lastId, issues) && FindIndex(issues, id).Some?
    ensures Find([NewIssue(c, lastId + 1, now)] + issues, id) == Find(issues, id)
  {
    var k := FindIndex(issues, id).value;
    assert IdOf(issues[k]) == id <= lastId;
    var after := [NewIssue(c, lastId + 1, now)] + issues;
    assert !IdIs(after[0], id);
    assert after[1..] == issues;
  }

  /** A newly created issue is the first with its id, so a get finds it. */
  lemma CreateThenFind(issues: seq<Object>, c: IssueCreate, id: int, now: string)
    ensures Find([NewIssue(c, id, now)] + issues, id) == Ok(NewIssue(c, id, now))
  {
    assert IdIs(([NewIssue(c, id, now)] + issues)[0], id);
  }
}
