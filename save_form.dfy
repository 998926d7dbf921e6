/**
 * The decision `saveModal` takes when the user saves the issue form: reject a blank title, or
 * build the request body (trimmed text, blank optional fields dropped) and send it with PUT to
 * the issue's own path when the form edits an existing issue, with POST otherwise.
 */
module SaveForm {
  import opened Json
  import opened Text

  /** The raw values of the modal's inputs `#m_title` … `#m_assignee`. */
  datatype Form = Form(title: string, description: string, status: string, priority: string, assignee: string)

  /**
   * The JSON body: `undefined` members (written `None`) are left out by `JSON.stringify`, so the
   * server sees them as unset.
   */
  datatype Body = Body(title: string, description: Option<string>, status: string, priority: string,
                       assignee: Option<string>)

  datatype Request = Put(path: string, body: Body) | Post(path: string, body: Body)

  datatype Decision = TitleRequired | Send(request: Request)

  /** `value.trim() || undefined`: the trimmed text, or nothing when it trims to empty. */
  function OptionalText(s: string): (r: Option<string>)
    ensures r == None <==> AllSpace(s)
    ensures r.Some? ==> r.value == Trim(s) && r.value != ""
  {
    TrimEmptyIffAllSpace(s);
    if Trim(s) != "" then Some(Trim(s)) else None
  }

  /** JavaScript truthiness of `dataset["id"]`: absent (`undefined`) or `""` is false. */
  predicate HasId(id: Option<string>) {
    id.Some? && id.value != ""
  }

  /** The body `saveModal` builds; status and priority are sent as selected. */
  function BodyOf(form: Form): Body {
    Body(Trim(form.title), OptionalText(form.description), form.status, form.priority, OptionalText(form.assignee))
  }

  /**
   * `saveModal` up to the network call: `id` is the save button's `data-id`, which `openModal`
   * sets to the edited issue's id and deletes for a new issue.
   */
  function Save(form: Form, id: Option<string>): (d: Decision)
    ensures d == TitleRequired <==> AllSpace(form.title)
    ensures d.Send? ==> d.request.body == BodyOf(form) && d.request.body.title != ""
    ensures d.Send? ==> (d.request.Put? <==> HasId(id))
    ensures d.Send? && d.request.Put? ==> d.request.path == "/issues/" + id.value
    ensures d.Send? && d.request.Post? ==> d.request.path == "/issues"
  {
    TrimEmptyIffAllSpace(form.title);
    var title := Trim(form.title);
    if title == "" then TitleRequired
    else if HasId(id) then Send(Put("/issues/" + id.value, BodyOf(form)))
    else Send(Post("/issues", BodyOf(form)))
  }

  /** The title field of a form that saves trims to a non-empty title without surrounding space. */
  lemma SentTitleIsTrimmed(form: Form, id: Option<string>)
    requires Save(form, id).Send?
    ensures var t := Save(form, id).request.body.title;
      t != "" && !IsSpace(t[0]) && !IsSpace(t[|t| - 1])
  {
  }

  /** An empty `data-id` counts as no id: the form then creates a new issue. */
  lemma EmptyIdCreates(form: Form)
    requires !AllSpace(form.title)
    ensures Save(form, Some("")) == Save(form, None)
    ensures Save(form, None).Send? && Save(form, None).request.Post?
  {
  }
}
