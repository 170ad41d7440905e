/**
 The project board's local state and the handlers that change it. The store
 is abstract: submit and delete emit a request value and take the request's
 outcome as an input, and the store's pushes arrive as snapshots.
 */
module Board {
  import opened Records
  import StatusFilter

  /** The component state: the mirrored list, the form draft, the filter value. */
  datatype State = State(projects: seq<Project>, draft: Project, filter: string)

  /** The state on mount: no rows yet, an empty draft, filter "All". */
  const Initial: State := State([], EmptyDraft, "All")

  /** A request to the "projects" collection. */
  datatype Request =
    | Insert(fields: Fields)
    | Update(id: string, fields: Fields)
    | Delete(id: string)

  /** How the store settled a request. Every failure kind collapses into one. */
  datatype Outcome = Succeeded | Failed

  /** A handler's effect: the state afterwards and the request it issued. */
  datatype Step = Step(next: State, request: Request)

  /** The text fields of the draft that an input's change event can address. */
  datatype TextField = Title | Description | TechStack | Status

  /** The draft's value for a text field. */
  function Field(d: Project, f: TextField): string {
    match f
    case Title => d.title
    case Description => d.description
    case TechStack => d.techStack
    case Status => d.status
  }

  /** The rows the table shows: the projects that pass the current filter. */
  function Rows(s: State): (r: seq<Project>)
    ensures forall p :: p in r <==> p in s.projects && StatusFilter.Keeps(s.filter, p)
  {
    var r := StatusFilter.Visible(s.filter, s.projects);
    forall p ensures p in r <==> p in s.projects && StatusFilter.Keeps(s.filter, p) {
      StatusFilter.VisibleMembers(s.filter, s.projects, p);
    }
    r
  }

  /** The list as a snapshot delivers it: each document as its id next to its data. */
  function Materialize(docs: seq<Doc>): (ps: seq<Project>)
    ensures |ps| == |docs|
    ensures forall i :: 0 <= i < |docs| ==> ps[i].id == docs[i].docId && FieldsOf(ps[i]) == docs[i].data
  {
    seq(|docs|, i requires 0 <= i < |docs| => FromDoc(docs[i]))
  }

  /** A snapshot replaces the list wholesale and touches nothing else. */
  function Snapshot(s: State, docs: seq<Doc>): (s': State)
    ensures |s'.projects| == |docs|
    ensures forall i :: 0 <= i < |docs| ==> ToDoc(s'.projects[i]) == docs[i]
    ensures s'.draft == s.draft && s'.filter == s.filter
  {
    s.(projects := Materialize(docs))
  }

  /** An input's change event: the named field takes the value, and every other
      part of the state stays as it was. */
  function Change(s: State, f: TextField, value: string): (s': State)
    ensures Field(s'.draft, f) == value
    ensures forall g :: g != f ==> Field(s'.draft, g) == Field(s.draft, g)
    ensures s'.draft.id == s.draft.id && s'.draft.dueDate == s.draft.dueDate
    ensures s'.projects == s.projects && s'.filter == s.filter
  {
    var d := s.draft;
    var d' := match f
      case Title => d.(title := value)
      case Description => d.(description := value)
      case TechStack => d.(techStack := value)
      case Status => d.(status := value);
    s.(draft := d')
  }

  /** The date picker's change event: the due date takes the picked value
      (None when cleared), and every other part of the state stays as it was. */
  function ChangeDate(s: State, date: Option<Date>): (s': State)
    ensures s'.draft.dueDate == date
    ensures forall g :: Field(s'.draft, g) == Field(s.draft, g)
    ensures s'.draft.id == s.draft.id
    ensures s'.projects == s.projects && s'.filter == s.filter
  {
    s.(draft := s.draft.(dueDate := date))
  }

  /** The edit button of a row: the draft becomes a copy of that row, which puts
      the form in edit mode for it. An absent due date stays absent; a present
      one is copied as the same instant, since `new Date(...)` of a stored date
      is taken to be the identity on opaque dates. */
  function Edit(s: State, p: Project): (s': State)
    ensures s'.draft.id == p.id
    ensures forall g :: Field(s'.draft, g) == Field(p, g)
    ensures s'.draft.dueDate == p.dueDate
    ensures IsEditing(s'.draft) <==> p.id != ""
    ensures s'.projects == s.projects && s'.filter == s.filter
  {
    s.(draft := Project(p.id, p.title, p.description, p.techStack, p.dueDate, p.status))
  }

  /** The request a submit issues for a draft: an update addressed to the draft's
      id in edit mode, an insert otherwise; the payload is the five non-id fields. */
  function SubmitRequest(d: Project): (req: Request)
    ensures req.Update? <==> IsEditing(d)
    ensures req.Insert? <==> !IsEditing(d)
    ensures req.Update? ==> req.id == d.id
    ensures !req.Delete? && WithId(d.id, req.fields) == d
  {
    if d.id != "" then Update(d.id, FieldsOf(d)) else Insert(FieldsOf(d))
  }

  /** Form submission: exactly one request, built from the draft. On success the
      draft returns to the empty draft; on failure it is kept for a retry. The
      list is never changed here: it only changes when a snapshot arrives. */
  function Submit(s: State, outcome: Outcome): (r: Step)
    ensures r.request == SubmitRequest(s.draft)
    ensures outcome == Succeeded ==> r.next.draft == EmptyDraft && !IsEditing(r.next.draft)
    ensures outcome == Failed ==> r.next == s
    ensures r.next.projects == s.projects && r.next.filter == s.filter
  {
    var req := SubmitRequest(s.draft);
    match outcome
    case Succeeded => Step(s.(draft := EmptyDraft), req)
    case Failed => Step(s, req)
  }

  /** The delete button of a row: a delete request for that id. Neither the list
      nor the draft changes, whatever the outcome. */
  function Remove(s: State, id: string, outcome: Outcome): (r: Step)
    ensures r.request.Delete? && r.request.id == id
    ensures r.next == s
  {
    Step(s, Delete(id))
  }

  /** A filter button: only the filter value changes. */
  function SetFilter(s: State, filter: string): (s': State)
    ensures s'.filter == filter
    ensures s'.projects == s.projects && s'.draft == s.draft
  {
    s.(filter := filter)
  }

  /** The texts that show the form's mode: its heading and the submit button's label. */
  datatype Labels = Labels(heading: string, button: string)

  /** The form's heading and button label. They announce an update exactly when
      submitting the draft would issue an update, and an insert otherwise. */
  function ModeLabels(d: Project): (l: Labels)
    ensures l.heading == "Edit Project" <==> SubmitRequest(d).Update?
    ensures l.heading == "Add New Project" <==> SubmitRequest(d).Insert?
    ensures l.button == "Update Project" <==> SubmitRequest(d).Update?
    ensures l.button == "Add Project" <==> SubmitRequest(d).Insert?
  {
    if d.id != "" then Labels("Edit Project", "Update Project")
    else Labels("Add New Project", "Add Project")
  }

  /** Editing a stored row and submitting it unchanged rewrites exactly that
      row's fields under its id, and never inserts. */
  lemma EditThenSubmit(s: State, p: Project, outcome: Outcome)
    requires p.id != ""
    ensures Submit(Edit(s, p), outcome).request == Update(p.id, FieldsOf(p))
  {
  }

  /** A typed-in value reaches the store: the next submit carries it in the
      payload, and typing never switches between insert and update. */
  lemma ChangeThenSubmit(s: State, f: TextField, value: string, outcome: Outcome)
    ensures Field(WithId("", Submit(Change(s, f, value), outcome).request.fields), f) == value
    ensures Submit(Change(s, f, value), outcome).request.Update? <==> Submit(s, outcome).request.Update?
  {
  }

  /** After a successful save the form is back in create mode: submitting again
      without changes inserts an empty record rather than updating one. */
  lemma SaveReturnsToCreateMode(s: State, outcome: Outcome)
    ensures Submit(Submit(s, Succeeded).next, outcome).request == Insert(Fields("", "", "", None, ""))
  {
  }

  /** A failed save leaves the draft as it was, so submitting again issues the
      very same request. */
  lemma FailedSaveRetries(s: State, outcome: Outcome)
    ensures Submit(Submit(s, Failed).next, outcome).request == Submit(s, outcome).request
  {
  }

  /** Submit and delete never change the rows the table shows. */
  lemma RequestsLeaveRowsAlone(s: State, id: string, outcome: Outcome)
    ensures Rows(Submit(s, outcome).next) == Rows(s)
    ensures Rows(Remove(s, id, outcome).next) == Rows(s)
  {
  }

  /** A snapshot holding one "In Progress" row: the "Active" filter shows exactly
      that row and the "Completed" filter shows none. */
  lemma OneActiveRowScenario(date: Date)
    ensures var s := Snapshot(Initial, [Doc("1", Fields("Alpha", "", "Go", Some(date), "In Progress"))]);
      && Rows(SetFilter(s, "Active")) == [Project("1", "Alpha", "", "Go", Some(date), "In Progress")]
      && Rows(SetFilter(s, "Completed")) == []
  {
  }
}
