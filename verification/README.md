# Project board: status filter and draft/submit state machine

This project models the logic inside the `AddProject` page of a small project
tracker (`src/pages/addproject.jsx`). The page mirrors a remote "projects"
collection and shows it as a table that can be filtered by status. It also
holds a form draft that creates a new record or edits an existing one, and
every row has a delete button.

The model is functional. Each handler is a pure transition on the state
`(projects, draft, filter)`. The document store is replaced by data:

- submit and delete return an abstract request (`Insert(fields)`,
  `Update(id, fields)`, `Delete(id)`);
- the request's outcome (`Succeeded` or `Failed`) is an input to the handler;
- a store push is a `Snapshot` transition carrying the delivered documents.

Modules:

- `Records` (records.dfy): the stored document, the project row, the draft
  (same shape as a row, with an empty `id` meaning "create"), the five-field
  payload, and the conversions between them.
- `StatusFilter` (status_filter.dfy): the filter predicate and the filtered
  list, with its characterisation as an order-preserving selection.
- `Board` (board.dfy): the state, the requests, and one transition per
  handler, plus the form heading and submit-button label.
- `BoardTrace` (board_trace.dfy): event sequences applied in order, and the
  invariants that hold over whole runs.

Notes on the component's behaviour that the model keeps:

- The filter value is a plain string. Only "All", "Active" and "Completed"
  are set by the buttons, and any other value shows nothing.
- `handleSubmit` does no validation. The required-field checks are browser
  attributes on the inputs, so `Submit` accepts any draft, including one with
  empty fields.
- The form has no input for `description`. A new record is therefore saved
  with the empty description, and an edited record keeps the stored one.
  `Change` still lets the description be set, as a draft field that
  `handleChange` could address.

## Model

| member | source | states |
|---|---|---|
| Records.FromDoc | src/pages/addproject.jsx:41-44 | a delivered document becomes a row that carries the document id and exactly the document's data |
| Records.ToDoc | src/pages/addproject.jsx:41-44 | splitting a row into id and data is undone by `FromDoc` |
| Records.FieldsOf | src/pages/addproject.jsx:82-86 | the payload holds the five non-id fields, and together with the id they rebuild the record |
| Records.DocRoundTrip | src/pages/addproject.jsx:41-44 | turning a document into a row and splitting the row again gives back the same document (the other direction is `ToDoc`'s contract) |
| Records.IsEditing | src/pages/addproject.jsx:78 | the `project.id` truthiness test: edit mode holds exactly when the id has at least one character, so the empty draft of lines 28-35 is always in create mode |
| StatusFilter.Keeps | src/pages/addproject.jsx:124-129 | the filter callback: every row passes under "All", a row with status "In Progress" passes under "Active", a row with status "Completed" passes under "Completed", and a row passes under no other combination |
| StatusFilter.Visible | src/pages/addproject.jsx:124-129 | the filtered list is no longer than the list, and every row in it passes the filter |
| StatusFilter.VisibleIsSelection | src/pages/addproject.jsx:124-129 | the filtered list is an order-preserving subsequence of the list that keeps position i exactly when row i passes the filter |
| StatusFilter.ViewKeepsStatus | src/pages/addproject.jsx:126-127 | a view that compares the status with one fixed value keeps, in order, exactly the rows with that status |
| StatusFilter.StatusViewsKeepMatchingRows | src/pages/addproject.jsx:126-127 | "Active" keeps, in order, exactly the rows with status "In Progress"; "Completed" keeps, in order, exactly the rows with status "Completed" |
| StatusFilter.AllShowsEverything | src/pages/addproject.jsx:125 | "All" shows the list unchanged |
| StatusFilter.UnknownFilterShowsNothing | src/pages/addproject.jsx:128 | any other filter value shows the empty list |
| StatusFilter.VisibleMembers | src/pages/addproject.jsx:124-129 | a row is shown if and only if it is in the list and passes the filter |
| StatusFilter.VisibleAppend | src/pages/addproject.jsx:124-129 | filtering a concatenation is the concatenation of the filtered parts |
| StatusFilter.VisibleIdempotent | src/pages/addproject.jsx:124-129 | filtering an already filtered list changes nothing |
| StatusFilter.ActiveCompletedDisjoint | src/pages/addproject.jsx:126-127 | no row is shown under both "Active" and "Completed", so the two views together are never longer than the list |
| Board.Rows | src/pages/addproject.jsx:124-129 | the table shows a project exactly when it is in the state's list and passes the state's filter |
| Board.Materialize | src/pages/addproject.jsx:40-45 | the materialised list has one row per document, in delivery order, with the document's id and data |
| Board.Snapshot | src/pages/addproject.jsx:40-45 | a snapshot replaces the list wholesale with the delivered documents, in order, and leaves the draft and the filter alone |
| Board.Change | src/pages/addproject.jsx:52-55 | the named field takes the new value; every other field, the id, the due date, the list and the filter are unchanged |
| Board.ChangeDate | src/pages/addproject.jsx:58-60 | the due date takes the picked value; every other draft field, the list and the filter are unchanged |
| Board.Edit | src/pages/addproject.jsx:63-72 | the draft copies the row's id, text fields and due date (absent exactly when the row's is absent, otherwise the same instant); edit mode holds exactly when the row's id is non-empty |
| Board.SubmitRequest | src/pages/addproject.jsx:78-98 | a draft with a non-empty id gives an update addressed to that id, an empty id gives an insert, never a delete; the payload together with the draft id rebuilds the draft |
| Board.Submit | src/pages/addproject.jsx:75-111 | exactly the draft's request is issued; on success the draft becomes `EmptyDraft`, the all-empty draft of lines 100-107, on failure the whole state is unchanged; the list and filter are never touched |
| Board.Remove | src/pages/addproject.jsx:114-121 | a delete request for the given id is issued and the state is unchanged on success and on failure |
| Board.SetFilter | src/pages/addproject.jsx:146-165 | only the filter value changes |
| Board.ModeLabels | src/pages/addproject.jsx:208-272 | the heading reads "Edit Project" and the button "Update Project" exactly when submit would update; they read "Add New Project" and "Add Project" exactly when it would insert |
| Board.EditThenSubmit | src/pages/addproject.jsx:63-88 | editing a stored row and submitting it unchanged updates that id with exactly that row's fields |
| Board.ChangeThenSubmit | src/pages/addproject.jsx:52-98 | a typed-in value is carried in the next payload, and typing never switches between insert and update |
| Board.SaveReturnsToCreateMode | src/pages/addproject.jsx:100-107 | after a successful save, the next submit is an insert of empty fields |
| Board.FailedSaveRetries | src/pages/addproject.jsx:108-110 | after a failed save, submitting again issues the same request |
| Board.RequestsLeaveRowsAlone | src/pages/addproject.jsx:75-121 | submit and delete never change the rows the table shows |
| Board.OneActiveRowScenario | src/pages/addproject.jsx:124-129 | a snapshot with one "In Progress" row shows that row under "Active" and nothing under "Completed" |
| BoardTrace.Apply | src/pages/addproject.jsx:39-121 | only submit and delete issue a request, exactly one each, and only a snapshot changes the list |
| BoardTrace.ProjectsMirrorLastSnapshot | src/pages/addproject.jsx:27-45 | after any events the list is the last snapshot's documents in delivery order, or the starting list when none arrived |
| BoardTrace.OneRequestPerSubmitOrDelete | src/pages/addproject.jsx:75-121 | a run issues as many requests as it has submit and delete events |
| BoardTrace.UpdatesTargetEditedRows | src/pages/addproject.jsx:63-88 | from create mode, every update is addressed to a non-empty id taken from a row whose edit button was clicked |
| BoardTrace.NoRowsBeforeFirstSnapshot | src/pages/addproject.jsx:27-45 | from `Initial`, the mount state of lines 27-36 (no rows, `EmptyDraft`, filter "All"), the table is empty until the first snapshot arrives |

## Left out

- Store calls (`onSnapshot`, `addDoc`, `updateDoc`, `deleteDoc`, `doc`, `collection`): foreign library code. They appear only as request values and an outcome parameter. The store's id assignment, not-found failures and replication are not modelled.
- The subscription's lifetime (`useEffect` subscribe at mount, unsubscribe at unmount): framework plumbing around the event loop.
- Races between asynchronous submissions: each handler runs to completion before the next event. In the component, edits typed while a save is pending are discarded when that save succeeds, because the reset does not depend on them; the sequential model cannot show this.
- Rendering, `alert` and `console.error`: UI and diagnostic output only. This includes the table markup, the "N/A" cell and the date picker's behaviour.
- JavaScript `Date` parsing and `toLocaleDateString()`: host- and locale-dependent. A due date is an opaque instant.
- Board.Edit: does not model `new Date(...)` on a stored value; the draft gets the same instant, while the store may hand back a different representation (a timestamp object).
- Records.FromDoc: document data is modelled as exactly the five fields. Under the object spread `{id: doc.id, ...doc.data()}`, a stored field named `id` would override the document id, and missing fields would be `undefined`. Neither case is modelled.
- Board.Change: addresses only the draft's four text fields. An input with any other `name` (such as `id`) would add or overwrite that key; no input of the form has such a name.
- Board.Remove: the outcome parameter has no effect, matching the source, where success and failure differ only in what is reported to the user.
