/**
 The records the project board handles: a document as the store delivers it,
 the project row built from it (which is also the shape of the form draft),
 and the five-field payload written back to the store.
 */
module Records {

  datatype Option<+T> = None | Some(value: T)

  /** An instant as a JavaScript Date holds it. Calendar meaning (parsing,
      time zones, locale formatting) is not modelled: a date is opaque. */
  datatype Date = Date(millis: int)

  /** The fields a project document holds besides its id; this is also the
      payload of an insert or an update request. */
  datatype Fields = Fields(
    title: string,
    description: string,
    techStack: string,
    dueDate: Option<Date>,
    status: string)

  /** A document of the "projects" collection: the store-assigned id and its data. */
  datatype Doc = Doc(docId: string, data: Fields)

  /** A project row in the list, and the shape of the form draft. In a draft an
      empty id means "create a new record", a non-empty one "edit that record". */
  datatype Project = Project(
    id: string,
    title: string,
    description: string,
    techStack: string,
    dueDate: Option<Date>,
    status: string)

  /** The draft the form starts with and returns to after a successful save. */
  const EmptyDraft: Project := Project("", "", "", "", None, "")

  /** Whether the draft is in edit mode: its id tested for JavaScript
      truthiness, which holds for a string exactly when it has a character.
      The empty draft is therefore always in create mode. */
  function IsEditing(d: Project): (editing: bool)
    ensures editing <==> |d.id| > 0
    ensures editing ==> d != EmptyDraft
  {
    d.id != ""
  }

  /** The five non-id fields of a record or draft. */
  function FieldsOf(p: Project): (f: Fields)
    ensures WithId(p.id, f) == p
  {
    Fields(p.title, p.description, p.techStack, p.dueDate, p.status)
  }

  /** A record put together from an id and its fields. */
  function WithId(id: string, f: Fields): Project {
    Project(id, f.title, f.description, f.techStack, f.dueDate, f.status)
  }

  /** The row a delivered document becomes: the document's id next to its data. */
  function FromDoc(d: Doc): (p: Project)
    ensures p.id == d.docId
    ensures FieldsOf(p) == d.data
  {
    WithId(d.docId, d.data)
  }

  /** A record split into an id and its fields: the inverse of FromDoc. */
  function ToDoc(p: Project): (d: Doc)
    ensures FromDoc(d) == p
  {
    Doc(p.id, FieldsOf(p))
  }

  /** Turning a document into a row and splitting the row again gives back
      the document; the other order is ToDoc's own contract. */
  lemma DocRoundTrip(d: Doc)
    ensures ToDoc(FromDoc(d)) == d
  {
  }
}
