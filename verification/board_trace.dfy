/**
 Sequences of user and store events applied to the board one after another:
 the list only ever mirrors the last snapshot, each submit or delete issues
 exactly one request, and updates go only to ids taken from an edited row.
 */
module BoardTrace {
  import opened Records
  import opened Board

  /** Something the component reacts to. */
  datatype Event =
    | Changed(field: TextField, value: string)
    | DatePicked(date: Option<Date>)
    | EditClicked(row: Project)
    | Submitted(outcome: Outcome)
    | DeleteClicked(id: string, outcome: Outcome)
    | SnapshotArrived(docs: seq<Doc>)
    | FilterClicked(filter: string)

  /** The state after some events and the requests they issued, in order. */
  datatype Trace = Trace(final: State, requests: seq<Request>)

  /** One event: submit and delete issue one request each, nothing else does. */
  function Apply(s: State, e: Event): (t: Trace)
    ensures |t.requests| == (if e.Submitted? || e.DeleteClicked? then 1 else 0)
    ensures e.Submitted? ==> t.requests == [SubmitRequest(s.draft)]
    ensures e.DeleteClicked? ==> t.requests == [Delete(e.id)]
    ensures !e.SnapshotArrived? ==> t.final.projects == s.projects
  {
    match e
    case Changed(f, v) => Trace(Change(s, f, v), [])
    case DatePicked(date) => Trace(ChangeDate(s, date), [])
    case EditClicked(p) => Trace(Edit(s, p), [])
    case Submitted(outcome) =>
      var step := Submit(s, outcome);
      Trace(step.next, [step.request])
    case DeleteClicked(id, outcome) =>
      var step := Remove(s, id, outcome);
      Trace(step.next, [step.request])
    case SnapshotArrived(docs) => Trace(Snapshot(s, docs), [])
    case FilterClicked(f) => Trace(SetFilter(s, f), [])
  }

  /** Events applied in order, starting from `s`. */
  function Run(s: State, es: seq<Event>): Trace
    decreases |es|
  {
    if es == [] then Trace(s, [])
    else
      var t := Run(s, es[..|es| - 1]);
      var last := Apply(t.final, es[|es| - 1]);
      Trace(last.final, t.requests + last.requests)
  }

  /** The documents of the last snapshot among the events, if any arrived. */
  function LastSnapshot(es: seq<Event>): Option<seq<Doc>>
    decreases |es|
  {
    if es == [] then None
    else if es[|es| - 1].SnapshotArrived? then Some(es[|es| - 1].docs)
    else LastSnapshot(es[..|es| - 1])
  }

  /** How many of the events issue a request (submits and deletes). */
  function RequestingEvents(es: seq<Event>): nat
    decreases |es|
  {
    if es == [] then 0
    else RequestingEvents(es[..|es| - 1])
         + (if es[|es| - 1].Submitted? || es[|es| - 1].DeleteClicked? then 1 else 0)
  }

  /** The ids of all rows whose edit button was clicked among the events. */
  function EditedIds(es: seq<Event>): set<string>
    decreases |es|
  {
    if es == [] then {}
    else EditedIds(es[..|es| - 1])
         + (if es[|es| - 1].EditClicked? then {es[|es| - 1].row.id} else {})
  }

  /** The list is never changed locally: after any events it is the last
      snapshot's documents, in delivery order, or the starting list when no
      snapshot arrived. */
  lemma {:induction false} ProjectsMirrorLastSnapshot(s: State, es: seq<Event>)
    ensures LastSnapshot(es).Some? ==> Run(s, es).final.projects == Materialize(LastSnapshot(es).value)
    ensures LastSnapshot(es).None? ==> Run(s, es).final.projects == s.projects
    decreases |es|
  {
    if es != [] {
      ProjectsMirrorLastSnapshot(s, es[..|es| - 1]);
    }
  }

  /** Every submit and every delete issues exactly one request, and nothing
      else issues any. */
  lemma {:induction false} OneRequestPerSubmitOrDelete(s: State, es: seq<Event>)
    ensures |Run(s, es).requests| == RequestingEvents(es)
    decreases |es|
  {
    if es != [] {
      OneRequestPerSubmitOrDelete(s, es[..|es| - 1]);
    }
  }

  /** Starting from a draft in create mode, every update request issued is
      addressed to the id of a row whose edit button was clicked before, and
      never to the empty id. */
  lemma {:induction false} UpdatesTargetEditedRows(s: State, es: seq<Event>)
    requires !IsEditing(s.draft)
    ensures forall r :: r in Run(s, es).requests && r.Update? ==> r.id in EditedIds(es) && r.id != ""
    ensures IsEditing(Run(s, es).final.draft) ==> Run(s, es).final.draft.id in EditedIds(es)
    decreases |es|
  {
    if es != [] {
      var init := es[..|es| - 1];
      UpdatesTargetEditedRows(s, init);
      var t := Run(s, init);
      var last := Apply(t.final, es[|es| - 1]);
      assert Run(s, es).requests == t.requests + last.requests;
      assert EditedIds(init) <= EditedIds(es);
    }
  }

  /** From mount, with no snapshot yet the table is empty, whatever the user did. */
  lemma NoRowsBeforeFirstSnapshot(es: seq<Event>)
    requires LastSnapshot(es).None?
    ensures Rows(Run(Initial, es).final) == []
  {
    ProjectsMirrorLastSnapshot(Initial, es);
  }
}
