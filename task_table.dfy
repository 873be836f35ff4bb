/**
 * The task table of a project (src/client/src/modules/project/components/TaskTable.jsx):
 * the edit form `beginEdit` fills from a task, the update `save` sends, and
 * the text of the customer, end and notes cells. `toLocaleString` of a date
 * is a parameter.
 */
module TaskTable {
  import opened Wrappers
  import opened Text
  import opened Js
  import opened ClientText
  import opened ProjectSchema

  /** `slice(0, 16)`: a stored date cut to the `datetime-local` input's `YYYY-MM-DDTHH:MM`. */
  const DateInputLength: nat := 16

  /** The inline edit form. */
  datatype EditForm = EditForm(name: string, customer: string, startedAt: string, finishedAt: string, notes: string)

  /** The body `save` passes to `onUpdate`. */
  datatype Update = Update(name: string, customer: string, startedAt: string, finishedAt: Option<string>, notes: Option<string>)

  /**
   * `beginEdit(t)`'s form: the dates are cut to the input's 16 characters
   * (a shorter date is kept whole), the end is empty exactly when the task
   * has none, and an absent customer or notes field is empty.
   */
  function EditFormOf(t: Task): (f: EditForm)
    ensures f.name == t.name
    ensures |f.startedAt| <= DateInputLength && |f.startedAt| <= |t.startedAt| && f.startedAt == t.startedAt[..|f.startedAt|]
    ensures |t.startedAt| <= DateInputLength ==> f.startedAt == t.startedAt
    ensures |f.finishedAt| <= DateInputLength
    ensures f.finishedAt == "" <==> !Truthy(t.finishedAt)
    ensures Truthy(t.finishedAt) ==> |f.finishedAt| <= |t.finishedAt.value| && f.finishedAt == t.finishedAt.value[..|f.finishedAt|]
    ensures f.customer == t.customer.GetOr("") && f.notes == t.notes.GetOr("")
    ensures f.startedAt == Slice(t.startedAt, DateInputLength)
    ensures f.finishedAt == if Truthy(t.finishedAt) then Slice(t.finishedAt.value, DateInputLength) else ""
  {
    EditForm(
      t.name,
      t.customer.GetOr(""),
      Slice(t.startedAt, DateInputLength),
      if Truthy(t.finishedAt) then Slice(t.finishedAt.value, DateInputLength) else "",
      t.notes.GetOr(""))
  }

  /** `save`'s body: an empty end becomes null, the notes are trimmed or null. */
  function UpdateOf(f: EditForm): Update {
    Update(f.name, f.customer, f.startedAt, if f.finishedAt == "" then None else Some(f.finishedAt), TrimOrNull(f.notes))
  }

  /**
   * Saving an untouched edit form sends the task back with the dates cut to
   * 16 characters, an absent customer as `""`, a missing or empty end as
   * null and the notes trimmed (blank notes as null); the end is null
   * exactly when the task had none.
   */
  lemma SaveUntouched(t: Task)
    ensures var u := UpdateOf(EditFormOf(t));
      && u.name == t.name && u.customer == t.customer.GetOr("")
      && u.startedAt == Slice(t.startedAt, DateInputLength)
      && (u.finishedAt.None? <==> !Truthy(t.finishedAt))
      && (u.finishedAt.Some? ==> u.finishedAt.value == Slice(t.finishedAt.value, DateInputLength))
      && u.notes == TrimOrNull(t.notes.GetOr(""))
  {
  }

  /**
   * A task already in the form's shape (dates of at most 16 characters,
   * notes trimmed or null, a customer present) comes back from an untouched
   * edit exactly as it was.
   */
  lemma SaveUntouchedKeeps(t: Task)
    requires |t.startedAt| <= DateInputLength
    requires t.finishedAt.None? || (t.finishedAt.value != "" && |t.finishedAt.value| <= DateInputLength)
    requires t.notes.None? || (!IsBlank(t.notes.value) && Trim(t.notes.value) == t.notes.value)
    requires t.customer.Some?
    ensures UpdateOf(EditFormOf(t)) == Update(t.name, t.customer.value, t.startedAt, t.finishedAt, t.notes)
  {
    var f := EditFormOf(t);
    assert f.startedAt == t.startedAt;
    if t.finishedAt.Some? {
      assert f.finishedAt == t.finishedAt.value;
    }
    assert TrimOrNull(f.notes) == t.notes by {
      if t.notes.None? {
        assert IsBlank("");
      }
    }
  }

  /** The customer cell: `t.customer || "—"`. */
  function CustomerCell(t: Task): string {
    OrDash(t.customer)
  }

  /** The end cell: the formatted date when there is one, `—` otherwise. */
  function EndCell(t: Task, format: string -> string): (r: string)
    ensures Truthy(t.finishedAt) ==> r == format(t.finishedAt.value)
    ensures !Truthy(t.finishedAt) ==> r == Dash
  {
    if Truthy(t.finishedAt) then format(t.finishedAt.value) else Dash
  }

  /** The notes cell: the 60-character preview, `—` when there are none. */
  function NotesCell(t: Task): string {
    Preview(t.notes)
  }

  /**
   * The row and its edit form agree: the customer, end and notes cells show
   * `—` exactly when the form's field is empty, and the end cell does so
   * exactly when an untouched save sends a null end (a value that is itself
   * `—` aside).
   */
  lemma CellsAgreeWithForm(t: Task, format: string -> string)
    requires t.customer != Some(Dash) && t.notes != Some(Dash)
    requires Truthy(t.finishedAt) ==> format(t.finishedAt.value) != Dash
    ensures CustomerCell(t) == Dash <==> EditFormOf(t).customer == ""
    ensures EndCell(t, format) == Dash <==> EditFormOf(t).finishedAt == ""
    ensures EndCell(t, format) == Dash <==> UpdateOf(EditFormOf(t)).finishedAt.None?
    ensures NotesCell(t) == Dash <==> EditFormOf(t).notes == ""
  {
    if Truthy(t.notes) {
      PreviewShape(t.notes);
      if |t.notes.value| > PreviewLength {
        assert |NotesCell(t)| == PreviewLength + 1;
      }
    }
  }

  /** The table's editing state. */
  class Table {
    var editingId: Option<nat>
    var form: EditForm

    constructor ()
      ensures editingId == None
    {
      editingId := None;
      form := EditForm("", "", "", "", "");
    }

    /** `beginEdit(t)`. */
    method BeginEdit(t: Task)
      modifies this
      ensures form == EditFormOf(t) && editingId == Some(t.id)
    {
      form := EditFormOf(t);
      editingId := Some(t.id);
    }

    /** `save`: the id and body handed to `onUpdate` (which never rejects: its caller catches), then the editor closes. */
    method Save() returns (id: Option<nat>, update: Update)
      modifies this
      ensures editingId == None && form == old(form)
      ensures id == old(editingId) && update == UpdateOf(form)
    {
      id := editingId;
      editingId := None;
      update := UpdateOf(form);
    }
  }
}
