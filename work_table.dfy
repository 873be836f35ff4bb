/**
 * The work-log table (src/client/src/modules/work/components/WorkTable.jsx):
 * the edit form `beginEdit` copies from an item, the body `save` sends, and
 * the ticket, minutes and description cells.
 */
module WorkTable {
  import opened Wrappers
  import opened Text
  import opened Js
  import opened ClientText
  import opened WorkSchema

  /** `{ ...w, timeSpent: w.timeSpent ?? "" }`: the item, with the minutes as the input holds them. */
  datatype EditForm = EditForm(row: Work, timeSpent: Value)

  /** `{ ...form, timeSpent: ... }`: the item's fields and the minutes as sent. */
  datatype Sent = Sent(row: Work, timeSpent: Option<Num>)

  /**
   * `beginEdit(w)`'s form: the item itself, with a minutes field that is
   * truthy exactly when non-zero minutes are stored, and then reads back as
   * them.
   */
  function EditFormOf(w: Work): (f: EditForm)
    ensures f.row == w
    ensures ToBoolean(f.timeSpent) <==> w.timeSpent.Some? && w.timeSpent.value != 0
    ensures ToBoolean(f.timeSpent) ==> ToNumber(f.timeSpent) == Int(w.timeSpent.value)
    ensures w.timeSpent.None? ==> f.timeSpent == Str("")
    ensures w.timeSpent.Some? ==> f.timeSpent == Number(w.timeSpent.value)
  {
    EditForm(w, if w.timeSpent.None? then Str("") else Number(w.timeSpent.value))
  }

  /** `form.timeSpent ? Number(form.timeSpent) : null`. */
  function SentMinutes(v: Value): Option<Num> {
    if ToBoolean(v) then Some(ToNumber(v)) else None
  }

  function SentOf(f: EditForm): Sent {
    Sent(f.row, SentMinutes(f.timeSpent))
  }

  /**
   * Typed minutes: an empty field is sent as null, any other text as its
   * number, so a typed `"0"` is sent as 0.
   */
  lemma TypedMinutes(s: string)
    ensures SentMinutes(Str(s)) == if s == "" then None else Some(StringToNumber(s))
    ensures SentMinutes(Str("0")) == Some(Int(0))
  {
    NumberOfRenderedNat(0);
  }

  /**
   * Saving an untouched edit form sends the item back unchanged, minutes
   * included, except that stored minutes of 0 are sent as null: the number
   * 0, unlike the text `"0"`, is falsy.
   */
  lemma SaveUntouched(w: Work)
    ensures SentOf(EditFormOf(w)).row == w
    ensures SentOf(EditFormOf(w)).timeSpent ==
      if w.timeSpent.None? || w.timeSpent == Some(0) then None else Some(Int(w.timeSpent.value))
  {
  }

  /** The ticket cell: `w.ticketId || "—"`. */
  function TicketCell(w: Work): string {
    OrDash(w.ticketId)
  }

  /** The minutes cell: `w.timeSpent ?? "—"`. */
  function MinutesCell(w: Work): string {
    NumberOrDash(w.timeSpent)
  }

  /** The description cell: the 60-character preview. */
  function DescriptionCell(w: Work): string {
    Preview(w.description)
  }

  /** Missing minutes show `—`; stored minutes, 0 included, show as the number. */
  lemma MinutesShown(w: Work)
    ensures MinutesCell(w) == Dash <==> w.timeSpent.None?
    ensures w.timeSpent == Some(0) ==> MinutesCell(w) == "0"
  {
  }

  /** The table's editing state. */
  class Table {
    var editId: Option<nat>
    var form: EditForm

    constructor (blank: Work)
      ensures editId == None
    {
      editId := None;
      form := EditFormOf(blank);
    }

    /** `beginEdit(w)`. */
    method BeginEdit(w: Work)
      modifies this
      ensures editId == Some(w.id) && form == EditFormOf(w)
    {
      editId := Some(w.id);
      form := EditFormOf(w);
    }

    /** Typing in the minutes input. */
    method TypeMinutes(s: string)
      modifies this
      ensures form == old(form).(timeSpent := Str(s)) && editId == old(editId)
    {
      form := form.(timeSpent := Str(s));
    }

    /** `save`: the id and body handed to `onUpdate` (which never rejects: its caller catches), then the editor closes. */
    method Save() returns (id: Option<nat>, sent: Sent)
      modifies this
      ensures id == old(editId) && sent == SentOf(old(form))
      ensures editId == None && form == old(form)
    {
      id, sent := editId, SentOf(form);
      editId := None;
    }
  }
}
