/**
 * The add form of the work log (src/client/src/modules/work/components/WorkForm.jsx):
 * the partner and task suggestions, the payload `submit` hands to `onSave`,
 * the reset of the five fields, and the disabled Save button.
 */
module WorkForm {
  import opened Wrappers
  import opened Text
  import opened Sequences
  import opened Js
  import opened ClientText
  import opened WorkSchema
  import WorkStore
  import ProjectStore

  // ------------------------------------------------------------ suggestions

  function PartnerColumn(works: seq<Work>): (r: seq<string>)
    ensures |r| == |works|
    ensures forall i :: 0 <= i < |works| ==> r[i] == works[i].partner
  {
    if works == [] then [] else [works[0].partner] + PartnerColumn(works[1..])
  }

  function TaskColumn(works: seq<Work>): (r: seq<string>)
    ensures |r| == |works|
    ensures forall i :: 0 <= i < |works| ==> r[i] == works[i].task
  {
    if works == [] then [] else [works[0].task] + TaskColumn(works[1..])
  }

  /** `[...new Set(works.map(w => w.partner))]`. */
  function Partners(works: seq<Work>): seq<string> {
    Dedup(PartnerColumn(works))
  }

  /** `[...new Set(works.map(w => w.task))]`. */
  function Tasks(works: seq<Work>): seq<string> {
    Dedup(TaskColumn(works))
  }

  /**
   * The partner suggestions are the distinct partners of the items, each
   * once, in the order of first occurrence.
   */
  lemma PartnersDistinct(works: seq<Work>)
    ensures forall p :: p in Partners(works) <==> exists i :: 0 <= i < |works| && works[i].partner == p
    ensures NoDup(Partners(works))
    ensures forall i, j :: 0 <= i < j < |Partners(works)| ==>
      IndexOf(PartnerColumn(works), Partners(works)[i]) < IndexOf(PartnerColumn(works), Partners(works)[j])
  {
    var col := PartnerColumn(works);
    forall p | p in col ensures exists i :: 0 <= i < |works| && works[i].partner == p {
      var i :| 0 <= i < |col| && col[i] == p;
      assert works[i].partner == p;
    }
    DedupFirstOccurrenceOrder(col);
  }

  /** The same for the task suggestions. */
  lemma TasksDistinct(works: seq<Work>)
    ensures forall t :: t in Tasks(works) <==> exists i :: 0 <= i < |works| && works[i].task == t
    ensures NoDup(Tasks(works))
    ensures forall i, j :: 0 <= i < j < |Tasks(works)| ==>
      IndexOf(TaskColumn(works), Tasks(works)[i]) < IndexOf(TaskColumn(works), Tasks(works)[j])
  {
    var col := TaskColumn(works);
    forall t | t in col ensures exists i :: 0 <= i < |works| && works[i].task == t {
      var i :| 0 <= i < |col| && col[i] == t;
      assert works[i].task == t;
    }
    DedupFirstOccurrenceOrder(col);
  }

  // ----------------------------------------------------------------- submit

  /** What `submit` passes to `onSave`. */
  datatype Payload = Payload(
    partner: string,
    task: string,
    ticketId: string,
    timeSpent: Option<Num>,
    description: Option<string>)

  /** `time ? Number(time) : null`. */
  function Minutes(time: string): (m: Option<Num>)
    ensures m.None? <==> time == ""
  {
    if time == "" then None else Some(StringToNumber(time))
  }

  /** The payload for the typed fields: partner, task and ticket id as typed, the description trimmed or null. */
  function SubmitPayload(partner: string, task: string, ticketId: string, time: string, desc: string): Payload {
    Payload(partner, task, ticketId, Minutes(time), TrimOrNull(desc))
  }

  /** `disabled={!partner || !task}`. */
  predicate SaveDisabled(partner: string, task: string) {
    partner == "" || task == ""
  }

  /**
   * A form whose Save button is disabled would be refused by the server's
   * guard anyway; the converse fails: a partner of blanks enables the button
   * and is still refused.
   */
  lemma DisabledSaveWouldBeRefused(partner: string, task: string)
    ensures SaveDisabled(partner, task) ==> !(ProjectStore.Given(Some(partner)) && ProjectStore.Given(Some(task)))
    ensures !SaveDisabled(" ", task + "x") && !ProjectStore.Given(Some(" "))
  {
    assert LeadingSpaces(" ") == 1;
  }

  /** The request body the payload becomes: `JSON.stringify` writes NaN as null; `tracked` is absent. */
  function RequestBody(p: Payload): (b: WorkStore.WorkBody)
    ensures b.partner == Some(p.partner) && b.task == Some(p.task)
  {
    WorkStore.WorkBody(
      Some(p.partner),
      Some(p.task),
      p.description,
      Some(p.ticketId),
      match p.timeSpent
      case Some(Int(n)) => Number(n)
      case _ => Null,
      Undefined)
  }

  /**
   * A submitted form the server accepts is stored with the description the
   * form sent (already trimmed, or null), the ticket id trimmed or null, and
   * the minutes typed, except that an empty, zero or non-numeric time is
   * stored as null.
   */
  lemma SubmittedWorkStored(partner: string, task: string, ticketId: string, time: string, desc: string, id: nat, now: nat)
    requires !IsBlank(partner) && !IsBlank(task)
    ensures var p := SubmitPayload(partner, task, ticketId, time, desc);
      var w := WorkStore.NewWork(id, RequestBody(p), now);
      && w.partner == Trim(partner) && w.task == Trim(task)
      && w.description == p.description
      && w.ticketId == TrimOrNull(ticketId)
      && (w.timeSpent.Some? <==> p.timeSpent.Some? && TruthyNum(p.timeSpent.value))
      && (w.timeSpent.Some? ==> w.timeSpent.value == p.timeSpent.value.value)
  {
    var p := SubmitPayload(partner, task, ticketId, time, desc);
    var b := RequestBody(p);
    if p.description.Some? {
      TrimIdempotent(desc);
      assert ProjectStore.TrimmedOrNull(b.description) == p.description;
    }
  }

  // ------------------------------------------------------------- the state

  /** The five controlled fields. */
  class Form {
    var partner: string
    var task: string
    var ticketId: string
    var time: string
    var desc: string

    predicate Empty()
      reads this
    {
      partner == "" && task == "" && ticketId == "" && time == "" && desc == ""
    }

    constructor ()
      ensures Empty()
    {
      partner, task, ticketId, time, desc := "", "", "", "", "";
    }

    /** `reset`: all five fields back to `""`. */
    method Reset()
      modifies this
      ensures Empty()
    {
      partner, task, ticketId, time, desc := "", "", "", "", "";
    }

    /**
     * `submit`: hands the payload to `onSave` and, once that has resolved
     * (`saved`), resets the form; a rejected save leaves the fields as typed.
     */
    method Submit(saved: bool) returns (payload: Payload)
      modifies this
      ensures payload == SubmitPayload(old(partner), old(task), old(ticketId), old(time), old(desc))
      ensures saved ==> Empty()
      ensures !saved ==> partner == old(partner) && task == old(task)
      ensures !saved ==> ticketId == old(ticketId) && time == old(time) && desc == old(desc)
    {
      payload := SubmitPayload(partner, task, ticketId, time, desc);
      if saved {
        Reset();
      }
    }
  }
}
