/**
 * The work-job routes (src/server/src/modules/work/routes.js): list by
 * creation time, create with trimming and coercion, update with the body as
 * it comes, delete. The route replies reuse `ProjectStore.Reply`; none of
 * these routes catches a database error.
 */
module WorkStore {
  import opened Wrappers
  import opened Text
  import opened Sequences
  import opened Js
  import opened WorkSchema
  import ProjectStore

  type Reply<T> = ProjectStore.Reply<T>

  const PartnerAndTaskRequired: string := "partner & task required"

  /**
   * The body of `POST /api/work`; `None` is a missing or null field. As in
   * the task route, `Boolean(tracked)` goes to `Work.create`, which drops it.
   */
  datatype WorkBody = WorkBody(
    partner: Option<string>,
    task: Option<string>,
    description: Option<string>,
    ticketId: Option<string>,
    timeSpent: Value,
    tracked: Value)

  /** The body of `PUT /api/work/:id`: each field absent (`None`) or set, possibly to null. */
  datatype WorkPatch = WorkPatch(
    partner: Option<Option<string>>,
    task: Option<Option<string>>,
    description: Option<Option<string>>,
    ticketId: Option<Option<string>>,
    timeSpent: Option<Option<int>>)

  /** `Number(timeSpent) || null`: zero and NaN are stored as null. */
  function MinutesOrNull(v: Value): (m: Option<int>)
    ensures m.Some? <==> TruthyNum(ToNumber(v))
    ensures m.Some? ==> m.value == ToNumber(v).value && m.value != 0
  {
    var n := ToNumber(v);
    if TruthyNum(n) then Some(n.value) else None
  }

  /** The row `Work.create` inserts. */
  function NewWork(id: nat, body: WorkBody, now: nat): (w: Work)
    requires ProjectStore.Given(body.partner) && ProjectStore.Given(body.task)
    ensures w.id == id && w.createdAt == now && w.updatedAt == now
    ensures w.partner != [] && w.task != []
    ensures w.timeSpent != Some(0)
  {
    Work(
      id,
      Trim(body.partner.value),
      Trim(body.task.value),
      ProjectStore.TrimmedOrNull(body.description),
      ProjectStore.TrimmedOrNull(body.ticketId),
      MinutesOrNull(body.timeSpent),
      now,
      now)
  }

  /**
   * `w.update(req.body)`: the fields the body sets, the rest kept, `updatedAt`
   * refreshed; `None` when the body sets `partner` or `task` to null, which
   * the `NOT NULL` columns refuse.
   */
  function ApplyWorkPatch(w: Work, p: WorkPatch, now: nat): (r: Option<Work>)
    ensures r.None? <==> p.partner == Some(None) || p.task == Some(None)
    ensures r.Some? ==> r.value.id == w.id && r.value.createdAt == w.createdAt && r.value.updatedAt == now
    ensures r.Some? ==> (p.partner.None? ==> r.value.partner == w.partner) && (p.partner.Some? ==> r.value.partner == p.partner.value.value)
    ensures r.Some? ==> (p.task.None? ==> r.value.task == w.task) && (p.task.Some? ==> r.value.task == p.task.value.value)
    ensures r.Some? ==> (p.description.None? ==> r.value.description == w.description) && (p.description.Some? ==> r.value.description == p.description.value)
    ensures r.Some? ==> (p.ticketId.None? ==> r.value.ticketId == w.ticketId) && (p.ticketId.Some? ==> r.value.ticketId == p.ticketId.value)
    ensures r.Some? ==> (p.timeSpent.None? ==> r.value.timeSpent == w.timeSpent) && (p.timeSpent.Some? ==> r.value.timeSpent == p.timeSpent.value)
  {
    if p.partner == Some(None) || p.task == Some(None) then None
    else
      Some(w.(
        partner := if p.partner.Some? then p.partner.value.value else w.partner,
        task := if p.task.Some? then p.task.value.value else w.task,
        description := p.description.GetOr(w.description),
        ticketId := p.ticketId.GetOr(w.ticketId),
        timeSpent := p.timeSpent.GetOr(w.timeSpent),
        updatedAt := now))
  }

  const ByCreatedAt := (a: Work, b: Work) => a.createdAt <= b.createdAt

  /** `GET /api/work`: every row, by `createdAt` ascending (rows created at the same time by id). */
  function WorkListing(items: map<nat, Work>, bound: nat): (ws: seq<Work>)
    ensures forall w :: w in ws <==> exists k :: k in items && k < bound && items[k] == w
    ensures |ws| == |ById(items, bound)|
  {
    SortByKeepsElements(ById(items, bound));
    SortBy(ById(items, bound), ByCreatedAt)
  }

  lemma SortByKeepsElements(ws: seq<Work>)
    ensures forall w :: w in SortBy(ws, ByCreatedAt) <==> w in ws
    ensures |SortBy(ws, ByCreatedAt)| == |ws|
  {
    SameElements(SortBy(ws, ByCreatedAt), ws);
    assert |multiset(SortBy(ws, ByCreatedAt))| == |multiset(ws)|;
  }

  /** The listing is in creation order. */
  lemma WorkListingSorted(items: map<nat, Work>, bound: nat)
    ensures SortedBy(WorkListing(items, bound), ByCreatedAt)
  {
    SortBySorted(ById(items, bound), ByCreatedAt);
  }

  class WorkTable {
    var items: map<nat, Work>
    var next: nat

    predicate Valid()
      reads this
    {
      WorkTableOk(items, next)
    }

    /** An empty table; ids start at 1. */
    constructor ()
      ensures Valid() && items == map[]
    {
      items, next := map[], 1;
    }

    /** `POST /api/work` at time `now`. */
    method Create(body: WorkBody, now: nat) returns (r: Reply<Work>)
      requires Valid()
      modifies this
      ensures Valid()
      ensures !(ProjectStore.Given(body.partner) && ProjectStore.Given(body.task)) ==>
        r == ProjectStore.BadRequest(ProjectStore.Required(PartnerAndTaskRequired)) && unchanged(this)
      ensures ProjectStore.Given(body.partner) && ProjectStore.Given(body.task) && !WorkFits(NewWork(old(next), body, now)) ==>
        r == ProjectStore.Unhandled && unchanged(this)
      ensures ProjectStore.Given(body.partner) && ProjectStore.Given(body.task) && WorkFits(NewWork(old(next), body, now)) ==>
        && r == ProjectStore.Json(NewWork(old(next), body, now))
        && items == old(items)[old(next) := NewWork(old(next), body, now)]
        && next == old(next) + 1
    {
      if !(ProjectStore.Given(body.partner) && ProjectStore.Given(body.task)) {
        return ProjectStore.BadRequest(ProjectStore.Required(PartnerAndTaskRequired));
      }
      var w := NewWork(next, body, now);
      if !WorkFits(w) {
        return ProjectStore.Unhandled;
      }
      items := items[next := w];
      next := next + 1;
      r := ProjectStore.Json(w);
    }

    /** `PUT /api/work/:id` at time `now`. */
    method Update(id: nat, patch: WorkPatch, now: nat) returns (r: Reply<Work>)
      requires Valid()
      modifies this
      ensures Valid()
      ensures id !in old(items) ==> r == ProjectStore.NotFound && unchanged(this)
      ensures id in old(items) && !(ApplyWorkPatch(old(items)[id], patch, now).Some? && WorkFits(ApplyWorkPatch(old(items)[id], patch, now).value)) ==>
        r == ProjectStore.Unhandled && unchanged(this)
      ensures id in old(items) && ApplyWorkPatch(old(items)[id], patch, now).Some? && WorkFits(ApplyWorkPatch(old(items)[id], patch, now).value) ==>
        && r == ProjectStore.Json(ApplyWorkPatch(old(items)[id], patch, now).value)
        && items == old(items)[id := r.body]
        && next == old(next)
    {
      if id !in items {
        return ProjectStore.NotFound;
      }
      var w := ApplyWorkPatch(items[id], patch, now);
      if !(w.Some? && WorkFits(w.value)) {
        return ProjectStore.Unhandled;
      }
      items := items[id := w.value];
      r := ProjectStore.Json(w.value);
    }

    /** `DELETE /api/work/:id`. */
    method Delete(id: nat) returns (r: Reply<Work>)
      requires Valid()
      modifies this
      ensures Valid()
      ensures id !in old(items) ==> r == ProjectStore.NotFound && unchanged(this)
      ensures id in old(items) ==> r == ProjectStore.NoContent && items == old(items) - {id} && next == old(next)
    {
      if id !in items {
        return ProjectStore.NotFound;
      }
      items := items - {id};
      r := ProjectStore.NoContent;
    }
  }

  // ------------------------------------------------------------------ lemmas

  /** A created row carries the trimmed partner and task, and trimmed-or-null description and ticket id. */
  lemma NewWorkTrimmed(id: nat, body: WorkBody, now: nat)
    requires ProjectStore.Given(body.partner) && ProjectStore.Given(body.task)
    ensures var w := NewWork(id, body, now);
      && Trim(w.partner) == w.partner && Trim(w.task) == w.task
      && (w.description.Some? ==> Trim(w.description.value) == w.description.value && w.description.value != [])
      && (w.ticketId.Some? ==> Trim(w.ticketId.value) == w.ticketId.value && w.ticketId.value != [])
  {
    TrimIdempotent(body.partner.value);
    TrimIdempotent(body.task.value);
    if ProjectStore.Given(body.description) {
      TrimIdempotent(body.description.value);
    }
    if ProjectStore.Given(body.ticketId) {
      TrimIdempotent(body.ticketId.value);
    }
  }

  /** The time spent: a number is kept unless it is 0; a missing value and a non-numeric string become null. */
  lemma MinutesCoercion(n: int, s: string)
    ensures MinutesOrNull(Number(n)) == (if n == 0 then None else Some(n))
    ensures MinutesOrNull(Undefined) == None && MinutesOrNull(Null) == None
    ensures !IsBlank(s) && !AllDigits(Trim(s)) ==> MinutesOrNull(Str(s)) == None
  {
  }

  /** A row the listing shows is a stored row, and every stored row is shown once. */
  lemma WorkListingExact(items: map<nat, Work>, bound: nat)
    requires WorkTableOk(items, bound)
    ensures forall w :: w in WorkListing(items, bound) <==> w in items.Values
    ensures |WorkListing(items, bound)| == |items|
  {
    ByIdLength(items, bound);
    assert (set k | k in items && k < bound) == items.Keys;
  }

  /** A created row is listed. */
  lemma CreatedIsListed(items: map<nat, Work>, next: nat, w: Work)
    requires WorkTableOk(items, next) && w.id == next && WorkFits(w)
    ensures w in WorkListing(items[next := w], next + 1)
  {
    assert items[next := w][next] == w;
  }

  /** A deleted row is no longer listed; every other row still is. */
  lemma DeletedIsNotListed(items: map<nat, Work>, next: nat, id: nat)
    requires WorkTableOk(items, next) && id in items
    ensures items[id] !in WorkListing(items - {id}, next)
    ensures forall k :: k in items && k != id ==> items[k] in WorkListing(items - {id}, next)
  {
    var gone := items[id];
    forall k | k in items - {id} && k < next
      ensures (items - {id})[k] != gone
    {
      assert items[k].id == k;
    }
    forall k | k in items && k != id
      ensures items[k] in WorkListing(items - {id}, next)
    {
      assert k in items - {id} && k < next && (items - {id})[k] == items[k];
    }
  }
}
