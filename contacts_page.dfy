/**
 * The global contacts page (src/client/src/modules/contacts/Contacts.jsx):
 * the case-insensitive `inc` test, the five-field `filtered` view, the
 * guards of `create` and `saveEdit`, and the per-project task cache that
 * `loadTasks` fills. Requests are returned as values; whether they succeed
 * is a parameter.
 */
module ContactsPage {
  import opened Wrappers
  import opened Text
  import opened Sequences
  import ProjectSchema
  import ProjectStore
  import ProjectApi

  type Row = ProjectStore.ContactRow

  // -------------------------------------------------------------------- inc

  /** `inc(a, b)`: `a.toLowerCase().includes(b.toLowerCase())`. */
  predicate Inc(a: string, b: string) {
    Contains(Lower(a), Lower(b))
  }

  /** Lower-casing forgets any earlier change of case, and changes nothing the second time. */
  lemma LowerUpper(s: string)
    ensures Lower(Upper(s)) == Lower(s)
    ensures Lower(Lower(s)) == Lower(s)
  {
    forall i | 0 <= i < |s|
      ensures Lower(Upper(s))[i] == Lower(s)[i] && Lower(Lower(s))[i] == Lower(s)[i]
    {
      CaseChar(s[i]);
    }
  }

  /**
   * `inc` holds exactly when the lower-cased needle occurs somewhere in the
   * lower-cased text; the case of either argument does not matter, and the
   * empty needle is found everywhere.
   */
  lemma IncIff(a: string, b: string)
    ensures Inc(a, b) <==> exists i :: OccursAt(Lower(a), Lower(b), i)
    ensures Inc(a, b) == Inc(Upper(a), b) == Inc(a, Upper(b)) == Inc(Lower(a), Lower(b))
    ensures Inc(a, "")
  {
    ContainsIff(Lower(a), Lower(b));
    LowerUpper(a);
    LowerUpper(b);
    assert OccursAt(Lower(a), Lower(""), 0);
    ContainsIff(Lower(a), Lower(""));
  }

  // ------------------------------------------------------------- the filter

  datatype Key = Name | Email | Position | Project | Customer

  /** `Object.keys(q)`, in the order of the state's initialiser. */
  const Keys: seq<Key> := [Name, Email, Position, Project, Customer]

  /** The five filter inputs. */
  datatype Query = Query(name: string, email: string, position: string, project: string, customer: string)

  function QueryText(q: Query, k: Key): string {
    match k
    case Name => q.name
    case Email => q.email
    case Position => q.position
    case Project => q.project
    case Customer => q.customer
  }

  /** `String(r[k] ?? "")`. */
  function FieldText(r: Row, k: Key): string {
    match k
    case Name => r.name
    case Email => r.email
    case Position => r.position.GetOr("")
    case Project => r.project
    case Customer => r.customer.GetOr("")
  }

  /** `Object.keys(q).filter(k => q[k].trim())`. */
  function ActiveKeys(q: Query): seq<Key> {
    Filter(Keys, (k: Key) => !IsBlank(QueryText(q, k)))
  }

  /** The active keys are exactly the keys whose filter is not blank. */
  lemma ActiveKeysIff(q: Query)
    ensures forall k :: k in ActiveKeys(q) <==> !IsBlank(QueryText(q, k))
  {
    forall k ensures k in Keys {
      match k
      case Name => assert Keys[0] == k;
      case Email => assert Keys[1] == k;
      case Position => assert Keys[2] == k;
      case Project => assert Keys[3] == k;
      case Customer => assert Keys[4] == k;
    }
  }

  /** `keys.every(k => inc(String(r[k] ?? ""), q[k]))`: the untrimmed filter text is searched for. */
  predicate Matches(q: Query, r: Row) {
    forall k :: k in ActiveKeys(q) ==> Inc(FieldText(r, k), QueryText(q, k))
  }

  /** `filtered`. */
  function Filtered(rows: seq<Row>, q: Query): seq<Row> {
    if ActiveKeys(q) == [] then rows else Filter(rows, (r: Row) => Matches(q, r))
  }

  /** With every filter blank the view is the whole list, in its order. */
  lemma FilteredNoCriteria(rows: seq<Row>, q: Query)
    requires forall k :: IsBlank(QueryText(q, k))
    ensures Filtered(rows, q) == rows
  {
    ActiveKeysIff(q);
  }

  /**
   * A row is shown iff it is in the list and, for every filter that is not
   * blank, its field case-insensitively contains the filter text as typed;
   * the view keeps the list's order.
   */
  lemma FilteredRows(rows: seq<Row>, q: Query)
    ensures forall r :: r in Filtered(rows, q) <==>
      r in rows && forall k :: !IsBlank(QueryText(q, k)) ==> Inc(FieldText(r, k), QueryText(q, k))
    ensures IsSubsequence(Filtered(rows, q), rows)
  {
    ActiveKeysIff(q);
    if ActiveKeys(q) == [] {
      SubsequenceOfItself(rows);
    } else {
      FilterIsSubsequence(rows, (r: Row) => Matches(q, r));
    }
  }

  lemma {:induction false} SubsequenceOfItself<T(!new)>(xs: seq<T>)
    ensures IsSubsequence(xs, xs)
  {
    if xs != [] {
      SubsequenceOfItself(xs[1..]);
    }
  }

  // ---------------------------------------------------------- create / edit

  /** The add form; the ids are the `<select>` values. */
  datatype NewRow = NewRow(projectId: string, taskId: string, name: string, email: string, position: string)

  const EmptyNew: NewRow := NewRow("", "", "", "", "")

  /** The edit form of a row. */
  datatype EditRow = EditRow(name: string, email: string, position: Option<string>)

  /** `insertContact(taskId, { name, email, position })`. */
  datatype Insert = Insert(taskId: string, body: ProjectStore.ContactBody)

  /** `if (!taskId || !name.trim() || !email.trim()) return;` */
  predicate CanCreate(n: NewRow) {
    n.taskId != "" && !IsBlank(n.name) && !IsBlank(n.email)
  }

  /** `if (!name.trim() || !email.trim()) return;` */
  predicate CanSave(e: EditRow) {
    !IsBlank(e.name) && !IsBlank(e.email)
  }

  /** The request `create` makes, if any: the fields go as typed, untrimmed. */
  function CreateRequest(n: NewRow): (r: Option<Insert>)
    ensures r.Some? <==> CanCreate(n)
    ensures r.Some? ==> ProjectStore.Given(r.value.body.name) && ProjectStore.Given(r.value.body.email)
  {
    if CanCreate(n) then Some(Insert(n.taskId, ProjectStore.ContactBody(Some(n.name), Some(n.email), Some(n.position))))
    else None
  }

  /** The body `saveEdit` sends, if any. */
  function SaveRequest(e: EditRow): (r: Option<ProjectStore.ContactBody>)
    ensures r.Some? <==> CanSave(e)
    ensures r.Some? ==> ProjectStore.Given(r.value.name) && ProjectStore.Given(r.value.email)
  {
    if CanSave(e) then Some(ProjectStore.ContactBody(Some(e.name), Some(e.email), e.position)) else None
  }

  // --------------------------------------------------------- the task cache

  /** The cache after `loadTasks(pid)` and its request's outcome (`None` when it failed). */
  function CacheAfter(cache: map<string, seq<ProjectSchema.Task>>, pid: string, fetched: Option<seq<ProjectSchema.Task>>): map<string, seq<ProjectSchema.Task>> {
    if pid == "" || pid in cache || fetched.None? then cache else cache[pid := fetched.value]
  }

  /**
   * `loadTasks` fetches only for a non-empty id not yet cached (an empty
   * list counts as cached: an array is truthy); afterwards the id maps to
   * the fetched list and every other entry is unchanged, so a second call
   * fetches nothing.
   */
  lemma LoadTasksOnce(cache: map<string, seq<ProjectSchema.Task>>, pid: string, list: seq<ProjectSchema.Task>, again: Option<seq<ProjectSchema.Task>>)
    requires pid != "" && pid !in cache
    ensures CacheAfter(cache, pid, Some(list))[pid] == list
    ensures forall q :: q != pid ==> (q in CacheAfter(cache, pid, Some(list)) <==> q in cache)
    ensures forall q :: q != pid && q in cache ==> CacheAfter(cache, pid, Some(list))[q] == cache[q]
    ensures CacheAfter(CacheAfter(cache, pid, Some(list)), pid, again) == CacheAfter(cache, pid, Some(list))
  {
  }

  /** The page's form and cache state. */
  class Page {
    var newRow: NewRow
    var editId: Option<nat>
    var editRow: EditRow
    var tasks: map<string, seq<ProjectSchema.Task>>

    constructor ()
      ensures newRow == EmptyNew && editId == None && tasks == map[]
    {
      newRow := EmptyNew;
      editId := None;
      editRow := EditRow("", "", None);
      tasks := map[];
    }

    /** `loadTasks(pid)`: says whether it asked the server, and stores a successful answer. */
    method LoadTasks(pid: string, fetched: Option<seq<ProjectSchema.Task>>) returns (requested: bool)
      modifies this
      ensures requested <==> pid != "" && pid !in old(tasks)
      ensures tasks == CacheAfter(old(tasks), pid, fetched)
      ensures newRow == old(newRow) && editId == old(editId) && editRow == old(editRow)
    {
      if pid == "" || pid in tasks {
        return false;
      }
      requested := true;
      if fetched.Some? {
        tasks := tasks[pid := fetched.value];
      }
    }

    /**
     * `create` against the API object the page expects, which has
     * `insertContact`: makes the request the guard allows; a successful
     * insert empties the form. There is no `.catch`: a failed insert leaves
     * the form as it was.
     */
    method Create(answer: ProjectApi.Answer) returns (request: Option<Insert>)
      modifies this
      ensures request == CreateRequest(old(newRow))
      ensures newRow == if request.Some? && answer.Ok? then EmptyNew else old(newRow)
      ensures editId == old(editId) && editRow == old(editRow) && tasks == old(tasks)
    {
      request := CreateRequest(newRow);
      if request.Some? {
        ProjectApi.ContactMethodsMissing(answer);
        AfterInsert(ProjectApi.Call(ProjectApi.WithContacts, "insertContact", answer));
      }
    }

    /**
     * `create` as written: `api.js` has no `insertContact`, so once the guard
     * passes the call throws before `.then` is attached. No request goes out
     * and the form is never emptied.
     */
    method CreateAsWritten(answer: ProjectApi.Answer) returns (request: Option<Insert>)
      modifies this
      ensures request.None?
      ensures newRow == old(newRow) && editId == old(editId) && editRow == old(editRow) && tasks == old(tasks)
    {
      var guarded := CreateRequest(newRow);
      request := None;
      if guarded.Some? {
        ProjectApi.ContactMethodsMissing(answer);
        var s := ProjectApi.Call(ProjectApi.Exported, "insertContact", answer);
        request := if s.Threw? then None else guarded;
        AfterInsert(s);
      }
    }

    /** The `.then` of `create`: only a resolved insert empties the form. */
    method AfterInsert(s: ProjectApi.Settled)
      modifies this
      ensures newRow == if s == ProjectApi.Answered(ProjectApi.Ok) then EmptyNew else old(newRow)
      ensures editId == old(editId) && editRow == old(editRow) && tasks == old(tasks)
    {
      match s
      case Answered(Ok) =>
        newRow := EmptyNew;
      case _ =>
    }

    /**
     * `saveEdit(id)` against the API object the page expects, which has
     * `updateContact`: makes the request the guard allows; a successful
     * update closes the editor. There is no `.catch`: a failed update leaves
     * the editor open.
     */
    method SaveEdit(id: nat, answer: ProjectApi.Answer) returns (request: Option<ProjectStore.ContactBody>)
      modifies this
      ensures request == SaveRequest(old(editRow))
      ensures editId == if request.Some? && answer.Ok? then None else old(editId)
      ensures newRow == old(newRow) && editRow == old(editRow) && tasks == old(tasks)
    {
      request := SaveRequest(editRow);
      if request.Some? {
        ProjectApi.ContactMethodsMissing(answer);
        AfterUpdate(ProjectApi.Call(ProjectApi.WithContacts, "updateContact", answer));
      }
    }

    /**
     * `saveEdit(id)` as written: `api.js` has no `updateContact`, so once the
     * guard passes the call throws before `.then` is attached. No request
     * goes out and the editor never closes.
     */
    method SaveEditAsWritten(id: nat, answer: ProjectApi.Answer) returns (request: Option<ProjectStore.ContactBody>)
      modifies this
      ensures request.None?
      ensures editId == old(editId) && newRow == old(newRow) && editRow == old(editRow) && tasks == old(tasks)
    {
      var guarded := SaveRequest(editRow);
      request := None;
      if guarded.Some? {
        ProjectApi.ContactMethodsMissing(answer);
        var s := ProjectApi.Call(ProjectApi.Exported, "updateContact", answer);
        request := if s.Threw? then None else guarded;
        AfterUpdate(s);
      }
    }

    /** The `.then` of `saveEdit`: only a resolved update closes the editor. */
    method AfterUpdate(s: ProjectApi.Settled)
      modifies this
      ensures editId == if s == ProjectApi.Answered(ProjectApi.Ok) then None else old(editId)
      ensures newRow == old(newRow) && editRow == old(editRow) && tasks == old(tasks)
    {
      match s
      case Answered(Ok) =>
        editId := None;
      case _ =>
    }
  }
}
