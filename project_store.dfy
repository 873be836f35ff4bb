/**
 * The project routes (src/server/src/modules/project/routes.js) over the
 * tables of `ProjectSchema`. `Store` holds the three tables; each route that
 * writes is a method that validates and trims the request as the route
 * does, and then either changes the tables or leaves them alone. A row the
 * database refuses (a duplicate or over-long project name, an over-long
 * value, a missing parent row) is `BadRequest(Rejected)` where the route
 * catches the error and `Unhandled` where it does not. The listings and the
 * global contact search are functions of the tables.
 */
module ProjectStore {
  import opened Wrappers
  import opened Text
  import opened Sequences
  import opened Js
  import opened ProjectSchema

  /** Why a request was refused: a missing field (with the route's message), or a row the database refused. */
  datatype Problem = Required(message: string) | Rejected

  /** What a route answers. `Unhandled` is a database error the route does not catch. */
  datatype Reply<T> =
    | Json(body: T)
    | NoContent
    | BadRequest(problem: Problem)
    | NotFound
    | Unhandled

  const NameRequired: string := "name required"
  const NameAndStartRequired: string := "name & startedAt required"
  const NameAndEmailRequired: string := "name & email required"

  // ----------------------------------------------------------- request bodies

  /**
   * The body of `POST /api/projects/:pid/tasks`; `None` is a missing or null
   * field. The route passes `Boolean(tracked)` on to `Task.create`, which
   * drops it: the task model has no such attribute.
   */
  datatype TaskBody = TaskBody(
    name: Option<string>,
    customer: Option<string>,
    startedAt: Option<string>,
    finishedAt: Option<string>,
    notes: Option<string>,
    tracked: Value)

  /**
   * The body of `PUT /api/tasks/:id`: each field is absent (`None`) or set,
   * nullable fields possibly to null.
   */
  datatype TaskPatch = TaskPatch(
    projectId: Option<nat>,
    name: Option<Option<string>>,
    customer: Option<Option<string>>,
    startedAt: Option<Option<string>>,
    finishedAt: Option<Option<string>>,
    notes: Option<Option<string>>)

  /** The body of the contact routes. */
  datatype ContactBody = ContactBody(name: Option<string>, email: Option<string>, position: Option<string>)

  /** `v?.trim()` is truthy. */
  predicate Given(v: Option<string>) {
    v.Some? && !IsBlank(v.value)
  }

  /** `v?.trim() || null`. */
  function TrimmedOrNull(v: Option<string>): (r: Option<string>)
    ensures r.None? <==> !Given(v)
    ensures r.Some? ==> r.value == Trim(v.value) && r.value != []
  {
    if Given(v) then Some(Trim(v.value)) else None
  }

  /** The row `Task.create` inserts. */
  function NewTask(id: nat, pid: nat, body: TaskBody): Task
    requires body.name.Some? && body.startedAt.Some?
  {
    Task(id, pid, body.name.value, body.customer, body.startedAt.value, body.finishedAt, body.notes)
  }

  /** `t.update(body)`: `None` when a NOT NULL column is set to null. */
  function ApplyPatch(t: Task, p: TaskPatch): (r: Option<Task>)
    ensures r.None? <==> p.name == Some(None) || p.startedAt == Some(None)
    ensures r.Some? ==> r.value.id == t.id
    ensures r.Some? && p.name.None? ==> r.value.name == t.name
    ensures r.Some? && p.name.Some? ==> r.value.name == p.name.value.value
    ensures r.Some? && p.projectId.None? ==> r.value.projectId == t.projectId
    ensures r.Some? && p.projectId.Some? ==> r.value.projectId == p.projectId.value
    ensures r.Some? && p.customer.None? ==> r.value.customer == t.customer
    ensures r.Some? && p.customer.Some? ==> r.value.customer == p.customer.value
    ensures r.Some? && p.startedAt.None? ==> r.value.startedAt == t.startedAt
    ensures r.Some? && p.startedAt.Some? ==> r.value.startedAt == p.startedAt.value.value
    ensures r.Some? && p.finishedAt.None? ==> r.value.finishedAt == t.finishedAt
    ensures r.Some? && p.finishedAt.Some? ==> r.value.finishedAt == p.finishedAt.value
    ensures r.Some? && p.notes.None? ==> r.value.notes == t.notes
    ensures r.Some? && p.notes.Some? ==> r.value.notes == p.notes.value
  {
    if p.name == Some(None) || p.startedAt == Some(None) then None
    else
      Some(Task(
        t.id,
        p.projectId.GetOr(t.projectId),
        if p.name.Some? then p.name.value.value else t.name,
        p.customer.GetOr(t.customer),
        if p.startedAt.Some? then p.startedAt.value.value else t.startedAt,
        p.finishedAt.GetOr(t.finishedAt),
        p.notes.GetOr(t.notes)))
  }

  /** The row `Contact.create` inserts: name and email trimmed, a blank position null. */
  function NewContact(id: nat, tid: nat, body: ContactBody): (c: Contact)
    requires Given(body.name) && Given(body.email)
    ensures c.id == id && c.taskId == tid
    ensures c.name != [] && c.email != [] && (c.position.None? || c.position.value != [])
  {
    Contact(id, tid, Trim(body.name.value), Trim(body.email.value), TrimmedOrNull(body.position))
  }

  /** The stored name, e-mail and position carry no surrounding white space. */
  lemma NewContactTrimmed(id: nat, tid: nat, body: ContactBody)
    requires Given(body.name) && Given(body.email)
    ensures Trim(NewContact(id, tid, body).name) == NewContact(id, tid, body).name
    ensures Trim(NewContact(id, tid, body).email) == NewContact(id, tid, body).email
    ensures NewContact(id, tid, body).position.Some? ==>
      Trim(NewContact(id, tid, body).position.value) == NewContact(id, tid, body).position.value
  {
    TrimIdempotent(body.name.value);
    TrimIdempotent(body.email.value);
    if Given(body.position) {
      TrimIdempotent(body.position.value);
    }
  }

  /** The contact after `c.update(...)`: the same id and task, the body's fields trimmed. */
  function Edited(c: Contact, body: ContactBody): (e: Contact)
    requires Given(body.name) && Given(body.email)
    ensures e.id == c.id && e.taskId == c.taskId
    ensures e == NewContact(c.id, c.taskId, body)
  {
    c.(name := Trim(body.name.value), email := Trim(body.email.value), position := TrimmedOrNull(body.position))
  }

  /** Another project than `except` already has the name. */
  predicate NameTaken(projects: map<nat, Project>, name: string, except: Option<nat>) {
    exists k :: k in projects && projects[k].name == name && Some(k) != except
  }

  // --------------------------------------------------------------- listings

  const ByCreatedAt := (a: Project, b: Project) => a.createdAt <= b.createdAt
  const ByStartedAt := (a: Task, b: Task) => LexLe(a.startedAt, b.startedAt)
  const ByContactId := (a: Contact, b: Contact) => a.id < b.id

  /** `GET /api/projects`: every project, by `createdAt` ascending. */
  function ProjectListing(projects: map<nat, Project>, bound: nat): (ps: seq<Project>)
    ensures forall p :: p in ps <==> exists k :: k in projects && k < bound && projects[k] == p
    ensures SortedBy(ps, ByCreatedAt)
  {
    var all := ById(projects, bound);
    SortBySorted(all, ByCreatedAt);
    SameElements(SortBy(all, ByCreatedAt), all);
    SortBy(all, ByCreatedAt)
  }

  /** `GET /api/projects/:pid/tasks`: the project's tasks, by `startedAt` ascending (dates as ISO text). */
  function TaskListing(tasks: map<nat, Task>, bound: nat, pid: nat): (ts: seq<Task>)
    ensures forall t :: t in ts <==> (exists k :: k in tasks && k < bound && tasks[k] == t) && t.projectId == pid
    ensures SortedBy(ts, ByStartedAt)
  {
    var mine := Filter(ById(tasks, bound), (t: Task) => t.projectId == pid);
    ByStringKeyIsTotalPreorder(ByStartedAt, (t: Task) => t.startedAt);
    SortBySorted(mine, ByStartedAt);
    SameElements(SortBy(mine, ByStartedAt), mine);
    SortBy(mine, ByStartedAt)
  }

  /** `GET /api/tasks/:tid/contacts`: the task's contacts, by id ascending. */
  function ContactListing(contacts: map<nat, Contact>, bound: nat, tid: nat): (cs: seq<Contact>)
    requires ContactKeys(contacts, bound)
    ensures forall c :: c in cs <==> c in contacts.Values && c.taskId == tid
  {
    Filter(ById(contacts, bound), (c: Contact) => c.taskId == tid)
  }

  /** The task's contacts come by id ascending. */
  lemma ContactListingSorted(contacts: map<nat, Contact>, bound: nat, tid: nat)
    requires ContactKeys(contacts, bound)
    ensures SortedBy(ContactListing(contacts, bound, tid), ByContactId)
  {
    ByIdAscending(contacts, bound, (c: Contact) => c.id);
    FilterKeepsSorted(ById(contacts, bound), (c: Contact) => c.taskId == tid, ByContactId);
  }

  // --------------------------------------------------------- contact search

  /** The query of `GET /api/contacts`; a falsy field does not filter. */
  datatype ContactFilter = ContactFilter(
    name: Option<string>,
    email: Option<string>,
    position: Option<string>,
    project: Option<string>,
    customer: Option<string>)

  /** A result row, flattened for the client. */
  datatype ContactRow = ContactRow(
    id: nat, name: string, email: string, position: Option<string>,
    customer: Option<string>, project: string)

  /** `LIKE %q%` when `q` is truthy; a NULL column never matches. */
  predicate Like(field: Option<string>, q: Option<string>) {
    !Truthy(q) || (field.Some? && Contains(field.value, q.value))
  }

  /** The contact, with its task and the task's project, passes every supplied filter. */
  predicate Selected(f: ContactFilter, c: Contact, t: Task, p: Project) {
    && Like(Some(c.name), f.name)
    && Like(Some(c.email), f.email)
    && Like(c.position, f.position)
    && Like(t.customer, f.customer)
    && Like(Some(p.name), f.project)
  }

  function Flatten(c: Contact, t: Task, p: Project): ContactRow {
    ContactRow(c.id, c.name, c.email, c.position, t.customer, p.name)
  }

  /** The contact joins its task and the task's project (inner joins), and passes the filters. */
  predicate Hit(c: Contact, tasks: map<nat, Task>, projects: map<nat, Project>, f: ContactFilter) {
    && c.taskId in tasks
    && tasks[c.taskId].projectId in projects
    && Selected(f, c, tasks[c.taskId], projects[tasks[c.taskId].projectId])
  }

  /** The flattened row of a contact that joins. */
  function RowOf(c: Contact, tasks: map<nat, Task>, projects: map<nat, Project>): ContactRow
    requires c.taskId in tasks && tasks[c.taskId].projectId in projects
  {
    Flatten(c, tasks[c.taskId], projects[tasks[c.taskId].projectId])
  }

  /** The rows of the three-table join that pass the filters, in the order of `cs`. */
  function Joined(cs: seq<Contact>, tasks: map<nat, Task>, projects: map<nat, Project>, f: ContactFilter): (rows: seq<ContactRow>)
  {
    if cs == [] then []
    else (if Hit(cs[0], tasks, projects, f) then [RowOf(cs[0], tasks, projects)] else []) + Joined(cs[1..], tasks, projects, f)
  }

  const ByRowName := (a: ContactRow, b: ContactRow) => LexLe(a.name, b.name)

  /** `GET /api/contacts`: the selected contacts, flattened, by name. */
  function Search(projects: map<nat, Project>, tasks: map<nat, Task>, contacts: map<nat, Contact>, bound: nat, f: ContactFilter)
    : (rows: seq<ContactRow>)
    ensures SortedBy(rows, ByRowName)
    ensures multiset(rows) == multiset(Joined(ById(contacts, bound), tasks, projects, f))
  {
    var rows := Joined(ById(contacts, bound), tasks, projects, f);
    ByStringKeyIsTotalPreorder(ByRowName, (r: ContactRow) => r.name);
    SortBySorted(rows, ByRowName);
    SortBy(rows, ByRowName)
  }

  /** A row is in the join exactly when it is the row of a contact of `cs` that joins and passes the filters. */
  lemma {:induction false} JoinedRows(cs: seq<Contact>, tasks: map<nat, Task>, projects: map<nat, Project>, f: ContactFilter)
    ensures forall r :: r in Joined(cs, tasks, projects, f) <==>
      exists c :: c in cs && Hit(c, tasks, projects, f) && r == RowOf(c, tasks, projects)
  {
    if cs != [] {
      JoinedRows(cs[1..], tasks, projects, f);
      forall r | r in Joined(cs, tasks, projects, f)
        ensures exists c :: c in cs && Hit(c, tasks, projects, f) && r == RowOf(c, tasks, projects)
      {
        if r !in Joined(cs[1..], tasks, projects, f) {
          assert Hit(cs[0], tasks, projects, f) && r == RowOf(cs[0], tasks, projects);
        }
      }
    }
  }

  /**
   * The search result holds exactly the rows of the contacts that join and
   * pass every supplied filter, each once per contact, sorted by name.
   */
  lemma SearchRows(projects: map<nat, Project>, tasks: map<nat, Task>, contacts: map<nat, Contact>, bound: nat, f: ContactFilter)
    requires ContactKeys(contacts, bound)
    ensures forall r :: r in Search(projects, tasks, contacts, bound, f) <==>
      exists c :: c in contacts.Values && Hit(c, tasks, projects, f) && r == RowOf(c, tasks, projects)
    ensures SortedBy(Search(projects, tasks, contacts, bound, f), ByRowName)
  {
    var all := ById(contacts, bound);
    JoinedRows(all, tasks, projects, f);
    SameElements(Search(projects, tasks, contacts, bound, f), Joined(all, tasks, projects, f));
    forall c ensures c in all <==> c in contacts.Values {
      if c in contacts.Values {
        var k :| k in contacts && contacts[k] == c;
      }
    }
  }

  /** Without a truthy filter every contact is selected: the result lists all of them. */
  lemma NoFiltersSelectAll(
    projects: map<nat, Project>, tasks: map<nat, Task>, contacts: map<nat, Contact>,
    np: nat, nt: nat, nc: nat, f: ContactFilter, c: Contact)
    requires Consistent(projects, tasks, contacts, np, nt, nc)
    requires !Truthy(f.name) && !Truthy(f.email) && !Truthy(f.position) && !Truthy(f.project) && !Truthy(f.customer)
    requires c in contacts.Values
    ensures c.taskId in tasks && tasks[c.taskId].projectId in projects
    ensures RowOf(c, tasks, projects) in Search(projects, tasks, contacts, nc, f)
  {
    SearchRows(projects, tasks, contacts, nc, f);
  }

  /** A truthy filter restricts: each row of the result contains the query in its field. */
  lemma FiltersRestrict(projects: map<nat, Project>, tasks: map<nat, Task>, contacts: map<nat, Contact>, bound: nat, f: ContactFilter, r: ContactRow)
    requires ContactKeys(contacts, bound)
    requires r in Search(projects, tasks, contacts, bound, f)
    ensures Truthy(f.name) ==> Contains(r.name, f.name.value)
    ensures Truthy(f.email) ==> Contains(r.email, f.email.value)
    ensures Truthy(f.position) ==> r.position.Some? && Contains(r.position.value, f.position.value)
    ensures Truthy(f.customer) ==> r.customer.Some? && Contains(r.customer.value, f.customer.value)
    ensures Truthy(f.project) ==> Contains(r.project, f.project.value)
  {
    SearchRows(projects, tasks, contacts, bound, f);
  }

  // ------------------------------------------------------------------ store

  class Store {
    var projects: map<nat, Project>
    var tasks: map<nat, Task>
    var contacts: map<nat, Contact>
    var nextProject: nat
    var nextTask: nat
    var nextContact: nat

    predicate Valid()
      reads this
    {
      Consistent(projects, tasks, contacts, nextProject, nextTask, nextContact)
    }

    /** Empty tables; auto-increment ids start at 1. */
    constructor ()
      ensures Valid()
      ensures projects == map[] && tasks == map[] && contacts == map[]
    {
      projects, tasks, contacts := map[], map[], map[];
      nextProject, nextTask, nextContact := 1, 1, 1;
    }

    /** `POST /api/projects`. */
    method CreateProject(name: Option<string>, now: nat) returns (r: Reply<Project>)
      requires Valid()
      modifies this
      ensures Valid()
      ensures !Given(name) ==> r == BadRequest(Required(NameRequired)) && unchanged(this)
      ensures Given(name) && (|Trim(name.value)| > ProjectNameMax || NameTaken(old(projects), Trim(name.value), None)) ==>
        r == BadRequest(Rejected) && unchanged(this)
      ensures Given(name) && |Trim(name.value)| <= ProjectNameMax && !NameTaken(old(projects), Trim(name.value), None) ==>
        && r == Json(Project(old(nextProject), Trim(name.value), now))
        && projects == old(projects)[old(nextProject) := r.body]
        && nextProject == old(nextProject) + 1
        && tasks == old(tasks) && contacts == old(contacts)
        && nextTask == old(nextTask) && nextContact == old(nextContact)
    {
      if !Given(name) {
        return BadRequest(Required(NameRequired));
      }
      var n := Trim(name.value);
      if |n| > ProjectNameMax || NameTaken(projects, n, None) {
        return BadRequest(Rejected);
      }
      var p := Project(nextProject, n, now);
      projects := projects[p.id := p];
      nextProject := nextProject + 1;
      r := Json(p);
    }

    /** `PUT /api/projects/:id`: the lookup comes before the validation. */
    method RenameProject(id: nat, name: Option<string>) returns (r: Reply<Project>)
      requires Valid()
      modifies this
      ensures Valid()
      ensures id !in old(projects) ==> r == NotFound && unchanged(this)
      ensures id in old(projects) && !Given(name) ==> r == BadRequest(Required(NameRequired)) && unchanged(this)
      ensures id in old(projects) && Given(name) && (|Trim(name.value)| > ProjectNameMax || NameTaken(old(projects), Trim(name.value), Some(id))) ==>
        r == BadRequest(Rejected) && unchanged(this)
      ensures id in old(projects) && Given(name) && |Trim(name.value)| <= ProjectNameMax && !NameTaken(old(projects), Trim(name.value), Some(id)) ==>
        && r == Json(old(projects)[id].(name := Trim(name.value)))
        && projects == old(projects)[id := r.body]
        && tasks == old(tasks) && contacts == old(contacts)
        && nextProject == old(nextProject) && nextTask == old(nextTask) && nextContact == old(nextContact)
    {
      if id !in projects {
        return NotFound;
      }
      if !Given(name) {
        return BadRequest(Required(NameRequired));
      }
      var n := Trim(name.value);
      if |n| > ProjectNameMax || NameTaken(projects, n, Some(id)) {
        return BadRequest(Rejected);
      }
      var p := projects[id].(name := n);
      projects := projects[id := p];
      r := Json(p);
    }

    /** `DELETE /api/projects/:id`, with the cascade to tasks and their contacts. */
    method DeleteProject(id: nat) returns (r: Reply<Project>)
      requires Valid()
      modifies this
      ensures Valid()
      ensures id !in old(projects) ==> r == NotFound && unchanged(this)
      ensures id in old(projects) ==>
        && r == NoContent
        && projects == old(projects) - {id}
        && tasks == TasksWithoutProject(old(tasks), id)
        && contacts == ContactsOfTasks(old(contacts), tasks)
        && nextProject == old(nextProject) && nextTask == old(nextTask) && nextContact == old(nextContact)
    {
      if id !in projects {
        return NotFound;
      }
      DeleteProjectKeepsConsistent(projects, tasks, contacts, nextProject, nextTask, nextContact, id);
      projects := projects - {id};
      tasks := TasksWithoutProject(tasks, id);
      contacts := ContactsOfTasks(contacts, tasks);
      r := NoContent;
    }

    /** `POST /api/projects/:pid/tasks`. */
    method CreateTask(pid: nat, body: TaskBody) returns (r: Reply<Task>)
      requires Valid()
      modifies this
      ensures Valid()
      ensures !(Truthy(body.name) && Truthy(body.startedAt)) ==>
        r == BadRequest(Required(NameAndStartRequired)) && unchanged(this)
      ensures Truthy(body.name) && Truthy(body.startedAt) && !(pid in old(projects) && TaskFits(NewTask(old(nextTask), pid, body))) ==>
        r == Unhandled && unchanged(this)
      ensures Truthy(body.name) && Truthy(body.startedAt) && pid in old(projects) && TaskFits(NewTask(old(nextTask), pid, body)) ==>
        && r == Json(NewTask(old(nextTask), pid, body))
        && tasks == old(tasks)[old(nextTask) := r.body]
        && nextTask == old(nextTask) + 1
        && projects == old(projects) && contacts == old(contacts)
        && nextProject == old(nextProject) && nextContact == old(nextContact)
    {
      if !(Truthy(body.name) && Truthy(body.startedAt)) {
        return BadRequest(Required(NameAndStartRequired));
      }
      var t := NewTask(nextTask, pid, body);
      if !(pid in projects && TaskFits(t)) {
        return Unhandled;
      }
      tasks := tasks[t.id := t];
      nextTask := nextTask + 1;
      r := Json(t);
    }

    /** `PUT /api/tasks/:id`: the body is applied as it is; only the database checks it. */
    method UpdateTask(id: nat, patch: TaskPatch) returns (r: Reply<Task>)
      requires Valid()
      modifies this
      ensures Valid()
      ensures id !in old(tasks) ==> r == NotFound && unchanged(this)
      ensures id in old(tasks) && !(ApplyPatch(old(tasks)[id], patch).Some?
                                   && ApplyPatch(old(tasks)[id], patch).value.projectId in old(projects)
                                   && TaskFits(ApplyPatch(old(tasks)[id], patch).value)) ==>
        r == Unhandled && unchanged(this)
      ensures id in old(tasks) && ApplyPatch(old(tasks)[id], patch).Some?
              && ApplyPatch(old(tasks)[id], patch).value.projectId in old(projects)
              && TaskFits(ApplyPatch(old(tasks)[id], patch).value) ==>
        && r == Json(ApplyPatch(old(tasks)[id], patch).value)
        && tasks == old(tasks)[id := r.body]
        && projects == old(projects) && contacts == old(contacts)
        && nextProject == old(nextProject) && nextTask == old(nextTask) && nextContact == old(nextContact)
    {
      if id !in tasks {
        return NotFound;
      }
      var t := ApplyPatch(tasks[id], patch);
      if !(t.Some? && t.value.projectId in projects && TaskFits(t.value)) {
        return Unhandled;
      }
      tasks := tasks[id := t.value];
      r := Json(t.value);
    }

    /** `DELETE /api/tasks/:id`, with the cascade to the task's contacts. */
    method DeleteTask(id: nat) returns (r: Reply<Task>)
      requires Valid()
      modifies this
      ensures Valid()
      ensures id !in old(tasks) ==> r == NotFound && unchanged(this)
      ensures id in old(tasks) ==>
        && r == NoContent
        && tasks == old(tasks) - {id}
        && contacts == ContactsOfTasks(old(contacts), tasks)
        && projects == old(projects)
        && nextProject == old(nextProject) && nextTask == old(nextTask) && nextContact == old(nextContact)
    {
      if id !in tasks {
        return NotFound;
      }
      DeleteTaskKeepsConsistent(projects, tasks, contacts, nextProject, nextTask, nextContact, id);
      tasks := tasks - {id};
      contacts := ContactsOfTasks(contacts, tasks);
      r := NoContent;
    }

    /** `POST /api/tasks/:tid/contacts`. */
    method CreateContact(tid: nat, body: ContactBody) returns (r: Reply<Contact>)
      requires Valid()
      modifies this
      ensures Valid()
      ensures !(Given(body.name) && Given(body.email)) ==> r == BadRequest(Required(NameAndEmailRequired)) && unchanged(this)
      ensures Given(body.name) && Given(body.email) && !(tid in old(tasks) && ContactFits(NewContact(old(nextContact), tid, body))) ==>
        r == Unhandled && unchanged(this)
      ensures Given(body.name) && Given(body.email) && tid in old(tasks) && ContactFits(NewContact(old(nextContact), tid, body)) ==>
        && r == Json(NewContact(old(nextContact), tid, body))
        && contacts == old(contacts)[old(nextContact) := r.body]
        && nextContact == old(nextContact) + 1
        && projects == old(projects) && tasks == old(tasks)
        && nextProject == old(nextProject) && nextTask == old(nextTask)
    {
      if !(Given(body.name) && Given(body.email)) {
        return BadRequest(Required(NameAndEmailRequired));
      }
      var c := NewContact(nextContact, tid, body);
      if !(tid in tasks && ContactFits(c)) {
        return Unhandled;
      }
      InsertContactKeepsConsistent(projects, tasks, contacts, nextProject, nextTask, nextContact, c);
      contacts := contacts[c.id := c];
      nextContact := nextContact + 1;
      r := Json(c);
    }

    /** `PUT /api/contacts/:cid`: the lookup comes before the validation; the task stays. */
    method UpdateContact(cid: nat, body: ContactBody) returns (r: Reply<Contact>)
      requires Valid()
      modifies this
      ensures Valid()
      ensures cid !in old(contacts) ==> r == NotFound && unchanged(this)
      ensures cid in old(contacts) && !(Given(body.name) && Given(body.email)) ==>
        r == BadRequest(Required(NameAndEmailRequired)) && unchanged(this)
      ensures cid in old(contacts) && Given(body.name) && Given(body.email) && !ContactFits(Edited(old(contacts)[cid], body)) ==>
        r == Unhandled && unchanged(this)
      ensures cid in old(contacts) && Given(body.name) && Given(body.email) && ContactFits(Edited(old(contacts)[cid], body)) ==>
        && r == Json(Edited(old(contacts)[cid], body))
        && contacts == old(contacts)[cid := r.body]
        && projects == old(projects) && tasks == old(tasks)
        && nextProject == old(nextProject) && nextTask == old(nextTask) && nextContact == old(nextContact)
    {
      if cid !in contacts {
        return NotFound;
      }
      if !(Given(body.name) && Given(body.email)) {
        return BadRequest(Required(NameAndEmailRequired));
      }
      var c := Edited(contacts[cid], body);
      if !ContactFits(c) {
        return Unhandled;
      }
      ReplaceContactKeepsConsistent(projects, tasks, contacts, nextProject, nextTask, nextContact, c);
      contacts := contacts[cid := c];
      r := Json(c);
    }

    /** `DELETE /api/contacts/:cid`. */
    method DeleteContact(cid: nat) returns (r: Reply<Contact>)
      requires Valid()
      modifies this
      ensures Valid()
      ensures cid !in old(contacts) ==> r == NotFound && unchanged(this)
      ensures cid in old(contacts) ==>
        && r == NoContent
        && contacts == old(contacts) - {cid}
        && projects == old(projects) && tasks == old(tasks)
        && nextProject == old(nextProject) && nextTask == old(nextTask) && nextContact == old(nextContact)
    {
      if cid !in contacts {
        return NotFound;
      }
      contacts := contacts - {cid};
      r := NoContent;
    }
  }
}
