/**
 * The project tables (src/server/src/modules/project/model.js): projects,
 * their tasks and the tasks' contacts, with the column constraints the
 * database enforces (NOT NULL, the `STRING(n)` lengths, the unique project
 * name, the two foreign keys) and the two `ON DELETE CASCADE` relations.
 * Ids are the auto-increment keys; a table is a map from id to row.
 */
module ProjectSchema {
  import opened Wrappers

  const ProjectNameMax: nat := 128
  const TaskNameMax: nat := 256
  const CustomerMax: nat := 128
  const ContactFieldMax: nat := 128

  /** A project row; `createdAt` is the Sequelize timestamp (ms), the basis of the listing order. */
  datatype Project = Project(id: nat, name: string, createdAt: nat)

  /**
   * A task row. Dates are kept as the strings the client sends; the table
   * has no `tracked` column.
   */
  datatype Task = Task(
    id: nat,
    projectId: nat,
    name: string,
    customer: Option<string>,
    startedAt: string,
    finishedAt: Option<string>,
    notes: Option<string>)

  /** A contact row. */
  datatype Contact = Contact(id: nat, taskId: nat, name: string, email: string, position: Option<string>)

  /** A value fits a `STRING(max)` column, NULL included. */
  predicate FitsIn(v: Option<string>, max: nat) {
    v.None? || |v.value| <= max
  }

  predicate ProjectFits(p: Project) {
    |p.name| <= ProjectNameMax
  }

  predicate TaskFits(t: Task) {
    |t.name| <= TaskNameMax && FitsIn(t.customer, CustomerMax)
  }

  predicate ContactFits(c: Contact) {
    |c.name| <= ContactFieldMax && |c.email| <= ContactFieldMax && FitsIn(c.position, ContactFieldMax)
  }

  // ------------------------------------------------------ table invariants

  /** Every row sits under its own id, below the next id the table will hand out. */
  predicate ProjectKeys(projects: map<nat, Project>, next: nat) {
    forall k :: k in projects ==> projects[k].id == k && k < next
  }

  predicate TaskKeys(tasks: map<nat, Task>, next: nat) {
    forall k :: k in tasks ==> tasks[k].id == k && k < next
  }

  predicate ContactKeys(contacts: map<nat, Contact>, next: nat) {
    forall k :: k in contacts ==> contacts[k].id == k && k < next
  }

  /** `unique: true` on the project name. */
  predicate UniqueNames(projects: map<nat, Project>) {
    forall a, b :: a in projects && b in projects && projects[a].name == projects[b].name ==> a == b
  }

  /** The foreign key `projectId`: no task refers to a missing project. */
  predicate TasksHaveProjects(tasks: map<nat, Task>, projects: map<nat, Project>) {
    forall k :: k in tasks ==> tasks[k].projectId in projects
  }

  /** The foreign key `taskId`: no contact refers to a missing task. */
  predicate ContactsHaveTasks(contacts: map<nat, Contact>, tasks: map<nat, Task>) {
    forall k :: k in contacts ==> contacts[k].taskId in tasks
  }

  predicate AllFit(projects: map<nat, Project>, tasks: map<nat, Task>, contacts: map<nat, Contact>) {
    && (forall k :: k in projects ==> ProjectFits(projects[k]))
    && (forall k :: k in tasks ==> TaskFits(tasks[k]))
    && (forall k :: k in contacts ==> ContactFits(contacts[k]))
  }

  /** Every constraint the schema declares. */
  predicate Consistent(
    projects: map<nat, Project>, tasks: map<nat, Task>, contacts: map<nat, Contact>,
    nextProject: nat, nextTask: nat, nextContact: nat)
  {
    && ProjectKeys(projects, nextProject)
    && TaskKeys(tasks, nextTask)
    && ContactKeys(contacts, nextContact)
    && UniqueNames(projects)
    && TasksHaveProjects(tasks, projects)
    && ContactsHaveTasks(contacts, tasks)
    && AllFit(projects, tasks, contacts)
  }

  /** Inserting a fitting contact of an existing task under the next id keeps every constraint. */
  lemma InsertContactKeepsConsistent(
    projects: map<nat, Project>, tasks: map<nat, Task>, contacts: map<nat, Contact>,
    np: nat, nt: nat, nc: nat, c: Contact)
    requires Consistent(projects, tasks, contacts, np, nt, nc)
    requires c.id == nc && c.taskId in tasks && ContactFits(c)
    ensures Consistent(projects, tasks, contacts[c.id := c], np, nt, nc + 1)
  {
  }

  /** Replacing a contact by a fitting one of an existing task keeps every constraint. */
  lemma ReplaceContactKeepsConsistent(
    projects: map<nat, Project>, tasks: map<nat, Task>, contacts: map<nat, Contact>,
    np: nat, nt: nat, nc: nat, c: Contact)
    requires Consistent(projects, tasks, contacts, np, nt, nc)
    requires c.id in contacts && c.taskId in tasks && ContactFits(c)
    ensures Consistent(projects, tasks, contacts[c.id := c], np, nt, nc)
  {
  }

  // --------------------------------------------------------------- cascades

  /** `Project.hasMany(Task, { onDelete: "CASCADE" })`: the tasks left after deleting project `pid`. */
  function TasksWithoutProject(tasks: map<nat, Task>, pid: nat): (r: map<nat, Task>)
    ensures forall k :: k in r <==> k in tasks && tasks[k].projectId != pid
    ensures forall k :: k in r ==> r[k] == tasks[k]
  {
    map k | k in tasks && tasks[k].projectId != pid :: tasks[k]
  }

  /** `Task.hasMany(Contact, { onDelete: "CASCADE" })`: the contacts whose task is still there. */
  function ContactsOfTasks(contacts: map<nat, Contact>, tasks: map<nat, Task>): (r: map<nat, Contact>)
    ensures forall k :: k in r <==> k in contacts && contacts[k].taskId in tasks
    ensures forall k :: k in r ==> r[k] == contacts[k]
  {
    map k | k in contacts && contacts[k].taskId in tasks :: contacts[k]
  }

  /**
   * Deleting a project with both cascades keeps every constraint: no task
   * is left without its project and no contact without its task.
   */
  lemma DeleteProjectKeepsConsistent(
    projects: map<nat, Project>, tasks: map<nat, Task>, contacts: map<nat, Contact>,
    np: nat, nt: nat, nc: nat, pid: nat)
    requires Consistent(projects, tasks, contacts, np, nt, nc)
    ensures
      var ts := TasksWithoutProject(tasks, pid);
      Consistent(projects - {pid}, ts, ContactsOfTasks(contacts, ts), np, nt, nc)
  {
  }

  /** Deleting a task with its cascade keeps every constraint. */
  lemma DeleteTaskKeepsConsistent(
    projects: map<nat, Project>, tasks: map<nat, Task>, contacts: map<nat, Contact>,
    np: nat, nt: nat, nc: nat, tid: nat)
    requires Consistent(projects, tasks, contacts, np, nt, nc)
    ensures Consistent(projects, tasks - {tid}, ContactsOfTasks(contacts, tasks - {tid}), np, nt, nc)
  {
  }

  /** The cascade removes exactly the dependants: a contact survives iff its task does. */
  lemma {:induction false} CascadeRemovesExactlyDependants(
    projects: map<nat, Project>, tasks: map<nat, Task>, contacts: map<nat, Contact>,
    np: nat, nt: nat, nc: nat, pid: nat, k: nat)
    requires Consistent(projects, tasks, contacts, np, nt, nc)
    requires k in contacts
    ensures k in ContactsOfTasks(contacts, TasksWithoutProject(tasks, pid))
        <==> tasks[contacts[k].taskId].projectId != pid
  {
  }
}
