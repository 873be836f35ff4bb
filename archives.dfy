/**
 * The three ZIP export routes of src/server/src/index.js: which entries
 * go into the archive, in which order, under which names, and when the
 * answer is a 404 instead. An archive is modelled as its file name and its
 * list of entries; an entry is a name in the archive and its source, a file
 * of the upload directory or a text. The file system is a parameter: the set
 * of names that exist in the upload directory and, for the global archive,
 * the directory listing. The task and project queries read the tables of
 * `ProjectSchema`.
 */
module Archives {
  import opened Wrappers
  import opened Text
  import opened Sequences
  import opened Js
  import Csv
  import opened References
  import opened ProjectSchema

  /**
   * Where an entry's bytes come from: a file of the upload directory, a
   * text, or the `csv(rows, headers)` of a table.
   */
  datatype Source = Upload(file: string) | Text(content: string) | Table(rows: seq<seq<string>>, headers: seq<string>)

  datatype Entry = Entry(name: string, source: Source)

  datatype Archive = NotFound(error: string) | Zip(fileName: string, entries: seq<Entry>)

  /** One entry of `readdirSync(uploadDir, { withFileTypes: true })`. */
  datatype DirEntry = DirEntry(name: string, isFile: bool)

  const TaskNotFound: string := "Task not found"
  const NoTaskAssets: string := "No assets for this task"
  const ProjectEmpty: string := "Project not found or empty"
  const NoProjectAssets: string := "No assets for this project"
  const NoAssets: string := "No assets found"

  const ContactHeaders: seq<string> := ["email", "name", "position"]
  const GlobalHeaders: seq<string> := ["email", "name", "position", "customer", "project"]

  // ------------------------------------------------------------- entries

  /** `appendImage(zip, f)`: the file under its own name, if it exists. */
  function ImageEntry(f: string, existing: set<string>): (es: seq<Entry>)
  {
    if f in existing then [Entry(f, Upload(f))] else []
  }

  /** `names.forEach((f) => appendImage(zip, f))`. */
  function ImageEntries(names: seq<string>, existing: set<string>): (es: seq<Entry>)
  {
    if names == [] then []
    else ImageEntries(names[..|names| - 1], existing) + ImageEntry(names[|names| - 1], existing)
  }

  /** A row of a task's `contacts.csv`: `[c.email, c.name, c.position || ""]`. */
  function ContactCells(c: Contact): seq<string> {
    [c.email, c.name, OrEmpty(c.position)]
  }

  function ContactRows(cs: seq<Contact>): (rows: seq<seq<string>>)
    ensures |rows| == |cs|
    ensures forall i :: 0 <= i < |cs| ==> rows[i] == ContactCells(cs[i])
  {
    if cs == [] then [] else [ContactCells(cs[0])] + ContactRows(cs[1..])
  }

  /** The text a text or table source writes into the archive. */
  function Content(src: Source): string
    requires !src.Upload?
  {
    match src
    case Text(content) => content
    case Table(rows, headers) => Csv.Encode(rows, headers)
  }

  /** A task's `contacts.csv`: the header, then one row per contact. */
  function ContactsTable(cs: seq<Contact>): Source {
    Table(ContactRows(cs), ContactHeaders)
  }

  function ContactsCsv(cs: seq<Contact>): string {
    Content(ContactsTable(cs))
  }

  /** The `notes.md` entry, if the notes are truthy. */
  function NotesEntry(name: string, notes: Option<string>): (es: seq<Entry>)
  {
    if Truthy(notes) then [Entry(name, Text(notes.value))] else []
  }

  /** The `contacts.csv` entry, if there are contacts. */
  function ContactsEntry(name: string, cs: seq<Contact>): (es: seq<Entry>)
  {
    if cs != [] then [Entry(name, ContactsTable(cs))] else []
  }

  // ------------------------------------------------------- the task archive

  /** The entries of a task's archive: its images, its notes, its contacts. */
  function TaskEntries(t: Task, contacts: seq<Contact>, existing: set<string>): seq<Entry> {
    ImageEntries(Refs(t.notes), existing) + NotesEntry("notes.md", t.notes) + ContactsEntry("contacts.csv", contacts)
  }

  /** `GET /api/tasks/:tid/images.zip` for the task found (or not) and its contacts. */
  function TaskArchive(task: Option<Task>, contacts: seq<Contact>, existing: set<string>): Archive {
    if task.None? then NotFound(TaskNotFound)
    else
      var t := task.value;
      if |Refs(t.notes)| == 0 && !Truthy(t.notes) && |contacts| == 0 then NotFound(NoTaskAssets)
      else Zip("task-" + NatToString(t.id) + "-assets.zip", TaskEntries(t, contacts, existing))
  }

  /** The route handler, step by step as it builds the archive. */
  method BuildTaskArchive(task: Option<Task>, contacts: seq<Contact>, existing: set<string>) returns (a: Archive)
    ensures a == TaskArchive(task, contacts, existing)
  {
    if task.None? {
      return NotFound(TaskNotFound);
    }
    var t := task.value;
    var imgFiles := UploadsInMarkdown(t.notes);
    if |imgFiles| == 0 && !Truthy(t.notes) && |contacts| == 0 {
      return NotFound(NoTaskAssets);
    }
    var entries := TaskZipEntries(t, imgFiles, contacts, existing);
    a := Zip("task-" + NatToString(t.id) + "-assets.zip", entries);
  }

  /** The appends of the task handler: the images, then `notes.md`, then `contacts.csv`. */
  method TaskZipEntries(t: Task, imgFiles: seq<string>, contacts: seq<Contact>, existing: set<string>) returns (entries: seq<Entry>)
    requires imgFiles == Refs(t.notes)
    ensures entries == TaskEntries(t, contacts, existing)
  {
    entries := AppendImages([], imgFiles, existing);
    assert entries == ImageEntries(imgFiles, existing);
    if Truthy(t.notes) {
      entries := entries + [Entry("notes.md", Text(t.notes.value))];
    }
    if |contacts| > 0 {
      entries := entries + [Entry("contacts.csv", ContactsTable(contacts))];
    }
  }

  /** `names.forEach((f) => appendImage(zip, f))` on an archive holding `entries`. */
  method AppendImages(entries: seq<Entry>, names: seq<string>, existing: set<string>) returns (out: seq<Entry>)
    ensures out == entries + ImageEntries(names, existing)
  {
    out := entries;
    var i := 0;
    while i < |names|
      invariant 0 <= i <= |names|
      invariant out == entries + ImageEntries(names[..i], existing)
    {
      assert names[..i + 1][..i] == names[..i];
      if names[i] in existing {
        out := out + [Entry(names[i], Upload(names[i]))];
      }
      i := i + 1;
    }
    assert names[..i] == names;
  }

  // ---------------------------------------------------- the project archive

  /** A task as the project query loads it, with its contacts (`include: [Contact]`). */
  datatype LoadedTask = LoadedTask(task: Task, contacts: seq<Contact>)

  /** The project's tasks: `where: { projectId: pid }, order: [["id", "ASC"]]`. */
  function ProjectTasks(tasks: map<nat, Task>, bound: nat, pid: nat): (ts: seq<Task>)
    ensures forall t :: t in ts <==> (exists k :: k in tasks && k < bound && tasks[k] == t) && t.projectId == pid
  {
    Filter(ById(tasks, bound), (t: Task) => t.projectId == pid)
  }

  /**
   * `rows` is what `Task.findAll({ where: { projectId: pid }, include:
   * [Contact], order: [["id", "ASC"]] })` returns: the project's tasks in
   * ascending id order, each with exactly its contacts, in an order the query
   * leaves to the database.
   */
  ghost predicate ProjectQuery(rows: seq<LoadedTask>, tasks: map<nat, Task>, nt: nat, contacts: map<nat, Contact>, pid: nat) {
    var ts := ProjectTasks(tasks, nt, pid);
    && |rows| == |ts|
    && (forall i :: 0 <= i < |rows| ==> rows[i].task == ts[i])
    && (forall i, c :: 0 <= i < |rows| ==> (c in rows[i].contacts <==> c in contacts.Values && c.taskId == rows[i].task.id))
  }

  /** The task's folder in the project archive. */
  function Folder(t: Task): string {
    "task-" + NatToString(t.id)
  }

  /** The per-task entries: `task-<id>/notes.md`, then `task-<id>/contacts.csv`. */
  function FolderEntries(r: LoadedTask): seq<Entry> {
    NotesEntry(Folder(r.task) + "/notes.md", r.task.notes) + ContactsEntry(Folder(r.task) + "/contacts.csv", r.contacts)
  }

  function AllFolders(rows: seq<LoadedTask>): seq<Entry> {
    if rows == [] then [] else AllFolders(rows[..|rows| - 1]) + FolderEntries(rows[|rows| - 1])
  }

  /** The references of the tasks' notes, task after task, each task's set in its own order. */
  function RefsOfTasks(rows: seq<LoadedTask>): seq<string> {
    if rows == [] then [] else RefsOfTasks(rows[..|rows| - 1]) + Refs(rows[|rows| - 1].task.notes)
  }

  /** `allImages`: the union of the tasks' references, in first-seen order. */
  function AllImages(rows: seq<LoadedTask>): seq<string> {
    Dedup(RefsOfTasks(rows))
  }

  /** The task has truthy notes or at least one contact: its folder is not empty. */
  predicate HasFolder(r: LoadedTask) {
    Truthy(r.task.notes) || r.contacts != []
  }

  /** `hasAnything` after the pass over the tasks. */
  predicate AnyFolder(rows: seq<LoadedTask>) {
    rows != [] && (AnyFolder(rows[..|rows| - 1]) || HasFolder(rows[|rows| - 1]))
  }

  /** `hasAnything` after the handler has run. */
  predicate HasAnything(rows: seq<LoadedTask>) {
    AnyFolder(rows) || AllImages(rows) != []
  }

  /** `GET /api/projects/:pid/images.zip`, given what the query loaded. */
  function ProjectArchive(rows: seq<LoadedTask>, pid: nat, existing: set<string>): Archive {
    if rows == [] then NotFound(ProjectEmpty)
    else if !HasAnything(rows) then NotFound(NoProjectAssets)
    else Zip("project-" + NatToString(pid) + "-assets.zip", AllFolders(rows) + ImageEntries(AllImages(rows), existing))
  }

  /** The route handler once the query has run. */
  method BuildProjectArchive(rows: seq<LoadedTask>, pid: nat, existing: set<string>) returns (a: Archive)
    ensures a == ProjectArchive(rows, pid, existing)
  {
    if |rows| == 0 {
      return NotFound(ProjectEmpty);
    }
    var hasAnything, entries := ProjectEntries(rows, existing);
    if !hasAnything {
      return NotFound(NoProjectAssets);
    }
    a := Zip("project-" + NatToString(pid) + "-assets.zip", entries);
  }

  /** One pass over the tasks, then one over the collected images. */
  method ProjectEntries(rows: seq<LoadedTask>, existing: set<string>) returns (hasAnything: bool, entries: seq<Entry>)
    ensures hasAnything == HasAnything(rows)
    ensures entries == AllFolders(rows) + ImageEntries(AllImages(rows), existing)
  {
    hasAnything := false;
    entries := [];
    var allImages: seq<string> := [];
    var i := 0;
    while i < |rows|
      invariant 0 <= i <= |rows|
      invariant entries == AllFolders(rows[..i])
      invariant allImages == AllImages(rows[..i])
      invariant hasAnything == AnyFolder(rows[..i])
    {
      FolderStep(rows, i);
      entries, allImages, hasAnything := VisitTask(rows, i, entries, allImages, hasAnything);
      i := i + 1;
    }
    assert rows[..i] == rows;
    hasAnything, entries := AppendAllImages(hasAnything, entries, allImages, existing);
  }

  /** The body of the pass for the task `rows[i]`: its folder, its references, the flag. */
  method VisitTask(rows: seq<LoadedTask>, i: nat, entries: seq<Entry>, allImages: seq<string>, hasAnything: bool)
    returns (entries': seq<Entry>, allImages': seq<string>, hasAnything': bool)
    requires i < |rows|
    requires allImages == AllImages(rows[..i])
    ensures entries' == entries + FolderEntries(rows[i])
    ensures allImages' == Dedup(RefsOfTasks(rows[..i]) + Refs(rows[i].task.notes))
    ensures hasAnything' == (hasAnything || HasFolder(rows[i]))
  {
    var has;
    entries', has := AppendFolder(entries, rows[i]);
    hasAnything' := hasAnything || has;
    var refs := UploadsInMarkdown(rows[i].task.notes);
    allImages' := AddAll(allImages, RefsOfTasks(rows[..i]), refs);
  }

  /** `allImages.forEach((f) => { hasAnything = true; appendImage(zip, f); })`. */
  method AppendAllImages(hasAnything: bool, entries: seq<Entry>, allImages: seq<string>, existing: set<string>)
    returns (has: bool, out: seq<Entry>)
    ensures has == (hasAnything || allImages != [])
    ensures out == entries + ImageEntries(allImages, existing)
  {
    has := hasAnything;
    out := entries;
    var k := 0;
    while k < |allImages|
      invariant 0 <= k <= |allImages|
      invariant has == (hasAnything || k > 0)
      invariant out == entries + ImageEntries(allImages[..k], existing)
    {
      has := true;
      assert allImages[..k + 1][..k] == allImages[..k];
      if allImages[k] in existing {
        out := out + [Entry(allImages[k], Upload(allImages[k]))];
      }
      k := k + 1;
    }
    assert allImages[..k] == allImages;
  }

  /** One task of the pass: its `notes.md`, then its `contacts.csv`, under `task-<id>/`. */
  method AppendFolder(entries: seq<Entry>, r: LoadedTask) returns (out: seq<Entry>, has: bool)
    ensures out == entries + FolderEntries(r)
    ensures has == HasFolder(r)
  {
    var t := r.task;
    var pref := Folder(t);
    out := entries;
    has := false;
    if Truthy(t.notes) {
      has := true;
      out := out + [Entry(pref + "/notes.md", Text(t.notes.value))];
    }
    if |r.contacts| > 0 {
      has := true;
      out := out + [Entry(pref + "/contacts.csv", ContactsTable(r.contacts))];
    }
  }

  /** `refs.forEach((f) => allImages.add(f))`, where `allImages` holds the distinct names of `seen`. */
  method AddAll(allImages: seq<string>, seen: seq<string>, refs: seq<string>) returns (out: seq<string>)
    requires allImages == Dedup(seen)
    ensures out == Dedup(seen + refs)
  {
    out := allImages;
    var j := 0;
    assert seen + refs[..0] == seen;
    while j < |refs|
      invariant 0 <= j <= |refs|
      invariant out == Dedup(seen + refs[..j])
    {
      AddAllStep(seen, refs, j);
      out := AddNew(out, refs[j]);
      j := j + 1;
    }
    assert refs[..j] == refs;
  }

  /** The invariant of `AddAll` survives one more reference. */
  lemma AddAllStep(seen: seq<string>, refs: seq<string>, j: nat)
    requires j < |refs|
    ensures Dedup(seen + refs[..j + 1]) == AddNew(Dedup(seen + refs[..j]), refs[j])
  {
    var xs := seen + refs[..j];
    assert refs[..j + 1] == refs[..j] + [refs[j]];
    assert seen + refs[..j + 1] == xs + [refs[j]];
    DedupSnoc(xs, refs[j]);
  }

  /** The loop invariants of the task pass survive one task. */
  lemma FolderStep(rows: seq<LoadedTask>, i: nat)
    requires i < |rows|
    ensures AllFolders(rows[..i + 1]) == AllFolders(rows[..i]) + FolderEntries(rows[i])
    ensures AllImages(rows[..i + 1]) == Dedup(RefsOfTasks(rows[..i]) + Refs(rows[i].task.notes))
    ensures AnyFolder(rows[..i + 1]) == (AnyFolder(rows[..i]) || HasFolder(rows[i]))
  {
    assert rows[..i + 1][..i] == rows[..i];
  }

  // ----------------------------------------------------- the global archive

  /** `.filter((d) => d.isFile()).map((d) => d.name)`. */
  function FileNames(listing: seq<DirEntry>): (names: seq<string>)
    ensures forall n :: n in names <==> DirEntry(n, true) in listing
  {
    if listing == [] then []
    else
      var rest := FileNames(listing[..|listing| - 1]);
      var d := listing[|listing| - 1];
      assert listing == listing[..|listing| - 1] + [d];
      rest + (if d.isFile then [d.name] else [])
  }

  /** A row of the global `contacts.csv`; `c.task?.customer || ""`, `c.task?.project?.name || ""`. */
  function GlobalCells(c: Contact, tasks: map<nat, Task>, projects: map<nat, Project>): seq<string> {
    var customer := if c.taskId in tasks then OrEmpty(tasks[c.taskId].customer) else "";
    var project := if c.taskId in tasks && tasks[c.taskId].projectId in projects then projects[tasks[c.taskId].projectId].name else "";
    [c.email, c.name, OrEmpty(c.position), customer, project]
  }

  function GlobalRows(cs: seq<Contact>, tasks: map<nat, Task>, projects: map<nat, Project>): (rows: seq<seq<string>>)
    ensures |rows| == |cs|
    ensures forall i :: 0 <= i < |cs| ==> rows[i] == GlobalCells(cs[i], tasks, projects)
  {
    if cs == [] then [] else [GlobalCells(cs[0], tasks, projects)] + GlobalRows(cs[1..], tasks, projects)
  }

  /** The global `contacts.csv`: the header, then one row per contact. */
  function GlobalTable(cs: seq<Contact>, tasks: map<nat, Task>, projects: map<nat, Project>): Source {
    Table(GlobalRows(cs, tasks, projects), GlobalHeaders)
  }

  function GlobalCsv(cs: seq<Contact>, tasks: map<nat, Task>, projects: map<nat, Project>): string {
    Content(GlobalTable(cs, tasks, projects))
  }

  /**
   * `GET /api/images.zip`: every regular file of the upload directory, then
   * one `contacts.csv` of all contacts. `contacts` is the query's result, in
   * the order the database returns it (the query has no `ORDER BY`).
   */
  function GlobalArchive(listing: seq<DirEntry>, contacts: seq<Contact>, tasks: map<nat, Task>, projects: map<nat, Project>, existing: set<string>)
    : Archive
  {
    var files := FileNames(listing);
    if |files| == 0 && |contacts| == 0 then NotFound(NoAssets)
    else
      Zip("all-assets.zip",
        ImageEntries(files, existing)
        + (if contacts != [] then [Entry("contacts.csv", GlobalTable(contacts, tasks, projects))] else []))
  }

  method BuildGlobalArchive(listing: seq<DirEntry>, contacts: seq<Contact>, tasks: map<nat, Task>, projects: map<nat, Project>, existing: set<string>)
    returns (a: Archive)
    ensures a == GlobalArchive(listing, contacts, tasks, projects, existing)
  {
    var imgFiles: seq<string> := [];
    var i := 0;
    while i < |listing|
      invariant 0 <= i <= |listing|
      invariant imgFiles == FileNames(listing[..i])
    {
      assert listing[..i + 1][..i] == listing[..i];
      if listing[i].isFile {
        imgFiles := imgFiles + [listing[i].name];
      }
      i := i + 1;
    }
    assert listing[..i] == listing;
    if |imgFiles| == 0 && |contacts| == 0 {
      return NotFound(NoAssets);
    }
    var entries := AppendImages([], imgFiles, existing);
    assert entries == ImageEntries(imgFiles, existing);
    if |contacts| > 0 {
      entries := entries + [Entry("contacts.csv", GlobalTable(contacts, tasks, projects))];
    }
    a := Zip("all-assets.zip", entries);
  }

  // ------------------------------------------------------------------ lemmas

  /** An image entry is an existing file of `names`, under its own name. */
  lemma {:induction false} ImageEntriesMembers(names: seq<string>, existing: set<string>, e: Entry)
    ensures e in ImageEntries(names, existing) <==> e == Entry(e.name, Upload(e.name)) && e.name in names && e.name in existing
    decreases |names|
  {
    if names != [] {
      var init := names[..|names| - 1];
      ImageEntriesMembers(init, existing, e);
      assert names == init + [names[|names| - 1]];
    }
  }

  /** Distinct names give distinct entries: no file is added twice. */
  lemma {:induction false} ImageEntriesNoDup(names: seq<string>, existing: set<string>)
    requires NoDup(names)
    ensures NoDup(ImageEntries(names, existing))
    decreases |names|
  {
    if names != [] {
      var init := names[..|names| - 1];
      var last := names[|names| - 1];
      assert NoDup(init) by {
        forall i, j | 0 <= i < j < |init| ensures init[i] != init[j] {
          assert init[i] == names[i] && init[j] == names[j];
        }
      }
      ImageEntriesNoDup(init, existing);
      assert last !in init by {
        forall i | 0 <= i < |init| ensures init[i] != last {
          assert init[i] == names[i];
        }
      }
      if last in existing {
        ImageEntriesMembers(init, existing, Entry(last, Upload(last)));
      }
    }
  }

  /** A task's `contacts.csv` reads back as the header line and one row per contact. */
  lemma ContactsCsvRoundTrip(cs: seq<Contact>)
    ensures Csv.Parse(ContactsCsv(cs)) == Some([ContactHeaders] + ContactRows(cs))
  {
    Csv.EncodeRoundTrip(ContactRows(cs), ContactHeaders);
  }

  /** The global `contacts.csv` reads back as the header line and one row per contact. */
  lemma GlobalCsvRoundTrip(cs: seq<Contact>, tasks: map<nat, Task>, projects: map<nat, Project>)
    ensures Csv.Parse(GlobalCsv(cs, tasks, projects)) == Some([GlobalHeaders] + GlobalRows(cs, tasks, projects))
  {
    Csv.EncodeRoundTrip(GlobalRows(cs, tasks, projects), GlobalHeaders);
  }

  // --------------------------------------------------- task archive lemmas

  /**
   * The task route answers 404 exactly when the task is missing, or when it has
   * neither notes nor contacts (notes that reference an upload are never empty).
   */
  lemma TaskArchiveNotFound(task: Option<Task>, contacts: seq<Contact>, existing: set<string>)
    ensures TaskArchive(task, contacts, existing).NotFound?
        <==> task.None? || (!Truthy(task.value.notes) && contacts == [])
    ensures TaskArchive(task, contacts, existing).NotFound?
        ==> TaskArchive(task, contacts, existing).error == (if task.None? then TaskNotFound else NoTaskAssets)
  {
    if task.Some? && Refs(task.value.notes) != [] {
      RefsImplyText(task.value.notes);
    }
  }

  /**
   * A task archive is named after the task and holds exactly: each referenced
   * upload that exists, under its own name; `notes.md` when the notes are
   * truthy; `contacts.csv` when the task has contacts.
   */
  lemma TaskArchiveEntries(task: Task, contacts: seq<Contact>, existing: set<string>, e: Entry)
    requires TaskArchive(Some(task), contacts, existing).Zip?
    ensures TaskArchive(Some(task), contacts, existing).fileName == "task-" + NatToString(task.id) + "-assets.zip"
    ensures e in TaskArchive(Some(task), contacts, existing).entries <==>
      || (e == Entry(e.name, Upload(e.name)) && e.name in Refs(task.notes) && e.name in existing)
      || (Truthy(task.notes) && e == Entry("notes.md", Text(task.notes.value)))
      || (contacts != [] && e == Entry("contacts.csv", ContactsTable(contacts)))
  {
    ImageEntriesMembers(Refs(task.notes), existing, e);
  }

  /** A task archive that is sent is never empty, even when no referenced file exists. */
  lemma TaskArchiveNotEmpty(task: Option<Task>, contacts: seq<Contact>, existing: set<string>)
    requires TaskArchive(task, contacts, existing).Zip?
    ensures TaskArchive(task, contacts, existing).entries != []
  {
    if Refs(task.value.notes) != [] {
      RefsImplyText(task.value.notes);
    }
  }

  // ------------------------------------------------ project archive lemmas

  /** The query hands the tasks over by ascending id; it finds none exactly when the project has no task. */
  lemma ProjectQueryOrder(rows: seq<LoadedTask>, tasks: map<nat, Task>, nt: nat, contacts: map<nat, Contact>, pid: nat)
    requires ProjectQuery(rows, tasks, nt, contacts, pid)
    requires TaskKeys(tasks, nt)
    ensures forall i, j :: 0 <= i < j < |rows| ==> rows[i].task.id < rows[j].task.id
    ensures rows == [] <==> forall k :: k in tasks ==> tasks[k].projectId != pid
  {
    var byId := (a: Task, b: Task) => a.id < b.id;
    ByIdAscending(tasks, nt, (t: Task) => t.id);
    FilterKeepsSorted(ById(tasks, nt), (t: Task) => t.projectId == pid, byId);
    var ts := ProjectTasks(tasks, nt, pid);
    forall i, j | 0 <= i < j < |rows| ensures rows[i].task.id < rows[j].task.id {
      assert byId(ts[i], ts[j]);
    }
    if rows != [] {
      assert ts[0] in ts;
    }
  }

  lemma {:induction false} AnyFolderIff(rows: seq<LoadedTask>)
    ensures AnyFolder(rows) <==> exists i :: 0 <= i < |rows| && HasFolder(rows[i])
    ensures !AnyFolder(rows) <==> AllFolders(rows) == []
    decreases |rows|
  {
    if rows != [] {
      var init := rows[..|rows| - 1];
      AnyFolderIff(init);
      if exists i :: 0 <= i < |init| && HasFolder(init[i]) {
        var i :| 0 <= i < |init| && HasFolder(init[i]);
        assert rows[i] == init[i];
      }
      if exists i :: 0 <= i < |rows| && HasFolder(rows[i]) {
        var i :| 0 <= i < |rows| && HasFolder(rows[i]);
        if i < |init| {
          assert init[i] == rows[i];
        }
      }
    }
  }

  lemma {:induction false} RefsOfTasksMembers(rows: seq<LoadedTask>, f: string)
    ensures f in RefsOfTasks(rows) <==> exists r :: r in rows && f in Refs(r.task.notes)
    decreases |rows|
  {
    if rows != [] {
      var init := rows[..|rows| - 1];
      var last := rows[|rows| - 1];
      RefsOfTasksMembers(init, f);
      assert RefsOfTasks(rows) == RefsOfTasks(init) + Refs(last.task.notes);
      if f in RefsOfTasks(rows) {
        if f in Refs(last.task.notes) {
          assert last in rows;
        } else {
          var r :| r in init && f in Refs(r.task.notes);
          assert r in rows;
        }
      }
      if exists r :: r in rows && f in Refs(r.task.notes) {
        var r :| r in rows && f in Refs(r.task.notes);
        var i :| 0 <= i < |rows| && rows[i] == r;
        if i < |init| {
          assert init[i] == r;
        }
      }
    }
  }

  /** Referenced uploads only come from notes, and notes give their task a folder. */
  lemma ImagesNeedAFolder(rows: seq<LoadedTask>)
    requires AllImages(rows) != []
    ensures AnyFolder(rows)
  {
    var f := AllImages(rows)[0];
    RefsOfTasksMembers(rows, f);
    var r :| r in rows && f in Refs(r.task.notes);
    RefsImplyText(r.task.notes);
    var i :| 0 <= i < |rows| && rows[i] == r;
    AnyFolderIff(rows);
  }

  /**
   * The project route answers 404 exactly when the project has no task, or when
   * none of its tasks has truthy notes or a contact.
   */
  lemma ProjectArchiveNotFound(rows: seq<LoadedTask>, pid: nat, existing: set<string>)
    ensures ProjectArchive(rows, pid, existing).NotFound?
        <==> forall i :: 0 <= i < |rows| ==> !Truthy(rows[i].task.notes) && rows[i].contacts == []
    ensures ProjectArchive(rows, pid, existing).NotFound?
        ==> ProjectArchive(rows, pid, existing).error == (if rows == [] then ProjectEmpty else NoProjectAssets)
  {
    AnyFolderIff(rows);
    if AllImages(rows) != [] {
      ImagesNeedAFolder(rows);
    }
  }

  /**
   * `hasAnything` is false exactly when the archive the handler has already
   * started streaming holds no entry: the late 404 follows an empty archive.
   */
  lemma ProjectNothingMeansEmptyArchive(rows: seq<LoadedTask>, existing: set<string>)
    ensures !HasAnything(rows) <==> AllFolders(rows) + ImageEntries(AllImages(rows), existing) == []
  {
    AnyFolderIff(rows);
    if AllImages(rows) != [] {
      ImagesNeedAFolder(rows);
    }
  }

  lemma {:induction false} AllFoldersMembers(rows: seq<LoadedTask>, e: Entry)
    ensures e in AllFolders(rows) <==> exists r :: r in rows && e in FolderEntries(r)
    decreases |rows|
  {
    if rows != [] {
      var init := rows[..|rows| - 1];
      var last := rows[|rows| - 1];
      AllFoldersMembers(init, e);
      assert AllFolders(rows) == AllFolders(init) + FolderEntries(last);
      if e in AllFolders(rows) {
        if e in FolderEntries(last) {
          assert last in rows;
        } else {
          var r :| r in init && e in FolderEntries(r);
          assert r in rows;
        }
      }
      if exists r :: r in rows && e in FolderEntries(r) {
        var r :| r in rows && e in FolderEntries(r);
        var i :| 0 <= i < |rows| && rows[i] == r;
        if i < |init| {
          assert init[i] == r;
        }
      }
    }
  }

  /** The entry `e` sits in the folder of the loaded task `r`. */
  predicate InFolder(e: Entry, r: LoadedTask) {
    || (Truthy(r.task.notes) && e == Entry(Folder(r.task) + "/notes.md", Text(r.task.notes.value)))
    || (r.contacts != [] && e == Entry(Folder(r.task) + "/contacts.csv", ContactsTable(r.contacts)))
  }

  /**
   * A project archive is named after the project id and holds exactly: each
   * task's `task-<id>/notes.md` and `task-<id>/contacts.csv` when there is
   * something to put in them, and, at the root, each upload referenced by
   * some task's notes that exists, once.
   */
  lemma ProjectArchiveEntries(rows: seq<LoadedTask>, pid: nat, existing: set<string>, e: Entry)
    requires ProjectArchive(rows, pid, existing).Zip?
    ensures ProjectArchive(rows, pid, existing).fileName == "project-" + NatToString(pid) + "-assets.zip"
    ensures e in ProjectArchive(rows, pid, existing).entries <==>
      || (exists r :: r in rows && InFolder(e, r))
      || (e == Entry(e.name, Upload(e.name)) && e.name in existing && exists r :: r in rows && e.name in Refs(r.task.notes))
  {
    AllFoldersMembers(rows, e);
    ImageEntriesMembers(AllImages(rows), existing, e);
    RefsOfTasksMembers(rows, e.name);
    forall r | r in rows ensures e in FolderEntries(r) <==> InFolder(e, r) {
      FolderEntriesMembers(r, e);
    }
  }

  lemma FolderEntriesMembers(r: LoadedTask, e: Entry)
    ensures e in FolderEntries(r) <==> InFolder(e, r)
  {
  }

  /** Each upload appears once in a project archive, however many tasks reference it. */
  lemma ProjectImagesOnce(rows: seq<LoadedTask>, existing: set<string>)
    ensures NoDup(ImageEntries(AllImages(rows), existing))
  {
    ImageEntriesNoDup(AllImages(rows), existing);
  }

  // ------------------------------------------------- global archive lemmas

  /** The global route answers 404 exactly when the upload directory holds no regular file and there is no contact. */
  lemma GlobalArchiveNotFound(listing: seq<DirEntry>, contacts: seq<Contact>, tasks: map<nat, Task>, projects: map<nat, Project>, existing: set<string>)
    ensures GlobalArchive(listing, contacts, tasks, projects, existing).NotFound?
        <==> (forall d :: d in listing ==> !d.isFile) && contacts == []
  {
    var files := FileNames(listing);
    if files != [] {
      assert files[0] in files;
    }
    forall d | d in listing && d.isFile ensures files != [] {
      assert d == DirEntry(d.name, true);
      assert d.name in files;
    }
  }

  /**
   * The global archive holds exactly every regular file of the listing that
   * exists, under its own name, and `contacts.csv` when there are contacts.
   */
  lemma GlobalArchiveEntries(listing: seq<DirEntry>, contacts: seq<Contact>, tasks: map<nat, Task>, projects: map<nat, Project>, existing: set<string>, e: Entry)
    requires GlobalArchive(listing, contacts, tasks, projects, existing).Zip?
    ensures GlobalArchive(listing, contacts, tasks, projects, existing).fileName == "all-assets.zip"
    ensures e in GlobalArchive(listing, contacts, tasks, projects, existing).entries <==>
      || (e == Entry(e.name, Upload(e.name)) && DirEntry(e.name, true) in listing && e.name in existing)
      || (contacts != [] && e == Entry("contacts.csv", GlobalTable(contacts, tasks, projects)))
  {
    var a := GlobalArchive(listing, contacts, tasks, projects, existing);
    var csv := if contacts != [] then [Entry("contacts.csv", GlobalTable(contacts, tasks, projects))] else [];
    assert a.entries == ImageEntries(FileNames(listing), existing) + csv;
    ImageEntriesMembers(FileNames(listing), existing, e);
  }
}
