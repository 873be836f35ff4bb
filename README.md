# Project-Tracker, modelled in Dafny

Project-Tracker is a small web application. Its server (Express over
Sequelize/MariaDB) stores three kinds of rows, each task belonging to a
project:

- **projects**;
- **tasks**, which hold Markdown notes and screenshots uploaded into the
  notes;
- **contacts** of each task.

The server also keeps a separate **work log** and a **single configuration
row**. It exports assets as ZIP archives at three scopes: one task, one
project, or everything. The React client edits these rows through forms and
tables and caches the configuration.

This project models the logic of that system:

- **Asset export (`src/server/src/index.js`):**
  - the `/uploads/<name>` reference scan over notes;
  - the quoted CSV encoder;
  - the upload naming rule and MIME filter;
  - the entry lists of the task, project and global archives, with their 404
    decisions.
- **Project store:** the project, task and contact routes and schema, as a
  class over maps. Validation, trimming, orderings, the cascading deletes and
  the global contact search are all modelled.
- **Work log:** the work-item routes and schema, as a second store.
- **Configuration:** the server's singleton row, with get-or-create and the
  field-by-field PUT, plus the client's configuration cache.
- **`buildDbUrl`:** connection-string composition, with `encodeURIComponent`.
- **Client helpers:**
  - `nameFromEmail` and the contact add form;
  - the contacts page filter, guards and task cache;
  - the work form;
  - the dashboard's customer suggestions and export link;
  - the edit forms and previews of the task and work tables.

What happens outside the program is passed in as a parameter:

- the clock;
- the files that exist in the upload directory, and its listing;
- the result of a `fetch`, and the server's answer to a client API call;
- the browser's dark-mode preference;
- `toLocaleString`.

Strings are `seq<char>`. Character classes (`\s`, letters, case mapping) are
ASCII. JavaScript `Number()` is modelled on decimal digit strings, after
trimming (see "Left out").

Modules follow the source files:

| module | source |
|---|---|
| `Wrappers`, `Text`, `Sequences`, `Js` | `Option`; ASCII trim, case and substring; first-occurrence dedup, filter, stable sort; JavaScript values, `Number()` and truthiness |
| `References`, `Csv`, `Uploads`, `Archives` | `src/server/src/index.js` |
| `ProjectSchema`, `ProjectStore` | `src/server/src/modules/project/model.js`, `routes.js` |
| `WorkSchema`, `WorkStore` | `src/server/src/modules/work/model.js`, `routes.js` |
| `ConfigSchema`, `ConfigStore` | `src/server/src/modules/config/model.js`, `routes.js` |
| `ClientConfig` | `src/client/src/config.js` |
| `ProjectApi` | `src/client/src/modules/project/api.js`: which methods the client's API object holds |
| `DbUrl` | `src/server/src/db.js` |
| `ClientText` | the dash placeholder, the 60-character preview and `trim() \|\| null`, which several components share |
| `ContactList`, `ContactsPage`, `WorkForm`, `Dashboard`, `TaskTable`, `WorkTable` | the client components of the same names |

## Model

| member | source | states |
|---|---|---|
| Text.Trim | src/server/src/modules/project/routes.js:14 | `trim()`: the result is the input without its leading and trailing white space; it neither starts nor ends with white space |
| Text.TrimIdempotent | src/server/src/modules/project/routes.js:14-16 | trimming a trimmed string changes nothing |
| Text.BlankIffAllSpace | src/server/src/modules/project/routes.js:14 | `!s.trim()` holds exactly when every character of `s` is white space |
| Text.ContainsIff | src/client/src/modules/contacts/Contacts.jsx:6 | `includes` holds exactly when the needle occurs at some position |
| Text.NatToStringRoundTrip | src/server/src/index.js:134 | the decimal rendering of an id reads back as that id |
| Text.NatToStringInjective | src/server/src/index.js:134 | distinct ids render distinctly, so archive and folder names do not collide |
| Sequences.Dedup | src/client/src/modules/work/components/WorkForm.jsx:5 | `[...new Set(xs)]` holds exactly the elements of `xs`, without duplicates |
| Sequences.DedupFirstOccurrenceOrder | src/client/src/modules/work/components/WorkForm.jsx:5 | the distinct elements come in the order of their first occurrence |
| Sequences.FilterIsSubsequence | src/client/src/modules/contacts/Contacts.jsx:44 | `filter` keeps an order-preserving subsequence |
| Sequences.SortBySorted | src/server/src/modules/project/routes.js:8-10 | `ORDER BY` gives a sorted permutation of the rows |
| Sequences.ByIdAscending | src/server/src/modules/project/routes.js:99 | enumerating a table by key gives the rows in strictly ascending id order |
| Js.StringToNumber | src/client/src/modules/work/components/WorkForm.jsx:26 | `Number(s)`: a blank string is 0; a string whose ASCII-trimmed text is all digits is that non-negative integer; anything else is NaN, and NaN only then |
| Js.ToNumber | src/server/src/modules/work/routes.js:25 | `Number(v)`: undefined is NaN, null is 0, a number is itself |
| Js.NumberOfRenderedNat | src/client/src/modules/project/pages/Dashboard.jsx:10 | `Number` of a rendered id is that id |
| References.UploadsInMarkdown | src/server/src/index.js:65-71 | the `exec` loop returns exactly `Refs(notes)`: the captures of the regular-expression scan, each kept once in first-seen order |
| References.MatchesFromScan | src/server/src/index.js:67-69 | the captures of the `exec` loop are the names at the positions the search stops at, where each match resumes the search at its end and a miss moves it on by one |
| References.MatchesFromShift | src/server/src/index.js:67-69 | text placed before the searched part does not change what the search finds in it |
| References.ScanDisjoint | src/server/src/index.js:67-69 | successive matches never overlap |
| References.ScanComplete | src/server/src/index.js:67-69 | every match position is found, or lies inside a match found earlier |
| References.RefsSound | src/server/src/index.js:65-71 | every returned name is non-empty, free of `)` and white space, and is the whole capture of a match: it stands right after `/uploads/` and is followed by the end of the notes or by `)` or white space |
| References.RefsComplete | src/server/src/index.js:65-71 | every match not inside an earlier one is returned; the result has no duplicates |
| References.ClosedReferenceRefs | src/server/src/index.js:65-71 | a reference after any slash-free text and closed by `)` is found alone, inside or outside image Markdown |
| References.MatchesOfReference | src/server/src/index.js:67-69 | the reference's name, followed by whatever the rest of the text yields |
| References.EmptyOrNullNotesHaveNoRefs | src/server/src/index.js:65 | null or empty notes yield nothing |
| References.RefsImplyText | src/server/src/index.js:110-111 | notes that yield a name are non-null and longer than `/uploads/` |
| References.DotDotPassesThrough | src/server/src/index.js:67 | names are not sanitised: `/uploads/../etc/passwd` yields `../etc/passwd` |
| Csv.Esc | src/server/src/index.js:75 | an escaped cell opens and closes with a double quote |
| Csv.EscCell | src/server/src/index.js:75 | an undefined cell is written `""` |
| Csv.CellRoundTrip | src/server/src/index.js:75 | reading an escaped cell gives back the value, doubled quotes undone |
| Csv.UnquoteRoundTrip | src/server/src/index.js:75 | the quoted body of a value reads back as the value, leaving the text after it alone |
| Csv.LineRoundTrip | src/server/src/index.js:76 | a line of cells joined by `,` reads back as the cells |
| Csv.LinesRoundTrip | src/server/src/index.js:76 | lines joined by `\n` read back as the records |
| Csv.EncodeRoundTrip | src/server/src/index.js:74-77 | reading `csv(rows, headers)` gives the header line followed by every row |
| Csv.EncodeEndsWithQuote | src/server/src/index.js:76 | the text ends with the last cell's closing quote, so there is no trailing newline |
| Uploads.Extname | src/server/src/index.js:45 | `path.extname`: empty, or a dot followed by no slash and no further dot |
| Uploads.LastComponentIsSuffix | src/server/src/index.js:45 | the component `path.extname` looks at is the end of the path, after its last slash |
| Uploads.UploadExt | src/server/src/index.js:45 | an empty original name gives no extension (`path.extname(".png")` is empty) |
| Uploads.ExtnameOfName | src/server/src/index.js:45 | a name keeps the extension that starts at its last, non-leading dot |
| Uploads.DotFileHasNoExtension | src/server/src/index.js:45 | `path.extname(".png")` is empty |
| Uploads.LeadingDotNoExtension | src/server/src/index.js:45 | a slash-free name whose only dot leads it has no extension |
| Uploads.EmptyNameStoredWithoutExtension | src/server/src/index.js:44-47 | a file with an empty original name is stored as `shot-<ms>` |
| Uploads.PostOutcomes | src/server/src/index.js:49-60 | no file gives `file required`; a non-image type is refused with `Only image uploads allowed`; an image is stored |
| Uploads.PostUrl | src/server/src/index.js:44-47 | the reply URL is `/uploads/` plus the stored name, which starts with `shot-<ms>` |
| Uploads.StoredNameIsRefName | src/server/src/index.js:46 | a stored name is one the reference scan captures whole, when its extension has no `)` or white space |
| Uploads.UploadedImageIsReferenced | src/server/src/index.js:46-69 | Markdown embedding an upload's URL yields exactly the stored name |
| Archives.ImageEntriesMembers | src/server/src/index.js:96-100 | the image entries are exactly the listed names whose file exists, under their bare names |
| Archives.ImageEntriesNoDup | src/server/src/index.js:96-100 | distinct names give distinct image entries |
| Archives.AppendImages | src/server/src/index.js:116 | the `forEach` loop appends the image entries of the names, in order |
| Archives.ContactRows | src/server/src/index.js:124-128 | one row of email, name and position per contact; a null position becomes empty |
| Archives.ContactsCsvRoundTrip | src/server/src/index.js:124-132 | `contacts.csv` reads back as the header and the contact rows |
| Archives.TaskZipEntries | src/server/src/index.js:114-133 | the streamed entries are the images, then `notes.md`, then `contacts.csv` |
| Archives.BuildTaskArchive | src/server/src/index.js:103-134 | the handler produces the task archive function's answer |
| Archives.TaskArchiveNotFound | src/server/src/index.js:105-112 | 404 exactly when the task is missing, or it has neither notes nor contacts; the error text tells which |
| Archives.TaskArchiveEntries | src/server/src/index.js:110-134 | named `task-<id>-assets.zip`; exactly the existing referenced images, `notes.md` iff notes are truthy, `contacts.csv` iff there are contacts |
| Archives.TaskArchiveNotEmpty | src/server/src/index.js:110-133 | an archive that is sent is never empty |
| Archives.ProjectTasks | src/server/src/index.js:144-148 | the query's tasks are exactly the project's tasks |
| Archives.ProjectQueryOrder | src/server/src/index.js:144-150 | the loaded tasks come in ascending id order; none are loaded exactly when the project has no task |
| Archives.AppendFolder | src/server/src/index.js:157-178 | one task's pass appends `task-<id>/notes.md` and `task-<id>/contacts.csv` when present, and reports whether it appended |
| Archives.FolderStep | src/server/src/index.js:157-182 | the folders, references and flag after one more task extend those before it |
| Archives.VisitTask | src/server/src/index.js:157-182 | one task of the pass appends its folder, extends `allImages` by its references in first-seen order, and raises the flag iff the folder is not empty |
| Archives.AddAllStep | src/server/src/index.js:181 | adding one more reference to the first-seen union is the union of the longer list |
| Archives.AddAll | src/server/src/index.js:181 | adding a task's references to `allImages` keeps it the first-seen union |
| Archives.AppendAllImages | src/server/src/index.js:184-187 | the second loop appends the image entries and sets the flag iff there is an image |
| Archives.ProjectEntries | src/server/src/index.js:152-187 | the streamed entries are the folders in task order, then the deduplicated images; the flag is `HasAnything` |
| Archives.BuildProjectArchive | src/server/src/index.js:142-191 | the handler produces the project archive function's answer |
| Archives.AnyFolderIff | src/server/src/index.js:152-178 | the flag after the task loop is set iff some task has truthy notes or a contact, iff some folder entry was written |
| Archives.RefsOfTasksMembers | src/server/src/index.js:181 | a name is among the collected references iff some task's notes yield it |
| Archives.ImagesNeedAFolder | src/server/src/index.js:181-187 | a reference implies notes, so images alone never set the flag |
| Archives.ProjectArchiveNotFound | src/server/src/index.js:149-191 | 404 exactly when no task has truthy notes or a contact; the error text tells an empty project apart |
| Archives.ProjectNothingMeansEmptyArchive | src/server/src/index.js:152-191 | the flag is unset exactly when the archive already streamed holds no entry |
| Archives.AllFoldersMembers | src/server/src/index.js:157-178 | an entry is in the folders iff it is in some task's folder |
| Archives.FolderEntriesMembers | src/server/src/index.js:158-177 | a task's folder holds its `notes.md` iff notes are truthy and its `contacts.csv` iff it has contacts |
| Archives.ProjectArchiveEntries | src/server/src/index.js:154-188 | named `project-<pid>-assets.zip`; exactly the task folders and, flat at the root, each existing image some task references |
| Archives.ProjectImagesOnce | src/server/src/index.js:155-187 | an image referenced by several tasks is added once |
| Archives.FileNames | src/server/src/index.js:201-204 | the names are exactly those of the regular files in the listing |
| Archives.GlobalRows | src/server/src/index.js:222-228 | one row per contact: email, name, position, customer, project, with missing values empty |
| Archives.GlobalCsvRoundTrip | src/server/src/index.js:222-232 | the global `contacts.csv` reads back as the header and the rows |
| Archives.BuildGlobalArchive | src/server/src/index.js:199-234 | the handler produces the global archive function's answer |
| Archives.GlobalArchiveNotFound | src/server/src/index.js:215-216 | 404 exactly when the directory has no regular file and there is no contact |
| Archives.GlobalArchiveEntries | src/server/src/index.js:218-234 | named `all-assets.zip`; exactly every existing regular file, referenced or not, and `contacts.csv` iff there are contacts |
| ProjectSchema.TasksWithoutProject | src/server/src/modules/project/model.js:42 | the cascade keeps exactly the tasks of other projects, unchanged |
| ProjectSchema.ContactsOfTasks | src/server/src/modules/project/model.js:45 | the cascade keeps exactly the contacts whose task remains, unchanged |
| ProjectSchema.InsertContactKeepsConsistent | src/server/src/modules/project/model.js:29-46 | a fitting contact of an existing task, under the next id, keeps every constraint |
| ProjectSchema.ReplaceContactKeepsConsistent | src/server/src/modules/project/model.js:29-46 | replacing a contact by a fitting one keeps every constraint |
| ProjectSchema.DeleteProjectKeepsConsistent | src/server/src/modules/project/model.js:42-46 | deleting a project with both cascades leaves no dangling task or contact |
| ProjectSchema.DeleteTaskKeepsConsistent | src/server/src/modules/project/model.js:45-46 | deleting a task with its cascade leaves no dangling contact |
| ProjectSchema.CascadeRemovesExactlyDependants | src/server/src/modules/project/model.js:42-46 | after a project delete, a contact survives iff its task belonged to another project |
| ProjectStore.TrimmedOrNull | src/server/src/modules/project/routes.js:114 | `position?.trim() \|\| null`: null iff missing or blank, else the non-empty trim |
| ProjectStore.ApplyPatch | src/server/src/modules/project/routes.js:81-85 | each field present in the body (project id, name, customer, start, end, notes, time spent) replaces the task's and each absent one stays; a null name or start is refused by NOT NULL |
| ProjectStore.NewContact | src/server/src/modules/project/routes.js:110-115 | a created contact has its task id, a non-empty name and e-mail, and a non-empty position or null |
| ProjectStore.NewContactTrimmed | src/server/src/modules/project/routes.js:112-114 | the stored name, e-mail and position are trimmed |
| ProjectStore.Edited | src/server/src/modules/project/routes.js:128-132 | an edit keeps id and task, and applies the same normalisation as create |
| ProjectStore.ProjectListing | src/server/src/modules/project/routes.js:8-10 | exactly the projects, by `createdAt` ascending |
| ProjectStore.TaskListing | src/server/src/modules/project/routes.js:46-53 | exactly the project's tasks, by `startedAt` ascending |
| ProjectStore.ContactListing | src/server/src/modules/project/routes.js:95-102 | exactly the task's contacts |
| ProjectStore.ContactListingSorted | src/server/src/modules/project/routes.js:99 | the task's contacts come by id ascending |
| ProjectStore.Search | src/server/src/modules/project/routes.js:144-172 | the joined rows, sorted by name, as a permutation |
| ProjectStore.JoinedRows | src/server/src/modules/project/routes.js:149-183 | a row is joined iff it flattens a contact whose task and project exist and which passes every filter |
| ProjectStore.SearchRows | src/server/src/modules/project/routes.js:144-185 | the result holds exactly the flattened rows of the contacts passing every supplied filter, sorted by name |
| ProjectStore.NoFiltersSelectAll | src/server/src/modules/project/routes.js:149-166 | with no filter, every contact of a consistent store is returned |
| ProjectStore.FiltersRestrict | src/server/src/modules/project/routes.js:148-166 | each supplied filter holds as a substring of its field; a null field never matches |
| ProjectStore.Store.constructor | src/server/src/modules/project/model.js:5-39 | the tables start empty and consistent |
| ProjectStore.Store.CreateProject | src/server/src/modules/project/routes.js:12-20 | blank name: 400 `name required`; too long or taken: 400; else stores the trimmed name under the next id |
| ProjectStore.Store.RenameProject | src/server/src/modules/project/routes.js:22-35 | unknown id: 404; blank name: 400; too long or taken: 400; else renames to the trimmed name |
| ProjectStore.Store.DeleteProject | src/server/src/modules/project/routes.js:38-43 | unknown id: 404; else 204, and the project, its tasks and their contacts are gone |
| ProjectStore.Store.CreateTask | src/server/src/modules/project/routes.js:55-79 | falsy name or start: 400; a missing project or an overlong field is an unhandled failure; else stores the new task under the next id and replies with it |
| ProjectStore.Store.UpdateTask | src/server/src/modules/project/routes.js:81-85 | unknown id: 404; else the patched row, unless NOT NULL or a length refuses it |
| ProjectStore.Store.DeleteTask | src/server/src/modules/project/routes.js:87-92 | unknown id: 404; else 204, and the task and its contacts are gone |
| ProjectStore.Store.CreateContact | src/server/src/modules/project/routes.js:104-117 | blank name or e-mail: 400; a missing task or an overlong field is an unhandled failure; else stores the normalised contact |
| ProjectStore.Store.UpdateContact | src/server/src/modules/project/routes.js:119-134 | unknown id: 404; blank name or e-mail: 400; else stores the normalised edit |
| ProjectStore.Store.DeleteContact | src/server/src/modules/project/routes.js:136-141 | unknown id: 404; else 204 and the contact is gone |
| ConfigSchema.ThemeOf | src/server/src/modules/config/model.js:9 | a theme exists exactly for `technical` and `jira-like` |
| ConfigSchema.ModeOf | src/server/src/modules/config/model.js:10 | a mode exists exactly for `light`, `dark` and `auto` |
| ConfigSchema.ThemeNamesRoundTrip | src/server/src/modules/config/model.js:9 | every theme's name reads back as that theme |
| ConfigSchema.ModeNamesRoundTrip | src/server/src/modules/config/model.js:10 | every mode's name reads back as that mode |
| ConfigStore.NewTheme | src/server/src/modules/config/routes.js:20 | the stored theme is either the old one or the theme the request names; it changes to a theme exactly when the request value is that theme's name |
| ConfigStore.NewMode | src/server/src/modules/config/routes.js:21 | the stored mode is either the old one or the mode the request names; it changes to a mode exactly when the request value is that mode's name |
| ConfigStore.NewTitle | src/server/src/modules/config/routes.js:22-24 | the title becomes the trimmed value iff it is a string with a non-empty trim, else stays; a new title is non-empty and already trimmed, so a non-blank title never becomes blank |
| ConfigStore.ConfigTable.Row | src/server/src/modules/config/routes.js:7-11 | returns row 1, creating it with the defaults when absent; afterwards it exists |
| ConfigStore.ConfigTable.Get | src/server/src/modules/config/routes.js:14 | GET returns row 1, created with the defaults when absent |
| ConfigStore.ConfigTable.Put | src/server/src/modules/config/routes.js:16-27 | the row becomes the field-by-field update of the current row and is the reply; a title over 128 characters fails after the row was created |
| ConfigStore.FieldsIndependent | src/server/src/modules/config/routes.js:19-25 | each field's outcome depends only on its own old value and request value |
| ConfigStore.EnumFieldsIff | src/server/src/modules/config/routes.js:20-21 | a changed theme or mode was requested by name; a valid requested name is always taken |
| ConfigStore.TitleNeverEmpty | src/server/src/modules/config/routes.js:22-24 | a PUT never empties a non-empty title |
| ConfigStore.TitleNeverBlank | src/server/src/modules/config/routes.js:22-24 | a PUT never makes a non-blank title blank |
| ConfigStore.PutIdempotent | src/server/src/modules/config/routes.js:16-27 | applying the same PUT twice equals applying it once |
| ConfigStore.PutOwnValues | src/server/src/modules/config/routes.js:16-27 | putting back a row's own values changes nothing |
| ClientConfig.Cache.constructor | src/client/src/config.js:6-12 | the cache starts as the defaults |
| ClientConfig.Cache.InitConfig | src/client/src/config.js:15-22 | the cache becomes the defaults overridden by the server's row, or the defaults alone |
| ClientConfig.Cache.EffectiveMode | src/client/src/config.js:32-40 | never `auto`; a stored `auto` gives `dark` iff the system prefers dark |
| ClientConfig.Cache.SaveConfig | src/client/src/config.js:46-52 | the cache becomes the old cache with the partial's keys overriding, and that object is sent |
| ClientConfig.InitFailureGivesDefaults | src/client/src/config.js:15-22 | a failed or thrown fetch leaves exactly the defaults (`technical`, `auto`) |
| ClientConfig.InitOverrides | src/client/src/config.js:18 | a key the server sends wins; any other key keeps its default |
| ClientConfig.SaveMerges | src/client/src/config.js:47 | a key in the partial takes its value; any other key is unchanged |
| ClientConfig.ModeNeverAuto | src/client/src/config.js:32-40 | the resolved mode is never `auto` |
| ClientConfig.ModeResolution | src/client/src/config.js:32-40 | stored `auto` follows the system; another stored mode is kept; a missing mode gives the fallback |
| ClientConfig.DefaultsRead | src/client/src/config.js:6-43 | the defaults read as theme `technical`, stored mode `auto`, and the system's mode |
| ClientConfig.ReadsAfterInit | src/client/src/config.js:6-43 | after `initConfig`, the theme and stored mode read the server's strings, the defaults when the fetch failed or the key was absent, and the fallback theme only when the server sent null or undefined |
| ClientConfig.SavedChoiceReachesServer | src/client/src/config.js:46-52 | a saved theme and mode are the ones the server's PUT stores |
| WorkStore.NewWork | src/server/src/modules/work/routes.js:20-27 | a created item has the next id and the current time as both timestamps, a non-empty partner and task, and never 0 minutes |
| WorkStore.NewWorkTrimmed | src/server/src/modules/work/routes.js:21-24 | partner and task are stored trimmed; description and ticket id are trimmed, or null when blank |
| WorkStore.MinutesCoercion | src/server/src/modules/work/routes.js:25 | 0, undefined, null and non-numeric text are stored as null; any other integer is kept |
| WorkStore.ApplyWorkPatch | src/server/src/modules/work/routes.js:32-36 | the body's fields replace the item's and absent ones stay; `updatedAt` moves; a null partner or task is refused |
| WorkStore.WorkListing | src/server/src/modules/work/routes.js:7-9 | exactly the stored items |
| WorkStore.WorkListingSorted | src/server/src/modules/work/routes.js:8 | listed by `createdAt` ascending |
| WorkStore.WorkListingExact | src/server/src/modules/work/routes.js:7-9 | in a consistent table, the list holds every item, once |
| WorkStore.CreatedIsListed | src/server/src/modules/work/routes.js:7-29 | a created item appears in the list |
| WorkStore.DeletedIsNotListed | src/server/src/modules/work/routes.js:39-44 | a deleted item leaves the list and every other stays |
| WorkStore.WorkTable.Create | src/server/src/modules/work/routes.js:12-29 | blank partner or task: 400 `partner & task required`; an overlong field is an unhandled failure; else stores the normalised item under the next id |
| WorkStore.WorkTable.Update | src/server/src/modules/work/routes.js:32-36 | unknown id: 404; else the patched item, unless NOT NULL or a length refuses it |
| WorkStore.WorkTable.Delete | src/server/src/modules/work/routes.js:39-44 | unknown id: 404; else 204 and the item is gone |
| DbUrl.FullUrlWins | src/server/src/db.js:8 | a truthy `DATABASE_URL` is returned verbatim, whatever the other variables are |
| DbUrl.MissingPartsFail | src/server/src/db.js:19-23 | without it, the build fails iff host or name is falsy, with the exact error text |
| DbUrl.Defaults | src/server/src/db.js:11-17 | unset user, password and port become `root`, the empty password and 3306: the URL is `mariadb://` + `root:@` + `host:3306/name` |
| DbUrl.ComposedUrlReadsBack | src/server/src/db.js:25-27 | the URL is `mariadb://` then the encoded user, `:`, the encoded password, `@`, and host, port and name verbatim, and it splits back into these |
| DbUrl.EncodeRoundTrip | src/server/src/db.js:25-26 | undoing the percent-encoding of `encodeURIComponent(s)` gives the UTF-8 bytes of `s` |
| DbUrl.UnreservedUnchanged | src/server/src/db.js:25-26 | `encodeURIComponent` leaves text of unreserved characters as it is |
| DbUrl.PercentBytesRoundTrip | src/server/src/db.js:25-26 | percent-encoded bytes decode back to the bytes |
| DbUrl.HexDigitRoundTrip | src/server/src/db.js:25-26 | each upper-case hex digit reads back as its value |
| DbUrl.EncodedHasNoDelimiters | src/server/src/db.js:25-27 | an encoded part has no `:`, `@` or `/` |
| DbUrl.SplitUserInfoOf | src/server/src/db.js:27 | the user information splits at the first `:` and the first `@` |
| ClientText.TrimOrNull | src/client/src/modules/project/components/TaskTable.jsx:25 | `s.trim() \|\| null`: null exactly when the text is blank; a kept value is non-empty and neither starts nor ends with white space |
| ClientText.TrimOrNullStable | src/client/src/modules/project/components/TaskTable.jsx:25 | the kept value is already trimmed, and normalising it again changes nothing |
| ClientText.Slice | src/client/src/modules/project/components/TaskTable.jsx:11-12 | `slice(0, n)`: the prefix of length `min(n, length)` |
| ClientText.PreviewShape | src/client/src/modules/project/components/TaskTable.jsx:61 | dash when empty or null; the whole text up to 60 characters; else its first 60 characters and `…` |
| ClientText.NumberOrDash | src/client/src/modules/work/components/WorkTable.jsx:51 | `n ?? "—"`: the dash iff null, else the number's text |
| ContactList.LocalPart | src/client/src/modules/project/components/ContactList.jsx:6-7 | the prefix before the first `@`, or the whole text |
| ContactList.Words | src/client/src/modules/project/components/ContactList.jsx:8-9 | the pieces are non-empty runs of ASCII letters |
| ContactList.WordsEmptyIff | src/client/src/modules/project/components/ContactList.jsx:8-9 | no pieces exactly when the text has no letter |
| ContactList.WordsOfJoin | src/client/src/modules/project/components/ContactList.jsx:8-11 | splitting words joined by spaces gives back the words |
| ContactList.JoinShaped | src/client/src/modules/project/components/ContactList.jsx:11 | joined words are letters with single interior spaces, starting and ending with a letter |
| ContactList.CapitalizeShape | src/client/src/modules/project/components/ContactList.jsx:10 | a word becomes upper-case first and lower-case rest, the same word up to case |
| ContactList.CapitalizeAllIdempotent | src/client/src/modules/project/components/ContactList.jsx:10 | capitalising twice equals once |
| ContactList.LocalPartOnly | src/client/src/modules/project/components/ContactList.jsx:6-7 | the domain does not affect the name |
| ContactList.NameFromEmailShape | src/client/src/modules/project/components/ContactList.jsx:5-11 | the name's words are the local part's words, capitalised; only letters and single interior spaces |
| ContactList.NameFromEmailEmpty | src/client/src/modules/project/components/ContactList.jsx:5-11 | the name is empty iff the local part has no letter; in particular for an empty e-mail |
| ContactList.NameFromEmailIdempotent | src/client/src/modules/project/components/ContactList.jsx:5-11 | applying it to its own output changes nothing |
| ContactList.FinalNameTrimmed | src/client/src/modules/project/components/ContactList.jsx:30-31 | the final name is trimmed; it is the typed name unless that was blank and the e-mail yields a name |
| ContactList.BlurIdempotent | src/client/src/modules/project/components/ContactList.jsx:106-110 | blurring twice equals once: a filled name is never overwritten |
| ContactList.ContactForm.constructor | src/client/src/modules/project/components/ContactList.jsx:19-20 | the form starts empty with no error |
| ContactList.ContactForm.Add | src/client/src/modules/project/components/ContactList.jsx:28-44 | against an API object that has `insertContact`: sends the payload for the typed fields; on success the form is reset, on failure it is kept and the error set |
| ContactList.ContactForm.AddAsWritten | src/client/src/modules/project/components/ContactList.jsx:33-43 | against the object `api.js` exports: no request goes out, and the fields and error stay as they were |
| ContactList.ContactForm.AfterInsert | src/client/src/modules/project/components/ContactList.jsx:39-43 | a resolved insert empties the three fields and keeps the error; a rejected one keeps the fields and shows the message; a call that threw changes nothing |
| ContactList.ContactForm.Blur | src/client/src/modules/project/components/ContactList.jsx:106-110 | the name becomes the final name; the other fields stay |
| ContactsPage.LowerUpper | src/client/src/modules/contacts/Contacts.jsx:6 | lower-casing forgets a prior upper- or lower-casing |
| ContactsPage.IncIff | src/client/src/modules/contacts/Contacts.jsx:6 | `inc(a, b)` iff lower-case `b` occurs in lower-case `a`; insensitive to the case of either; the empty needle always matches |
| ContactsPage.ActiveKeysIff | src/client/src/modules/contacts/Contacts.jsx:42 | a key is active iff its query text is not blank |
| ContactsPage.FilteredNoCriteria | src/client/src/modules/contacts/Contacts.jsx:42-43 | with every query blank the rows are returned as they are |
| ContactsPage.FilteredRows | src/client/src/modules/contacts/Contacts.jsx:41-45 | a row is kept iff every active key's field contains its untrimmed query, ignoring case; the result is an order-preserving subsequence |
| ContactsPage.CreateRequest | src/client/src/modules/contacts/Contacts.jsx:48-52 | a request is made iff the task is chosen and name and e-mail are not blank; it then passes the server's guard |
| ContactsPage.SaveRequest | src/client/src/modules/contacts/Contacts.jsx:56-59 | a request is made iff name and e-mail are not blank; it then passes the server's guard |
| ContactsPage.LoadTasksOnce | src/client/src/modules/contacts/Contacts.jsx:33-38 | a first load caches the list under the project and leaves other entries; a second load changes nothing |
| ContactsPage.Page.constructor | src/client/src/modules/contacts/Contacts.jsx:16-22 | empty new-row form, no edit, no cached tasks |
| ContactsPage.Page.LoadTasks | src/client/src/modules/contacts/Contacts.jsx:33-38 | fetches iff the project id is set and not cached; the cache is updated accordingly and nothing else changes |
| ContactsPage.Page.Create | src/client/src/modules/contacts/Contacts.jsx:48-54 | against an API object that has `insertContact`: sends the create request when the guard allows; the form is reset only after a successful insert |
| ContactsPage.Page.CreateAsWritten | src/client/src/modules/contacts/Contacts.jsx:52-53 | against the object `api.js` exports: no request goes out and the page stays as it was |
| ContactsPage.Page.AfterInsert | src/client/src/modules/contacts/Contacts.jsx:53 | only a resolved insert empties the new-row form; the editor and the task cache stay |
| ContactsPage.Page.AfterUpdate | src/client/src/modules/contacts/Contacts.jsx:60 | only a resolved update closes the editor; a rejected or thrown call leaves it open; the forms and the task cache stay as they were |
| ContactsPage.Page.SaveEdit | src/client/src/modules/contacts/Contacts.jsx:56-61 | against an API object that has `updateContact`: sends the save request when the guard allows; the editor closes only after a successful update |
| ContactsPage.Page.SaveEditAsWritten | src/client/src/modules/contacts/Contacts.jsx:59-60 | against the object `api.js` exports: no request goes out and the editor stays open |
| ProjectApi.ContactMethodsMissing | src/client/src/modules/project/api.js:15-44 | each of the five contact methods the views call throws on the exported object, whatever the server would answer, and settles with the answer on the object the views expect |
| WorkForm.PartnersDistinct | src/client/src/modules/work/components/WorkForm.jsx:5 | exactly the partners of the items, without duplicates, in first-occurrence order |
| WorkForm.TasksDistinct | src/client/src/modules/work/components/WorkForm.jsx:6 | exactly the tasks of the items, without duplicates, in first-occurrence order |
| WorkForm.Minutes | src/client/src/modules/work/components/WorkForm.jsx:26 | null iff the time field is empty |
| WorkForm.RequestBody | src/client/src/modules/work/components/WorkForm.jsx:22-28 | the payload's partner and task are sent as typed |
| WorkForm.SubmittedWorkStored | src/client/src/modules/work/components/WorkForm.jsx:20-28 | an accepted submission is stored trimmed, with the form's description, the ticket id trimmed or null, and the typed minutes unless they are 0 or not a number |
| WorkForm.DisabledSaveWouldBeRefused | src/client/src/modules/work/components/WorkForm.jsx:58 | a disabled Save means the server would refuse; a blank partner still enables it |
| WorkForm.Form.constructor | src/client/src/modules/work/components/WorkForm.jsx:8-12 | all five fields start empty |
| WorkForm.Form.Reset | src/client/src/modules/work/components/WorkForm.jsx:16-18 | all five fields become empty |
| WorkForm.Form.Submit | src/client/src/modules/work/components/WorkForm.jsx:20-31 | hands over the payload of the fields; they are reset after a save, and kept if the save rejects |
| Dashboard.TruthyCustomers | src/client/src/modules/project/pages/Dashboard.jsx:26 | exactly the truthy customer values of the tasks |
| Dashboard.CustomersDistinct | src/client/src/modules/project/pages/Dashboard.jsx:25-28 | the suggestions are the truthy customers, without duplicates or empties, in first-occurrence order; none for no tasks |
| Dashboard.ExportLinkOfId | src/client/src/modules/project/pages/Dashboard.jsx:10-50 | for a numeric route parameter the link is `/api/projects/<pid>/images.zip` |
| TaskTable.EditFormOf | src/client/src/modules/project/components/TaskTable.jsx:7-16 | null customer and notes become empty; the start is a prefix of the task's of at most 16 characters, the whole start when that is short enough; the end is empty iff the task has none, else a prefix of its end |
| TaskTable.SaveUntouched | src/client/src/modules/project/components/TaskTable.jsx:18-28 | saving an untouched form: the end is null iff the task had none; the notes are trimmed or null |
| TaskTable.SaveUntouchedKeeps | src/client/src/modules/project/components/TaskTable.jsx:7-28 | a task already in the form's shape is saved unchanged |
| TaskTable.CellsAgreeWithForm | src/client/src/modules/project/components/TaskTable.jsx:7-62 | the customer, end and notes cells show the dash exactly when the edit form leaves that field empty, and the end cell shows it exactly when saving the untouched form sends a null end |
| TaskTable.Table.BeginEdit | src/client/src/modules/project/components/TaskTable.jsx:7-16 | the form is filled from the task and the task is being edited |
| TaskTable.Table.Save | src/client/src/modules/project/components/TaskTable.jsx:18-28 | sends the form's update for the edited task and closes the editor |
| WorkTable.EditFormOf | src/client/src/modules/work/components/WorkTable.jsx:7-10 | the row is copied; the minutes text is truthy iff the row has non-zero minutes, and then reads back as that number |
| WorkTable.TypedMinutes | src/client/src/modules/work/components/WorkTable.jsx:13 | empty typed minutes are sent as null, other text as its number, `"0"` as 0 |
| WorkTable.SaveUntouched | src/client/src/modules/work/components/WorkTable.jsx:7-15 | saving an untouched row sends it back, except that 0 minutes are sent as null |
| WorkTable.MinutesShown | src/client/src/modules/work/components/WorkTable.jsx:51 | the dash iff the minutes are null; 0 is shown as 0 |
| WorkTable.Table.BeginEdit | src/client/src/modules/work/components/WorkTable.jsx:7-10 | the form is the row's edit form and the row is being edited |
| WorkTable.Table.TypeMinutes | src/client/src/modules/work/components/WorkTable.jsx:37-38 | only the form's minutes change, to the typed text |
| WorkTable.Table.Save | src/client/src/modules/work/components/WorkTable.jsx:12-15 | sends the converted form for the edited row and closes the editor |

## Left out

- Streaming with archiver, zlib compression, response headers and the
  `streamZip` error path: an archive is its file name and its ordered list of
  entries.
- The project archive's late 404 is issued after streaming has begun. Only
  the decision is modelled; `Archives.ProjectNothingMeansEmptyArchive` shows
  that the archive already streamed is empty exactly then.
- `path.join(uploadDir, f)` and `path.join(prefix, f)` are not normalised:
  an entry is named by the captured name itself, `..` included.
- Two entries with the same name in one archive are kept as two entries. An
  example is a note that references an upload called `notes.md`.
- The filesystem is a parameter:
  - `fs.existsSync` is a set of existing names;
  - `readdirSync` is a listing of names with a regular-file flag;
  - `mkdirSync` and `express.static` are left out.
- `Date.now()` is a parameter. Upload name collisions are a concurrency
  matter and are left out.
- Sequelize and MariaDB are replaced by maps:
  - query execution, `sync`, the seeds and the `new Sequelize(...)`
    connection are left out;
  - `LIKE` is a case-sensitive substring test. Collation and the `%` and `_`
    wildcards inside a query are not modelled.
- The global contacts query has no ORDER BY, so the model takes the
  contacts' order as an input.
- Database refusals have two outcomes, depending on the route:
  - in a route with `try`/`catch`, a failed unique name or length becomes a
    400;
  - in a route without one, a failed foreign key, NOT NULL or length is an
    unhandled failure.
- A failed insert does not consume an auto-increment id. MariaDB may skip
  one.
- Dates are kept as the strings the client sends. Ordering by `startedAt`
  compares them as text. Task `updatedAt` is not kept because the task table
  has no timestamps.
- `tracked`: both create routes pass `Boolean(tracked)` on to `create`.
  Neither Sequelize model declares such an attribute, so it is dropped: it
  is neither stored nor part of the reply. This is a reading of how
  Sequelize builds an instance, not of code in the repository.
- `ProjectStore.Store.UpdateTask` and `WorkStore.WorkTable.Update` model a
  body of known fields whose values have the column types. A body with a
  non-integer `timeSpent`, or fields of other types, is not modelled.
- `Archives.BuildProjectArchive` names the archive after the numeric project
  id. The route uses the raw parameter text (`src/server/src/index.js:188`),
  which can differ, as in `007`.
- JavaScript `Number()` is modelled on these cases only:
  - an empty or blank string gives 0;
  - a decimal digit string gives its integer;
  - anything else is NaN.
  
  Surrounding white space is trimmed first, as `Number()` does; that white
  space is ASCII here. Fractions, exponents, signs, hexadecimal and
  `Infinity` are not modelled: they are NaN in the model.
- Case mapping, letters and white space are ASCII:
  - `nameFromEmail`'s `[a-zA-Z]` is ASCII in the source too;
  - `toLowerCase` and the regular expression's `\s` are restricted to ASCII
    here.
- The UTF-8 step of `encodeURIComponent` covers Unicode scalar values. A lone
  surrogate cannot occur in a Dafny `char`, so the `URIError` it raises is
  not modelled. `DbUrl.EncodeRoundTrip` undoes the percent layer only;
  decoding the UTF-8 bytes back to characters is not modelled.
- The configuration is a single row. A title over 128 characters is refused
  as an unhandled failure, which assumes strict SQL mode; the row was already
  created by then.
- The client's `fetch` calls and the requests behind the API objects'
  methods are I/O:
  - the outcome of `initConfig`'s fetch is a parameter;
  - the PUT body of `saveConfig` is its result;
  - `matchMedia` is a boolean parameter;
  - `toLocaleString` is a formatting function parameter.
- React rendering, hooks and the DOM are left out:
  - the list reloads;
  - `ContactList`'s table and delete;
  - the contacts page's `window.confirm` delete and project list fetch;
  - `WorkForm`'s focus and `details` closing;
  - `Header`, `Help`, `Config`, `TaskForm`, `routes`, `index`, `theme`,
    `vite.config.js`.
- `ContactList.ContactForm.Add` models `add` against an API object that has
  `insertContact`, which `api.js` does not export. The code as written is
  `ContactList.ContactForm.AddAsWritten` (see "## Findings"). The server's
  answer is a parameter.
- `ContactList.ContactForm.AfterInsert` is reached with an answer only on
  that intended object; on the exported one it is reached with a thrown call.
- `ContactsPage.Page.Create` and `ContactsPage.Page.SaveEdit` model `create`
  and `saveEdit` against an API object that has `insertContact` and
  `updateContact`. The code as written is `ContactsPage.Page.CreateAsWritten`
  and `ContactsPage.Page.SaveEditAsWritten` (see "## Findings").
- `ContactsPage.Page.AfterUpdate` is reached with an answer only on that
  intended object; on the exported one it is reached with a thrown call.
- The mount effects of both contact views call `listContacts` and
  `listAllContacts`, and both `del` handlers call `deleteContact`. None of
  these is exported either, so each throws the same way. The effect of a
  throwing effect on the first render is React's and is not modelled.
- `TaskTable.Table.Save` and `WorkTable.Table.Save` always close the editor,
  because their parent catches a failed update.
- `WorkForm.Form.Submit` takes whether `onSave` resolved as a parameter. Its
  only caller, `add` in `src/client/src/modules/work/pages/Work.jsx:14`,
  catches a failed insert, so `onSave` always resolves and the form is always
  reset, as with the table `Save`s.
- The work routes are not mounted by the server, and the work page has no
  route. The work store is modelled on its own.

## Findings

`src/client/src/modules/project/api.js:15-44` exports an object with
`listTasks`, `insertTask`, `updateTask` and `deleteTask` only. The contact
views call contact methods on that object, so each such call throws a
`TypeError` before any request goes out (`ProjectApi.ContactMethodsMissing`).

| source | as written | input that shows it | evidently intended | confidence | as-written member | corrected member |
|---|---|---|---|---|---|---|
| src/client/src/modules/project/components/ContactList.jsx:33-43 | `add` calls `api.insertContact`, which `api.js` does not define | any submitted form, e.g. e-mail `ann@x.io` with a server that would accept it: no request, the form is not emptied and no error is shown | the contact is inserted, the form emptied, or the server's error shown | high, not executed | ContactList.ContactForm.AddAsWritten | ContactList.ContactForm.Add |
| src/client/src/modules/contacts/Contacts.jsx:52-53 | `create` calls `api.insertContact`, which `api.js` does not define | a new row with task id `1`, name `Ann` and e-mail `ann@x.io`: no request and the form is not emptied | the contact is inserted and the form emptied | high, not executed | ContactsPage.Page.CreateAsWritten | ContactsPage.Page.Create |
| src/client/src/modules/contacts/Contacts.jsx:59-60 | `saveEdit` calls `api.updateContact`, which `api.js` does not define | an edited row with name `Ann` and e-mail `ann@x.io`: no request and the editor stays open | the contact is updated and the editor closed | high, not executed | ContactsPage.Page.SaveEditAsWritten | ContactsPage.Page.SaveEdit |
