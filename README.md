# Feature-document persistence layer, modelled in Dafny

The system keeps three JSON documents per feature under
`<cwd>/.codeloops/<featureName>/`: a problem definition (`problem.json`), a
technical approach (`technical.json`) and a task breakdown (`tasks.json`).
`schemas.ts` has one shallow structural validator and one template per
document kind. `json-utils.ts` has these operations:

- path helpers;
- `ensureProjectDir`;
- generic `readJsonFile` / `writeJsonFile`;
- per kind, a `read*` / `write*` / `createOrUpdate*` triple;
- the project operations: `listProjects`, `projectExists`, `getProjectFiles` and `backupProject`;
- the counts shown by `formatTasksSummary`.

The model is laid out in modules:

- `Json` (`json.dfy`): decoded JSON values and the JavaScript semantics the
  validators depend on:
  - `typeof`, where `null` and arrays are `"object"`;
  - `Array.isArray`;
  - own-property reads;
  - truthiness.
- `Schemas` (`schemas.dfy`):
  - the three validators, one check per top-level field, in the source order;
  - an independent table-driven reading of them (`FieldTable`, `Conforms`), proved equivalent;
  - the three templates.
- `Paths` (`paths.dfy`): a path is a list of components and `[]` is the
  filesystem root. The module has the project and document paths, and the
  backup name `<feature>-backup-<timestamp with ':' and '.' replaced by '-'>`.
- `FileStore` (`store.dfy`): the filesystem as a value, `FsState(dirs, files)`.
  - Each file holds either a decoded JSON value or text that does not parse.
  - `WellFormed` is the shape every real filesystem has.
  - Each `fs` primitive the layer uses is a total function with its error
    codes: `readFile`/`JSON.parse`, `mkdir -p`, `writeFile`, `readdir`,
    `copyFile` and `access`.
- `Lifecycle` (`lifecycle.dfy`): the document operations and the project
  operations, as functions from a state to an outcome and a new state.
  Each has the lemmas that state what the source promises.
- `Summary` (`summary.dfy`): the numbers `formatTasksSummary` prints.
- `JsonUtils` (`filesystem.dfy`): the layer as it runs.
  - A `FileSystem` object's methods change its `dirs` and `files` fields step
    by step.
  - A `Doc` object is the caller's value, which `write*` stamps in place.
  - Every method is proved equal to the `Lifecycle` / `FileStore` function
    that specifies it.

The three per-kind triples differ only in file name, validator and
template, so each is modelled once with a `Kind` parameter (`Problem`,
`Technical`, `Tasks`).

Inputs that are not modelled are passed in as parameters:

- The working directory is the `root` parameter.
- The current instant (`new Date().toISOString()`) is the `now` parameter.
- The order in which `readdir` lists a directory is the ghost `order`
  out-parameter of `BackupProject`. The lemmas that use it require only that
  it lists every entry exactly once.

Two behaviours of the code worth knowing:

- **Backup.** `backupProject` calls `copyFile` on every `readdir` entry of the
  project directory (json-utils.ts:264-268). A project directory that holds
  a sub-directory therefore cannot be backed up
  (`Lifecycle.BackupFailsOnSubdirectory`). The backup directory is created
  before the source is listed (json-utils.ts:261-264), so backing up a
  missing project leaves an empty backup directory behind
  (`Lifecycle.BackupOfMissingProject`).
- **Falsy content.** `readJsonFile` returns `null` both for a missing file and
  for a file whose content is `null`. `read*` validates only truthy content
  (json-utils.ts:79), and `createOrUpdate*` takes the template for any falsy
  read result (json-utils.ts:106-108). So a document file holding `null`,
  `false`, `0` or `""` is silently replaced. This is the one place where the
  store reads documents through a corrected check instead of the code as
  written. The as-written behaviour is modelled beside it
  (`Lifecycle.ReadDocAsWritten`, `Lifecycle.CreateOrUpdateAsWritten`). See
  "## Findings".

## Model

| member | source | states |
|---|---|---|
| `Json.TypeOf` | schemas.ts:147-149 | `typeof` is `"object"` exactly for `null`, arrays and objects, and `"undefined"` exactly for a missing property |
| `Schemas.Validate` | schemas.ts:143-181 | no validator accepts anything but an object that has a `metadata` key |
| `Schemas.ValidatorMatchesFieldTable` | schemas.ts:143-181 | each validator accepts exactly the objects whose listed top-level fields have the listed shapes (object-typed, string, array) |
| `Schemas.ValidatorIsShallow` | schemas.ts:143-181 | two objects whose listed fields pass the same `typeof` / `Array.isArray` checks get the same verdict |
| `Schemas.ExtraKeysIgnored` | schemas.ts:143-181 | adding or replacing a key that the validator does not list never changes its verdict |
| `Schemas.NestedContentIgnored` | schemas.ts:143-181 | replacing a listed field with another value of the same `typeof` and array-ness never changes the verdict |
| `Schemas.NullMetadataAndListConstraintsValidate` | schemas.ts:147-153 | a problem definition whose `metadata` is `null` and whose `constraints` is a list validates |
| `Schemas.MalformedTasksValidate` | schemas.ts:171-181 | a task breakdown whose task has priority `"P9"` and whose dependency is a number validates |
| `Schemas.ProblemTemplate` | schemas.ts:184-201 | the problem template validates, has exactly the validator's keys, has `created` = `updated` = now, version `1.0.0` and the feature name, and every other field is blank |
| `Schemas.TechnicalTemplate` | schemas.ts:203-230 | the same for the technical template |
| `Schemas.TaskTemplate` | schemas.ts:232-247 | the same for the task template |
| `Schemas.Template` | schemas.ts:184-247 | the template of each kind passes that kind's validator, with fresh metadata and a blank body |
| `Paths.ProjectPath` | json-utils.ts:26-28 | the project path is `.codeloops` under the working directory, followed by the feature name |
| `Paths.DocPath` | json-utils.ts:30-40 | a document path sits directly in the project directory, under its kind's file name |
| `Paths.PathsAreDistinct` | json-utils.ts:26-40 | project paths coincide iff the feature names do, and document paths coincide iff both the feature names and the kinds do |
| `Paths.ReplaceSeparators` | json-utils.ts:255 | the result has the same length, has every `:` and `.` turned into `-`, keeps every other character, and contains no separator |
| `Paths.BackupNameShape` | json-utils.ts:255-256 | a backup name is the feature name, then `-backup-`, then a separator-free timestamp of the same length, and is never the feature name itself |
| `FileStore.ReadJsonSpec` | json-utils.ts:53-63 | missing file (ENOENT) iff the result is `null`; a present JSON file yields its value; anything else throws |
| `FileStore.MakeDirsSpec` | json-utils.ts:48 | `mkdir -p` succeeds iff no prefix of the path is a file, then adds every prefix as a directory; on failure nothing changes; well-formedness is kept |
| `FileStore.WriteFileSpec` | json-utils.ts:71 | writing succeeds iff the path is not a directory and its parent is one, and then replaces exactly that file |
| `FileStore.WriteJsonSpec` | json-utils.ts:65-72 | on success the file holds the value and the parent chain exists; on failure no file changes |
| `FileStore.Children` | json-utils.ts:264 | a name is listed iff something exists at that name directly inside the directory |
| `FileStore.ReadDirSpec` | json-utils.ts:264 | `readdir` succeeds iff the path is a reachable directory, and then lists its children; ENOENT iff nothing is there |
| `FileStore.CopyFileSpec` | json-utils.ts:268 | copying succeeds iff the source is a file and the destination can be written, and then the destination holds the source's content |
| `Lifecycle.ReadDocAsWritten` | json-utils.ts:75-84 | the read as written: a returned value is validated only when it is truthy, and stored `null` reads as absent |
| `Lifecycle.FalsyContentBypassesValidation` | json-utils.ts:79 | a problem file holding `false` is returned although it fails validation, and one holding `null` reads as missing |
| `Lifecycle.CheckRead` | json-utils.ts:79-83 | corrected read check: absent iff no file; every present value returned is validated; an invalid one is `Invalid ... format in <path>` |
| `Lifecycle.AsWrittenDiffersOnlyOnFalsy` | json-utils.ts:79 | the as-written and corrected reads differ exactly on present content that is falsy |
| `Lifecycle.ReadDocSpec` | json-utils.ts:75-84 | the intended read: absent iff nothing is at the document path; a returned document is the stored value and validates; invalid stored content, falsy content included, is an error naming the file |
| `Lifecycle.Stamp` | json-utils.ts:92-93 | null metadata throws a TypeError; array metadata leaves the stored value unchanged; object metadata gets `updated` = now and `featureName` set, with every other key and field kept |
| `Lifecycle.StampForWrite` | json-utils.ts:86-93 | an invalid value is refused with `Invalid ... format`; a stamped value still validates |
| `Lifecycle.StampKeepsValid` | json-utils.ts:92-93 | changing only the metadata, while keeping it object-typed, preserves validity |
| `Lifecycle.WriteDocSpec` | json-utils.ts:86-97 | a refused or throwing stamp leaves the filesystem untouched; success stores exactly the stamped value in the kind's file; well-formedness is kept |
| `Lifecycle.InvalidWriteChangesNothing` | json-utils.ts:87-89 | an invalid value is refused before anything on disk is created |
| `Lifecycle.NullMetadataWriteFails` | json-utils.ts:92 | a valid value with `null` metadata throws at the stamp, and nothing is written |
| `Lifecycle.WriteThenRead` | json-utils.ts:86-97 | after a successful write, reading the document gives back the stamped value |
| `Lifecycle.Merge` | json-utils.ts:111 | the spread merge has the union of the keys; every key of `updates` wins; every other key keeps the base value |
| `Lifecycle.ShallowMergeReplacesLists` | json-utils.ts:111 | the merge is one level deep: a list in `updates` replaces the stored list wholesale |
| `Lifecycle.EnsureProjectDirSpec` | json-utils.ts:43-50 | files are never changed; an existing path is left alone; on success the project directory exists; well-formedness is kept |
| `Lifecycle.EnsureProjectDirIdempotent` | json-utils.ts:43-50 | ensuring the directory a second time changes nothing |
| `Lifecycle.EnsureKeepsReads` | json-utils.ts:103-105 | ensuring the directory never changes what the following read sees |
| `Lifecycle.BaseDocument` | json-utils.ts:105-108 | the base is the stored document, or the template when there is none, and it validates either way |
| `Lifecycle.CreateOrUpdateSpec` | json-utils.ts:99-115 | on success the returned value is exactly what the document file now holds; on failure no file changed; well-formedness is kept |
| `Lifecycle.StampedOverlay` | json-utils.ts:110-112 | the stored merge keeps every update field and every other base field verbatim, and the base's `created` unless the updates bring metadata |
| `Lifecycle.CreateOrUpdateStoresOverlay` | json-utils.ts:99-115 | a successful create-or-update returns the stamped overlay of the updates on what a read before the call returned, or on the template |
| `Lifecycle.CreateOnAbsentUsesTemplate` | json-utils.ts:105-108 | with no document yet, the result is the template overlaid with the updates and stamped |
| `Lifecycle.CreateOrUpdateAsWritten` | json-utils.ts:99-115 | create-or-update as written, with the as-written read and `!existing`: on success the returned value is what the file now holds; on failure no file changed; well-formedness is kept |
| `Lifecycle.FalsyFileOverwrittenByTemplate` | json-utils.ts:105-108 | as written, a document file holding `null`, `false`, `0` or `""` is replaced by the stamped template overlay, while the intended operation refuses it and changes nothing |
| `Lifecycle.AsWrittenCreateAgreesOnTruthy` | json-utils.ts:105-108 | the as-written and the intended create-or-update agree whenever the document file does not hold a falsy value |
| `Lifecycle.FalsyFileReads` | json-utils.ts:75-84 | for a document file holding a falsy value, the project directory already exists, the as-written read comes back falsy, and the intended read refuses the file |
| `Lifecycle.WriteOverExistingFile` | json-utils.ts:65-72 | writing over an existing document file never fails on the filesystem: the result is that of validation and stamping alone |
| `Lifecycle.CreateOnFreshRoot` | json-utils.ts:99-115 | on an empty working directory, create-or-update writes the overlay of the updates on the template into the newly made project directory |
| `Lifecycle.InvalidMergeLeavesDirectory` | json-utils.ts:103-112 | a merge that fails validation writes no file but leaves the project directory created |
| `Lifecycle.FreshProjectDir` | json-utils.ts:43-50 | on an empty working directory, ensuring a project creates exactly its directory chain, and no document is found there |
| `Lifecycle.StatementOverTemplateStamps` | json-utils.ts:110-112 | a problem statement overlaid on the problem template validates and can be stamped |
| `Lifecycle.OnlyProblemReported` | json-utils.ts:230-251 | a project directory holding only its problem document reports problem present and the other two absent |
| `Lifecycle.CheckoutDocument` | json-utils.ts:99-115 | the stored checkout document has the template's keys, feature name `checkout`, `created` = now, the new statement, and empty lists |
| `Lifecycle.CheckoutScenario` | json-utils.ts:99-115 | on an empty working directory, creating a problem definition succeeds, stores the stamped overlay on the template, and then only `problem` is reported |
| `Lifecycle.InvalidUpdateOnFreshRoot` | json-utils.ts:103-112 | an update that makes `successCriteria` a string is refused, yet the project directory now exists and no file was written |
| `Lifecycle.KeepDirectories` | json-utils.ts:209-211 | a name is kept iff it is listed and names a directory; no duplicates are introduced, and the list never grows |
| `Lifecycle.ListProjectsSpec` | json-utils.ts:204-218 | the listed projects are exactly the directories directly under `.codeloops`; a missing `.codeloops` gives no projects; an existing one never fails |
| `Lifecycle.ProjectFilesAreDirectLookups` | json-utils.ts:230-251 | on a well-formed filesystem each flag is exactly "that document path exists"; the early all-false answer agrees |
| `Lifecycle.CopyAll` | json-utils.ts:265-269 | the copy loop creates no directories, removes no file, and keeps well-formedness |
| `Lifecycle.CopyAllCopies` | json-utils.ts:265-269 | the loop writes nowhere but the backup entries; on success every listed source was a file, and its copy holds the same content |
| `Lifecycle.BackupSpec` | json-utils.ts:254-272 | a successful backup returns the backup name; no file disappears; well-formedness is kept |
| `Lifecycle.BackupDirLeavesSourceAlone` | json-utils.ts:261-264 | creating the backup directory adds nothing to the directory being listed |
| `Lifecycle.BackupCopiesEveryEntry` | json-utils.ts:254-272 | a successful backup returns its name, creates the backup directory, copies every entry of the project with the same content, and leaves every other file unchanged |
| `Lifecycle.BackupOfMissingProject` | json-utils.ts:261-264 | backing up a missing project fails with ENOENT but leaves an empty backup directory |
| `Lifecycle.BackupFailsOnSubdirectory` | json-utils.ts:268 | a project holding a sub-directory cannot be backed up |
| `Summary.CountWhere` | json-utils.ts:290-293 | the filter count throws iff a task is `null`; it is at most the list length, 0 when nothing matches, and the length when everything matches |
| `Summary.DisjointCountsBounded` | json-utils.ts:290-292 | the P0, P1 and P2 counts add up to at most the number of tasks, and exactly to it when every task has one of them |
| `Summary.TasksSummaryCounts` | json-utils.ts:289-298 | total and dependency counts are the list lengths; the priority counts sum to at most the total, and to the total when every priority is valid; completed is at most the total; a `null` task throws |
| `JsonUtils.FileSystem.Access` | json-utils.ts:46 | `fs.access` succeeds iff a file or a directory is at the path |
| `JsonUtils.FileSystem.ReadJsonFile` | json-utils.ts:53-63 | the method returns what `FileStore.ReadJsonSpec` specifies |
| `JsonUtils.FileSystem.MakeDirs` | json-utils.ts:48 | the new state and the result are those of `FileStore.MakeDirsSpec`; well-formedness is kept |
| `JsonUtils.FileSystem.WriteJsonFile` | json-utils.ts:65-72 | the new state and the result are those of `FileStore.WriteJsonSpec` |
| `JsonUtils.FileSystem.ReadDir` | json-utils.ts:264 | the listing succeeds or fails as `FileStore.ReadDirSpec` says, and lists every child exactly once |
| `JsonUtils.FileSystem.CopyFile` | json-utils.ts:268 | the new state and the result are those of `FileStore.CopyFileSpec` |
| `JsonUtils.FileSystem.EnsureProjectDir` | json-utils.ts:43-50 | the new state and the result are those of `Lifecycle.EnsureProjectDirSpec` |
| `JsonUtils.FileSystem.ReadDocument` | json-utils.ts:75-84 | the method returns what `Lifecycle.ReadDocSpec` specifies |
| `JsonUtils.FileSystem.WriteDocument` | json-utils.ts:86-97 | the state and the result are those of `Lifecycle.WriteDocSpec`, and the caller's object now holds the stamped value |
| `JsonUtils.FileSystem.CreateOrUpdate` | json-utils.ts:99-115 | the state and the result are those of `Lifecycle.CreateOrUpdateSpec`; the returned object is new and holds the stored value |
| `JsonUtils.FileSystem.ListProjects` | json-utils.ts:204-218 | the names come with no duplicates and as the set `Lifecycle.ListProjectsSpec` specifies; errors are the same |
| `JsonUtils.FileSystem.ProjectExists` | json-utils.ts:220-228 | true iff something is at the project path |
| `JsonUtils.FileSystem.GetProjectFiles` | json-utils.ts:230-251 | all false for a missing project; otherwise one existence flag per document file |
| `JsonUtils.FileSystem.BackupProject` | json-utils.ts:254-272 | the state and the result are those of `Lifecycle.BackupSpec` for the listing order used, and that order lists each entry of the project once |
| `JsonUtils.RunCheckoutScenario` | json-utils.ts:99-115 | running create-or-update on an empty working directory stores the template's keys with the statement, feature name and `created` stamp, and `getProjectFiles` then reports only the problem document |

## Left out

- JSON text: `JSON.stringify` / `JSON.parse` are modelled as storing and returning the decoded value. A file either holds a decoded value or fails to parse. Indentation, key order and text encoding are not modelled.
- Numbers are integers: floating point, `NaN` and `-0` are not modelled.
- Path handling: `path.join` normalisation (`..`, empty or absolute components inside a feature name) and `dirname` on unusual paths are not modelled. A path is a list of components, and the feature name is one component.
- Time: the model uses one instant per call, `now`, given as a parameter. The ISO-8601 format of that instant is not modelled.
  - A create-or-update over a present document reads the clock once (json-utils.ts:92).
  - Over an absent document it reads the clock three times: twice in the template (schemas.ts:186-187) and once more when stamping (json-utils.ts:92).
  - So the templates' `created` equal to `updated` (`Schemas.FreshMetadata`) is a consequence of the one-instant choice. The source takes two clock readings that may differ.
- Concurrency: `async`/`await` and the `Promise.all` in `getProjectFiles` are modelled as sequential steps. Interleaving with other writers is not modelled.
- Permission, disk-full and other `fs` errors beyond ENOENT, ENOTDIR, EISDIR and EEXIST are not modelled. The exact error code when `mkdir -p` meets a file is simplified to EEXIST or ENOTDIR.
- Display strings: the text of `formatProblemSummary`, `formatTechnicalSummary` and `formatTasksSummary` is not modelled. Only the numbers `formatTasksSummary` computes are (`Summary.TasksSummaryCounts`).
- Property reads are own keys only: inherited properties (`constructor`, `toString`, ...) and named properties on arrays are not modelled.
- JsonUtils.FileSystem.CreateOrUpdate: the returned object is a fresh `Doc`. The model does not capture that its nested metadata object is shared with the caller's `updates` when `updates` brings its own `metadata`.
- JsonUtils.FileSystem.BackupProject: the `readdir` order is a ghost out-parameter. Only the fact that it lists every entry once is stated, not which order the operating system picks.
- Lifecycle.ReadDocSpec: uses the corrected read check, so a document file holding `null`, `false`, `0` or `""` is an `InvalidOnRead` error. The source returns `null` or the falsy value at json-utils.ts:79,83. The as-written read is `Lifecycle.ReadDocAsWritten`.
- Lifecycle.BaseDocument: takes the template only for a missing document. The source's `!existing` (json-utils.ts:106) also takes it for a falsy read result. The as-written choice is in `Lifecycle.CreateOrUpdateAsWritten`.
- Lifecycle.CreateOrUpdateSpec: built on the corrected read, so it fails on a document file holding a falsy value. The source replaces that file with the template overlay (`Lifecycle.FalsyFileOverwrittenByTemplate`). On every other filesystem the two agree (`Lifecycle.AsWrittenCreateAgreesOnTruthy`).
- JsonUtils.FileSystem.ReadDocument: runs the corrected read of `Lifecycle.ReadDocSpec`, not the as-written one.
- JsonUtils.FileSystem.CreateOrUpdate: runs `Lifecycle.CreateOrUpdateSpec`, so it fails on a falsy document file where the source falls back to the template.
- Lifecycle.ProjectFilesSpec and Lifecycle.ProjectExistsSpec are stated by their bodies. Their properties are in `Lifecycle.ProjectFilesAreDirectLookups` and in the `GetProjectFiles` / `ProjectExists` methods.

## Findings

| source | as written | input that shows it | evidently intended | confidence | as-written member | corrected member |
|---|---|---|---|---|---|---|
| json-utils.ts:79 | `if (data && !validate(data))` validates only truthy content | a `problem.json` holding `false`, `0` or `""` is returned as a problem definition although it fails validation; one holding `null` reads as a missing document, and `createOrUpdate*` then overwrites it with the template | every present document is validated, and invalid content raises `Invalid ... format in <path>` | not executed | `Lifecycle.ReadDocAsWritten` | `Lifecycle.CheckRead` |

The proofs behind this row:

- `Lifecycle.FalsyContentBypassesValidation` exhibits the as-written read on `false` and `null`.
- `Lifecycle.AsWrittenDiffersOnlyOnFalsy` proves that the two reads differ exactly on falsy content.
- `Lifecycle.FalsyFileOverwrittenByTemplate` exhibits the effect on create-or-update. The as-written operation `Lifecycle.CreateOrUpdateAsWritten` overwrites such a file with the stamped template overlay. The corrected `Lifecycle.CreateOrUpdateSpec` refuses it and leaves the filesystem unchanged.
- `Lifecycle.AsWrittenCreateAgreesOnTruthy` proves that the two create-or-update operations agree everywhere else.

The rest of the model reads documents through `Lifecycle.ReadDocSpec`, which uses the corrected check.
