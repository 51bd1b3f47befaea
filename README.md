# ReadySetDone task core in Dafny

ReadySetDone is a to-do list manager. A daemon (`rsdd`) keeps the tasks in one
JSON document and serves them over D-Bus; clients send JSON payloads and
receive a `TaskUpdated` broadcast of the full list after every change. This
project models the daemon's task-state logic and proves properties of it.
Nothing in it talks to a bus or a disk.

The model covers:

- **Values** (`types.dfy`, `wire.dfy`). Covers the `Task` record with its
  defaults, `Task.new` (uuid and clock passed in), `slugify` and `Task.filename`.
  - JSON is an abstract value. A Python string on the wire or in a file is
    either a JSON document, written as the value it encodes (`Dumped(value)`),
    or text that is not JSON (`Plain`).
  - Timestamps are opaque ordered ticks, with a decimal rendering and its
    parser.
- **The envelope codec** (`serialize.dfy`, `deserialize.dfy`). Covers
  `serialize` for `""`, a task, a list of tasks, an `Id` and anything else,
  and `deserialize` with its `task`-before-`id` discrimination. Decoding an
  encoded task or id gives it back; re-encoding a decoded envelope gives the
  envelope back when `serialize` produced it.
- **Ordering** (`sorting.dfy`, `ui_sorting.dfy`).
  - The default sort key, and a stable insertion sort proved to be a sorted
    permutation that keeps equal keys in input order.
  - The 1-based index lookup.
  - The renderers' key, including the `TypeError` Python raises when it
    compares a missing `created` with a present one.
- **List rules** (`task_list.dfy`, `task_rules.dfy`). Covers first-match
  lookup, upsert and filter-delete over a `seq<Task>`, and the mutation rules:
  mark done with the `completed or created` backfill, mark not done, toggle,
  pin, unpin, rename.
- **Files and stores** (`locked_file.dfy`, `task_store.dfy`,
  `description_store.dfy`).
  - Files are a path→content map in a `FileSystem` object. `LockedFile`
    creates a missing file empty before every read or write.
  - `TaskStore` rewrites the whole document on each change. Its loops are
    proved against `Lookup`, `Upsert` and `Remove`. The stored-document codec
    is proved to round-trip.
  - `DescriptionStore` keeps one file per task id.
- **Service and API** (`task_service.dfy`, `task_api.dfy`). Covers the
  `TaskService` class and the module functions of `api/task.py`, each
  specified by the list rule it applies to the stored list.
- **Pub/sub and RPC** (`pubsub.dfy`, `dbus_server.dfy`).
  - The topic→handler table, where dispatch is a loop proved against a
    fan-out trace.
  - The RPC methods of the D-Bus server interface. Their emitted signals are
    an appended trace.

Errors are Python exception classes carried in `Result.Failure`.

## Model

| member | source | states |
|---|---|---|
| Wire.Loads | src/rsd/api/deserialize.py:25 | `json.loads` of text that `json.dumps` produced gives back exactly the dumped value; any other text (the empty string included) is a `JSONDecodeError` |
| Wire.Truthy | src/rsd/api/deserialize.py:29-31 | the falsy JSON values are exactly `null`, `false`, `0`, `""`, `[]` and `{}` |
| Wire.TextTruthy | src/rsd/ipc/dbus/dbus_server.py:114 | only the empty string is falsy; dumped JSON text never is |
| Types.TimeText | src/rsd/api/serialize.py:28-29 | a timestamp renders as a non-empty string of digits |
| Types.DigitsValueOfTimeText | src/rsd/api/deserialize.py:29-31 | the digits of a rendered timestamp denote that timestamp |
| Types.ParseTimeText | src/rsd/api/deserialize.py:29-31 | parsing a rendered timestamp (`fromisoformat` of `isoformat`) gives it back |
| Types.TimeTextInjective | src/rsd/api/serialize.py:28-29 | different timestamps render differently |
| Types.ParseTime | src/rsd/api/deserialize.py:29-31 | `fromisoformat` accepts exactly the non-empty digit strings |
| Types.TaskDefaults | src/rsd/api/types.py:26-34 | a task built from the four required fields has no completion or due time, is unpinned and has no children or tags |
| Types.NewTask | src/rsd/api/types.py:36-46 | `Task.new` gives the supplied uuid as id, the title, not done, no completion time, `created` equal to the clock reading, and the given due and pinned |
| Types.IsSpace | src/rsd/api/types.py:17 | `str.isspace` holds for space, tab, newline and carriage return, and never for a character of `[a-zA-Z0-9-]` |
| Types.TrimStart | src/rsd/api/types.py:17 | `strip` from the left leaves a suffix that does not start with a stripped character, and every character it removes is a stripped one |
| Types.TrimEnd | src/rsd/api/types.py:17 | `strip` from the right leaves a prefix that does not end with a stripped character, and every character it removes is a stripped one |
| Types.Strip | src/rsd/api/types.py:17 | `strip` returns a contiguous slice of its input; every character outside the slice is a stripped one, and neither end of the slice is |
| Types.LowerChar | src/rsd/api/types.py:17 | a character of `[a-z0-9-]` lowers to itself, an ASCII capital to its small letter, and no character lowers to an ASCII capital; every character other than KELVIN SIGN and U+0130 lowers to its ASCII lower case alone |
| Types.Lower | src/rsd/api/types.py:17 | `lower()` leaves no ASCII capital and never shortens the text; without KELVIN SIGN or U+0130 it keeps the length and lowers each character in place |
| Types.Collapse | src/rsd/api/types.py:17 | replacing each run of non-`[a-zA-Z0-9]` characters with one `-` keeps the input's `[a-zA-Z0-9]` characters in order, adds only `-` between them, never `--`, and gives only `[a-z0-9-]` when the input has no upper case |
| Types.Slugify | src/rsd/api/types.py:15-17 | a slug holds only `[a-z0-9-]`, has no leading or trailing `-` and never `--` |
| Types.StripDashesShape | src/rsd/api/types.py:17 | `strip("-")` of a string without `--` has no `--` |
| Types.NoDoubleDashSuffix | src/rsd/api/types.py:17 | a suffix of a string without `--` has none |
| Types.NoDoubleDashPrefix | src/rsd/api/types.py:17 | a prefix of a string without `--` has none |
| Types.CollapseFixed | src/rsd/api/types.py:17 | the run replacement leaves a string of `[a-zA-Z0-9-]` without `--` unchanged |
| Types.StripFixed | src/rsd/api/types.py:17 | `strip` leaves a string that neither starts nor ends with a stripped character unchanged |
| Types.LowerFixed | src/rsd/api/types.py:17 | `lower` leaves a string of `[a-z0-9-]` unchanged |
| Types.StripSpaceOfSlug | src/rsd/api/types.py:17 | `strip()` leaves a slug-shaped string unchanged |
| Types.CollapseOfSlug | src/rsd/api/types.py:17 | lower-casing and run replacement leave a slug-shaped string unchanged |
| Types.SlugifyOfSlug | src/rsd/api/types.py:15-17 | a string already shaped like a slug is its own slug |
| Types.SlugifyKeepsAlnums | src/rsd/api/types.py:15-17 | without KELVIN SIGN or U+0130 in the title, the slug's letters and digits are the title's, lower-cased, in order |
| Types.SlugifyIdempotent | src/rsd/api/types.py:15-17 | `slugify(slugify(t)) == slugify(t)` |
| Types.SlugifyKelvin | src/rsd/api/types.py:15-17 | the slug of KELVIN SIGN (U+212A) is `k`, as `lower()` turns it into ASCII |
| Types.SlugifyDottedI | src/rsd/api/types.py:15-17 | the slug of U+0130 followed by `x` is `i-x`: the combining dot that `lower()` adds becomes a dash |
| Types.ShortId | src/rsd/api/types.py:51 | `id.split("-")[0]` is the longest dash-free prefix of the id: followed by `-` when shorter than the id |
| Types.Filename | src/rsd/api/types.py:48-52 | `filename` raises `TypeError` exactly when `created` is missing |
| Types.ConcatParts | src/rsd/api/types.py:52 | the pieces of the formatted name sit at the stated offsets |
| Types.DateText | src/rsd/api/types.py:52 | the rendered date is a non-empty digit string that parses back to the day of the timestamp |
| Types.FilenameParts | src/rsd/api/types.py:48-52 | the file name is the creation date, `_`, the slug of the title, `-`, the id before its first dash, and `.md` |
| Serializer.TimeJson | src/rsd/api/serialize.py:28-29 | a missing timestamp is `null`; a present one is a non-empty string that parses back to it |
| Serializer.TaskObject | src/rsd/api/serialize.py:31-42 | a task becomes an object with exactly the keys id, task, done, created, completed, due, pinned |
| Serializer.TasksJson | src/rsd/api/serialize.py:43-57 | a task list becomes an array of the per-task objects, with the same length and order |
| Serializer.Serialize | src/rsd/api/serialize.py:23-61 | succeeds exactly on `""`, a task, a list of only tasks, or an `Id`; everything else raises `TypeError`; `""` comes back as `""`, and an `Id` becomes exactly `{"id": id}` |
| Serializer.SerializeTaskList | src/rsd/api/serialize.py:43-57 | a list of tasks serializes to the array of their objects; the empty list to `[]` |
| Serializer.SerializeTaskFields | src/rsd/api/serialize.py:31-42 | the object carries the task's id, title, done, pinned and rendered times |
| Serializer.SerializeDropsChildrenAndTags | src/rsd/api/serialize.py:31-42 | `children` and `tags` do not affect the envelope |
| Deserializer.TimeField | src/rsd/api/deserialize.py:29-31 | a missing key raises `KeyError`; a falsy value gives `None`; a truthy string is parsed, giving its time or `ValueError` for bad text; any other truthy value raises `TypeError` |
| Deserializer.StringField | src/rsd/api/deserialize.py:32-40 | a field is copied exactly when it is a string; a missing key raises `KeyError` |
| Deserializer.BoolField | src/rsd/api/deserialize.py:32-40 | a field is copied exactly when it is a boolean; a missing key raises `KeyError` |
| Deserializer.Deserialize | src/rsd/api/deserialize.py:23-47 | the empty payload is a `JSONDecodeError` and a non-object a `TypeError`; a `task` key gives a task even if `id` is present, succeeding exactly when every field decodes, with `id`, `task`, `done`, `pinned` and the three timestamps copied from the payload and no children or tags; `id` alone gives `Id` of that string; neither key raises `TypeError` |
| Deserializer.TimeFieldOfTimeJson | src/rsd/api/deserialize.py:29-31 | a rendered timestamp field decodes to the same timestamp |
| Deserializer.DeserializeSerializeTask | src/rsd/api/deserialize.py:28-40 | `deserialize(serialize(t)) == t` for every task with empty children and tags |
| Deserializer.DeserializeSerializeId | src/rsd/api/deserialize.py:43-44 | `deserialize(serialize(Id(x))) == Id(x)` |
| Deserializer.SerializeDeserializeTask | src/rsd/api/serialize.py:31-42 | re-serializing a decoded envelope gives back the same text, for envelopes that `serialize` produced from a task without children or tags; a payload with extra keys or a falsy `0` timestamp re-serializes differently |
| Deserializer.TaskKeyWins | src/rsd/api/deserialize.py:28-44 | a payload with both `task` and `id` never decodes to an `Id` |
| Sorting.DefaultSortKey | src/rsd/api/sorting.py:17-24 | the key is (not pinned, done, created), with a missing `created` as the earliest time |
| Sorting.KeyLeTotal | src/rsd/api/sorting.py:24 | any two keys are comparable |
| Sorting.KeyLeTransitive | src/rsd/api/sorting.py:24 | the key order is transitive |
| Sorting.Insert | src/rsd/api/sorting.py:31 | inserting into a sorted list keeps it sorted and adds exactly the one task |
| Sorting.SortTasks | src/rsd/api/sorting.py:27-31 | the result is a sorted permutation of the input (a new list) |
| Sorting.WithKeyInsert | src/rsd/api/sorting.py:31 | insertion puts the new task before every task of equal key |
| Sorting.SortStable | src/rsd/api/sorting.py:31 | tasks with equal keys keep their input order |
| Sorting.SortedAdjacent | src/rsd/api/sorting.py:31 | neighbours in a sorted list are in key order |
| Sorting.SortedPairwise | src/rsd/api/sorting.py:31 | any two positions of a sorted list are in key order |
| Sorting.SortOrder | src/rsd/api/sorting.py:17-31 | sorted output has pinned before unpinned, then not done before done, then `created` ascending |
| Sorting.TaskIdByIndex | src/rsd/api/sorting.py:34-39 | `IndexError` exactly when not `1 <= index <= len(tasks)`; otherwise the id of the `index`-th sorted task, which is a task of the input |
| UiSorting.UiSortKey | src/rsd/ui/sorting.py:12-19 | the renderers' key has the default key's pinned and done components and keeps a missing `created` as `None` instead of the earliest time |
| UiSorting.UiKeyLess | src/rsd/ui/sorting.py:12-19 | tuple comparison on the renderers' key raises `TypeError` exactly when it reaches a missing and a present `created` |
| UiSorting.UiPinnedFirst | src/rsd/ui/sorting.py:19 | a pinned task orders before an unpinned one |
| UiSorting.UiUndoneFirst | src/rsd/ui/sorting.py:19 | with equal pinned status, a not-done task orders before a done one |
| UiSorting.UiAgreesWithDefault | src/rsd/ui/sorting.py:19 | with both `created` present, the order is the default key's order |
| TaskList.FindIndex | src/rsd/service/store/task_store.py:41-44 | the position of the first task with the id, or none when no task has it |
| TaskList.FindIndexAt | src/rsd/service/store/task_store.py:41-44 | the first match found by a left-to-right scan is that position |
| TaskList.Lookup | src/rsd/service/store/task_store.py:30-36 | the first task in document order with that id, or `None` |
| TaskList.Upsert | src/rsd/service/store/task_store.py:40-46 | a present id is replaced at its first position only; an absent one is appended |
| TaskList.Remove | src/rsd/service/store/task_store.py:53 | no task with the id survives; an absent id leaves the list unchanged |
| TaskList.LookupUpsert | src/rsd/service/store/task_store.py:38-48 | after `save(t)`, `load(t.id)` is `t` |
| TaskList.LookupUpsertOther | src/rsd/service/store/task_store.py:38-48 | saving `t` does not change what any other id loads |
| TaskList.UpsertPresent | src/rsd/service/store/task_store.py:41-44 | replacing keeps the length and every other position |
| TaskList.UpsertUpsert | src/rsd/service/store/task_store.py:38-48 | a second save with the same id overrides the first |
| TaskList.UpsertIdempotent | src/rsd/service/store/task_store.py:38-48 | saving `t` twice equals saving it once |
| TaskList.UpsertLookedUp | src/rsd/service/store/task_store.py:38-48 | writing back the task just loaded changes nothing |
| TaskList.RemoveAppend | src/rsd/service/store/task_store.py:53 | deletion distributes over concatenation, so survivors keep their relative order |
| TaskList.RemoveSingle | src/rsd/service/store/task_store.py:53 | a task survives deletion exactly when its id differs |
| TaskList.LookupRemove | src/rsd/service/store/task_store.py:50-54 | after `delete(id)`, `load(id)` is `None`; other ids load as before |
| TaskRules.Backfilled | src/rsd/service/task_service.py:52 | `completed or created`: a recorded completion wins, else the creation time |
| TaskRules.Toggled | src/rsd/service/task_service.py:67-68 | `done` flips; `completed` is backfilled when becoming done and cleared otherwise; no other field changes |
| TaskRules.MarkDone | src/rsd/service/task_service.py:47-53 | marking done keeps the list's length and the id at every position |
| TaskRules.MarkNotDone | src/rsd/service/task_service.py:55-61 | marking not done keeps the length and every position's id |
| TaskRules.Toggle | src/rsd/service/task_service.py:63-69 | toggling keeps the length and every position's id |
| TaskRules.Pin | src/rsd/service/task_service.py:71-76 | pinning keeps the length and every position's id |
| TaskRules.Unpin | src/rsd/service/task_service.py:78-83 | unpinning keeps the length and every position's id |
| TaskRules.Rename | src/rsd/service/task_service.py:85-90 | renaming keeps the length and every position's id |
| TaskRules.MarkDoneEffect | src/rsd/service/task_service.py:47-53 | marking done changes only the first matching task of a present, not-done id (done, backfilled `completed`); otherwise the list is unchanged |
| TaskRules.MarkNotDoneEffect | src/rsd/service/task_service.py:55-61 | marking not done clears `done` and `completed` of a present, done task; otherwise unchanged |
| TaskRules.ToggleEffect | src/rsd/service/task_service.py:63-69 | toggling a present task flips `done` with the backfill or clear; a missing id changes nothing |
| TaskRules.PinEffect | src/rsd/service/task_service.py:71-83 | pin and unpin change only `pinned`, and only when it differs |
| TaskRules.RenameEffect | src/rsd/service/task_service.py:85-90 | renaming changes only the title of a present task |
| TaskRules.MarkDoneIdempotent | src/rsd/service/task_service.py:47-53 | marking done twice equals marking done once |
| TaskRules.MarkNotDoneIdempotent | src/rsd/service/task_service.py:55-61 | marking not done twice equals once |
| TaskRules.ToggleTwice | src/rsd/service/task_service.py:63-69 | toggling a not-done task without a completion time twice restores the list exactly |
| TaskRules.BackfillCycle | src/rsd/service/task_service.py:47-61 | done, not done, done again: `completed` is the creation time, then cleared, then the creation time again |
| TaskRules.UpsertConsistent | src/rsd/service/store/task_store.py:38-48 | saving a task that satisfies "not done ⇒ no completion time" keeps that invariant for the list |
| TaskRules.DoneRulesKeepConsistency | src/rsd/service/task_service.py:47-69 | mark done, mark not done and toggle preserve "not done ⇒ no completion time" |
| TaskRules.NewTaskConsistent | src/rsd/api/types.py:36-46 | adding a fresh task preserves the invariant |
| Files.Ensured | src/rsd/fs/locked_file.py:33-37 | after `_ensure_exists` the path exists, a missing file is empty, and no existing content changes |
| Files.EnsuredTwice | src/rsd/fs/locked_file.py:33-37 | ensuring a file twice is the same as once |
| Files.ReadResult | src/rsd/fs/locked_file.py:19-24 | a read returns the content, or `""` for a missing file |
| Files.LockedFile.EnsureExists | src/rsd/fs/locked_file.py:33-37 | only the instance's own path may appear, empty; existing content is untouched |
| Files.LockedFile.Read | src/rsd/fs/locked_file.py:19-24 | returns the content (`""` and created when missing) and changes no existing file |
| Files.LockedFile.Write | src/rsd/fs/locked_file.py:26-31 | the path's whole content becomes `data`; no other path changes |
| Files.WriteThenRead | src/rsd/fs/locked_file.py:19-31 | a read after `write(data)` returns `data` |
| Store.RecordJson | src/rsd/service/store/task_store.py:48 | a stored record carries all nine fields, `children` and `tags` included |
| Store.DocumentText | src/rsd/service/store/task_store.py:48 | the document is an array with one record per task |
| Store.DecodeStrings | src/rsd/service/store/task_store.py:26 | a list of strings decodes element by element |
| Store.TimeValue | src/rsd/service/store/task_store.py:26 | a stored `null` time is `None` |
| Store.DecodeRecord | src/rsd/service/store/task_store.py:26 | `Task(**record)` needs an object whose keys are fields and include the four required ones |
| Store.DecodeRecords | src/rsd/service/store/task_store.py:26 | one task per record |
| Store.DecodeRecordsInOrder | src/rsd/service/store/task_store.py:26 | the list decodes exactly when every record does, and then the i-th task is the i-th record's decoding, so the tasks come back in file order |
| Store.DocumentTasks | src/rsd/service/store/task_store.py:25-26 | an array gives exactly the decoding of its records, one task per record in file order; of the other JSON values only `{}` and `""` iterate to the empty list, and the rest raise `TypeError` |
| Store.ParseDocument | src/rsd/service/store/task_store.py:21-28 | an empty or non-JSON document raises `JSONDecodeError` instead of giving `[]` |
| Store.DecodeStringsRoundTrip | src/rsd/service/store/task_store.py:26-48 | stored `children` and `tags` decode back unchanged |
| Store.DecodeRecordRoundTrip | src/rsd/service/store/task_store.py:26-48 | a stored record decodes back to the same task |
| Store.DecodeRecordsRoundTrip | src/rsd/service/store/task_store.py:26-48 | the stored records decode back to the same tasks in order |
| Store.ParseDocumentText | src/rsd/service/store/task_store.py:21-48 | loading a written document gives back the written list |
| Store.TaskStore.LoadAll | src/rsd/service/store/task_store.py:21-28 | returns the stored list in file order; a missing file raises `JSONDecodeError` |
| Store.TaskStore.Load | src/rsd/service/store/task_store.py:30-36 | returns the first task in document order with the id, or `None`; errors of `load_all` propagate |
| Store.TaskStore.Save | src/rsd/service/store/task_store.py:38-48 | the document becomes the upsert of the stored list; no other file changes; a load error writes nothing |
| Store.TaskStore.Delete | src/rsd/service/store/task_store.py:50-54 | the document becomes the stored list without the id; no other file changes |
| Descriptions.DescriptionPath | src/rsd/service/store/description_store.py:19-20 | the path is the folder, `/`, the id and `.md`; an id without `/` names a file directly inside the folder |
| Descriptions.DescriptionPathInjective | src/rsd/service/store/description_store.py:19-20 | different ids without `/` have different description files |
| Descriptions.SaveKeepsOthers | src/rsd/service/store/description_store.py:19-33 | for ids without `/`, saving one id's description leaves every other id's description unchanged |
| Descriptions.LoadKeepsOthers | src/rsd/service/store/description_store.py:19-28 | for ids without `/`, loading one id's description leaves every other id's description unchanged |
| Descriptions.DescriptionStore.DescriptionFile | src/rsd/service/store/description_store.py:19-20 | the description of an id lives at `folder/{id}.md` |
| Descriptions.DescriptionStore.LoadDescription | src/rsd/service/store/description_store.py:22-28 | the stored text, or `""` with the file created; never `None` |
| Descriptions.DescriptionStore.SaveDescription | src/rsd/service/store/description_store.py:30-33 | the whole previous text is replaced |
| Descriptions.SaveThenLoad | src/rsd/service/store/description_store.py:22-33 | a load after saving `s` returns `s` |
| Service.TaskService.ListTasks | src/rsd/service/task_service.py:27-29 | the stored list; a missing document is created empty, and nothing else is written |
| Service.TaskService.GetTask | src/rsd/service/task_service.py:31-33 | the first-match lookup of `task_id.id` |
| Service.TaskService.AddTask | src/rsd/service/task_service.py:35-37 | the stored list becomes its upsert with the task |
| Service.TaskService.UpdateTask | src/rsd/service/task_service.py:39-41 | the same upsert |
| Service.TaskService.DeleteTask | src/rsd/service/task_service.py:43-45 | the stored list loses every task with the id |
| Service.TaskService.MarkDone | src/rsd/service/task_service.py:47-53 | the stored list becomes `MarkDone` of it and only the task document is rewritten; a missing or done task leaves every file as it was |
| Service.TaskService.MarkNotDone | src/rsd/service/task_service.py:55-61 | the stored list becomes `MarkNotDone` of it and only the task document is rewritten; a missing or not-done task leaves every file as it was |
| Service.TaskService.ToggleDone | src/rsd/service/task_service.py:63-69 | the stored list becomes `Toggle` of it and only the task document is rewritten; a missing task leaves every file as it was |
| Service.TaskService.PinTask | src/rsd/service/task_service.py:71-76 | the stored list becomes `Pin` of it and only the task document is rewritten; a missing or pinned task leaves every file as it was |
| Service.TaskService.UnpinTask | src/rsd/service/task_service.py:78-83 | the stored list becomes `Unpin` of it and only the task document is rewritten; a missing or unpinned task leaves every file as it was |
| Service.TaskService.RenameTask | src/rsd/service/task_service.py:85-90 | the stored list becomes `Rename` of it and only the task document is rewritten; a missing task leaves every file as it was |
| Service.TaskService.GetDescription | src/rsd/service/task_service.py:92-94 | as written, always raises `AttributeError` |
| Service.TaskService.SetDescription | src/rsd/service/task_service.py:96-98 | as written, always raises `AttributeError` |
| Service.TaskService.GetDescriptionCorrected | src/rsd/service/task_service.py:92-94 | the description store's text for the id, `""` when it has none |
| Service.TaskService.SetDescriptionCorrected | src/rsd/service/task_service.py:96-98 | the id's description file holds exactly the new text |
| Service.SetThenGetDescription | src/rsd/service/task_service.py:92-98 | through the corrected wiring, a set description is read back unchanged |
| Service.MarkDoneKeepsDescription | src/rsd/service/task_service.py:47-53 | marking a task done leaves every description that is not the task document as it was, also when both stores share one file system |
| TaskApi.List | src/rsd/api/task.py:20-22 | the stored list |
| TaskApi.Get | src/rsd/api/task.py:25-27 | the store's first-match lookup |
| TaskApi.Add | src/rsd/api/task.py:30-32 | the service's store receives the upsert and only the task document is rewritten; a load error only creates the missing document |
| TaskApi.Update | src/rsd/api/task.py:35-37 | exactly the store's upsert |
| TaskApi.Delete | src/rsd/api/task.py:40-42 | exactly the store's delete; only the task document is rewritten |
| TaskApi.DeleteKeepsDescriptions | src/rsd/api/task.py:40-42 | a delete does not cascade to any description file |
| TaskApi.MarkDone | src/rsd/api/task.py:45-51 | the same rule as the service (`MarkDone`); only the task document is rewritten, and a missing or done task leaves every file as it was |
| TaskApi.MarkNotDone | src/rsd/api/task.py:54-60 | the same rule as the service (`MarkNotDone`); only the task document is rewritten, and a missing or not-done task leaves every file as it was |
| TaskApi.Toggle | src/rsd/api/task.py:63-69 | the same rule as the service (`Toggle`); only the task document is rewritten, and a missing task leaves every file as it was |
| TaskApi.Pin | src/rsd/api/task.py:72-77 | the same rule as the service (`Pin`); only the task document is rewritten, and a missing or pinned task leaves every file as it was |
| TaskApi.Unpin | src/rsd/api/task.py:80-85 | the same rule as the service (`Unpin`); only the task document is rewritten, and a missing or unpinned task leaves every file as it was |
| TaskApi.GetDescription | src/rsd/api/task.py:88-90 | the description store's text, `""` for an id without a file |
| TaskApi.SetDescription | src/rsd/api/task.py:93-95 | the id's file holds exactly the new text |
| Pubsub.Registered | src/rsd/pubsub/dbus_pubsub.py:119 | a topic without subscribers has no handlers |
| Pubsub.DispatchOrder | src/rsd/pubsub/dbus_pubsub.py:119 | the topic's handlers followed by the wildcard handlers |
| Pubsub.Call | src/rsd/pubsub/dbus_pubsub.py:126-135 | calling a handler records its invocation, then its caught exception if it raises |
| Pubsub.FanOutLength | src/rsd/pubsub/dbus_pubsub.py:126-135 | each handler adds one or two events (an invocation and maybe its caught failure), so the events number between the handlers and twice the handlers, and exactly the handlers when none raises |
| Pubsub.Invocations | src/rsd/pubsub/dbus_pubsub.py:126-133 | the invoked handlers of a trace, in order |
| Pubsub.InvocationsAppend | src/rsd/pubsub/dbus_pubsub.py:126-133 | invocations of a concatenated trace concatenate |
| Pubsub.FanOutInvokesAll | src/rsd/pubsub/dbus_pubsub.py:126-135 | every handler is invoked once, in order, whichever handlers raise |
| Pubsub.FanOutSameArgument | src/rsd/pubsub/dbus_pubsub.py:124-133 | every handler receives the one decoded value, and the fan-out decodes nothing |
| Pubsub.WildcardTwice | src/rsd/pubsub/dbus_pubsub.py:119 | dispatching on `"*"` calls each wildcard handler twice |
| Pubsub.SubscribeThenDispatch | src/rsd/pubsub/dbus_pubsub.py:91-119 | a new subscriber runs after the topic's earlier handlers and before the wildcard ones |
| Pubsub.BroadcastSignal | src/rsd/pubsub/dbus_pubsub.py:37-40 | the signal carries topic and payload unchanged |
| Pubsub.DbusPubsub.constructor | src/rsd/pubsub/dbus_pubsub.py:44-66 | no subscribers, no interface |
| Pubsub.DbusPubsub.Start | src/rsd/pubsub/dbus_pubsub.py:68-89 | a daemon or a client gets an interface; other modes none |
| Pubsub.DbusPubsub.Subscribe | src/rsd/pubsub/dbus_pubsub.py:91-93 | appends to the topic's list, creating it; other topics unchanged |
| Pubsub.DbusPubsub.Publish | src/rsd/pubsub/dbus_pubsub.py:95-107 | non-text payloads are serialized first; a client schedules (or raises without a task group); a daemon broadcasts, or drops with a warning without an interface |
| Pubsub.DbusPubsub.ClientPublish | src/rsd/pubsub/dbus_pubsub.py:109-114 | never raises: the reply or the failure is logged |
| Pubsub.DbusPubsub.Deliver | src/rsd/pubsub/dbus_pubsub.py:126-135 | the loop over the handlers appends exactly the fan-out's events to the log and leaves the subscription table alone |
| Pubsub.DbusPubsub.DispatchIncoming | src/rsd/pubsub/dbus_pubsub.py:116-135 | no handlers: a warning only, nothing decoded; otherwise one decoding, then the fan-out over topic and wildcard handlers; decoding errors propagate |
| Pubsub.DbusPubsub.HandleBroadcast | src/rsd/pubsub/dbus_pubsub.py:137-139 | a received broadcast dispatches like a publish |
| Pubsub.PubsubInterface.Publish | src/rsd/pubsub/dbus_pubsub.py:31-35 | dispatches and answers `"published"`; fails only when decoding fails with handlers present, with the decoder's error; the log gains exactly what `_dispatch_incoming` logs (a warning alone, the decoding alone, or the decoding and the fan-out); subscriptions and interface unchanged |
| Server.DbusServerInterface.TaskUpdated | src/rsd/ipc/dbus/dbus_server.py:122-125 | the signal carries its payload unchanged |
| Server.DbusServerInterface.BroadcastTaskUpdate | src/rsd/ipc/dbus/dbus_server.py:127-130 | one signal carrying the serialized current list |
| Server.DbusServerInterface.ListTasks | src/rsd/ipc/dbus/dbus_server.py:116-120 | the serialized current list, no signal; the document file is only ensured to exist |
| Server.DbusServerInterface.AddTask | src/rsd/ipc/dbus/dbus_server.py:29-36 | decode, upsert, one `TaskUpdated` carrying the new list, `"ok"`, and no file but the task document changes; an undecodable payload changes nothing; a load error emits nothing |
| Server.DbusServerInterface.UpsertAndBroadcast | src/rsd/ipc/dbus/dbus_server.py:33-36 | after decoding: the document becomes the upsert of the task, one `TaskUpdated` carries the new list and the reply is `"ok"`; a load error propagates with no signal and only the document ensured |
| Server.DbusServerInterface.UpdateTask | src/rsd/ipc/dbus/dbus_server.py:47-54 | decode, upsert, one `TaskUpdated` carrying the new list, `"ok"`, and no file but the task document changes; an undecodable payload changes nothing; a load error emits nothing |
| Server.DbusServerInterface.DeleteTask | src/rsd/ipc/dbus/dbus_server.py:38-45 | decode, delete, one `TaskUpdated` carrying the new list, `"ok"`, and no file but the task document changes; an undecodable payload changes nothing; a load error emits nothing |
| Server.DbusServerInterface.MarkDone | src/rsd/ipc/dbus/dbus_server.py:56-63 | decode, mark done, one `TaskUpdated` carrying the new list, `"ok"`, and no file but the task document changes; an undecodable payload changes nothing; a load error emits nothing |
| Server.DbusServerInterface.MarkNotDone | src/rsd/ipc/dbus/dbus_server.py:65-72 | decode, mark not done, one `TaskUpdated` carrying the new list, `"ok"`, and no file but the task document changes; an undecodable payload changes nothing; a load error emits nothing |
| Server.DbusServerInterface.Toggle | src/rsd/ipc/dbus/dbus_server.py:74-81 | decode, toggle, one `TaskUpdated` carrying the new list, `"ok"`, and no file but the task document changes; an undecodable payload changes nothing; a load error emits nothing |
| Server.DbusServerInterface.Pin | src/rsd/ipc/dbus/dbus_server.py:83-90 | decode, pin, one `TaskUpdated` carrying the new list, `"ok"`, and no file but the task document changes; an undecodable payload changes nothing; a load error emits nothing |
| Server.DbusServerInterface.Unpin | src/rsd/ipc/dbus/dbus_server.py:92-99 | decode, unpin, one `TaskUpdated` carrying the new list, `"ok"`, and no file but the task document changes; an undecodable payload changes nothing; a load error emits nothing |
| Server.DbusServerInterface.SetDescription | src/rsd/ipc/dbus/dbus_server.py:101-107 | through the corrected service call: the id's file holds exactly the text, `"ok"`, no signal |
| Server.DbusServerInterface.GetDescription | src/rsd/ipc/dbus/dbus_server.py:109-114 | through the corrected service call: the stored text, or `""` when there is none or it is empty; the id's description file is only ensured to exist |
| Server.DbusServerInterface.SetDescriptionAsWritten | src/rsd/ipc/dbus/dbus_server.py:101-107 | as written: every payload that decodes is answered with `AttributeError`, and no file changes |
| Server.DbusServerInterface.GetDescriptionAsWritten | src/rsd/ipc/dbus/dbus_server.py:109-114 | as written: every payload that decodes is answered with `AttributeError` |
| Server.DescriptionReply | src/rsd/ipc/dbus/dbus_server.py:114 | `result or ""`: a service error passes through, a non-empty text is returned as it is, and anything else becomes `""` |

## Left out

- Concurrency. The anyio lock, the task group and the D-Bus transport (connect, export, `request_name`, introspection, proxies, disconnect, `DbusServer.start`/`stop`, `DbusPubsub.stop`) are left out; every operation runs to completion before the next. `TaskStore.save` reads and writes under two separate lock acquisitions, so no lost-update freedom is claimed.
- Logging is not modelled.
- Directories are not modelled: `mkdir` in the stores and in `_ensure_exists` has no counterpart. Paths are plain strings with no `pathlib` normalisation.
- Descriptions.DescriptionPath: `pathlib` reads a `/` inside an id as a directory step, and `_ensure_exists` creates the parent directory. So the ids `a/b`, `a//b` and `a/./b` share the file `folder/a/b.md`, and `/x` writes `/x.md` outside the folder. Ids reach the server unchecked from D-Bus payloads. The model keeps the path as one string, so such ids get distinct keys in the file map. `DescriptionPathInjective`, `SaveKeepsOthers` and `LoadKeepsOthers` are therefore stated only for ids without `/`, which is every id `Task.new` makes.
- Dates and JSON text are abstract.
  - A timestamp is a count of ticks. `isoformat`, `str(datetime)` (used by `default=str`) and `%Y-%m-%d` are a decimal rendering of the ticks or of whole days, so the `T` versus space separator difference between them does not appear.
  - JSON text is represented by the value it encodes, so formatting (`indent=4`) is not modelled.
- Wire.Loads: `json.loads` parses any JSON document. The model follows a convention: JSON text is always written as `Dumped(value)`, and `Plain` stands for text that is not JSON (the empty file, a Markdown description). A hand-written JSON file is therefore `Dumped` of its value. A `Plain` holding JSON, such as `Plain("[]")`, fails to load in the model, and such text never arises in the modelled operations.
- Store.DecodeRecord: parses the stored timestamps back and requires the JSON type of each field, while `Task(**task)` keeps whatever value is stored (a timestamp stays a string). Loading a document written by the store gives the same tasks either way.
- Deserializer.StringField: a non-string `id` or `task` raises `TypeError`, where `deserialize.py:33-34` copies the value into the task.
- Deserializer.BoolField: a non-boolean `done` or `pinned` raises `TypeError`, where `deserialize.py:35,39` copies the value.
- Store.DecodeStrings: stored `children` and `tags` must be arrays of strings or the load raises `TypeError`, while `Task(**task)` keeps any value. The store itself only ever writes string arrays.
- Store.TimeValue: a stored timestamp string is parsed back into a timestamp, while `Task(**task)` keeps the string. Anything else the store wrote reads back the same either way (`Store.ParseDocumentText`).
- Deserializer.Deserialize: requires `id` and `task` to be strings and `done`/`pinned` to be booleans, raising `TypeError` otherwise; the source copies whatever JSON value is there.
- Types.Id: `src/rsd/api/types.py` defines no `Id`, yet serialize.py:20, deserialize.py:20, sorting.py:14 and task_service.py:12 import it from there. As written those imports raise `ImportError`, so none of these modules loads. The model supplies `Id` as a one-field wrapper of the id string, which is how every call site uses it (`Id(id=...)`, `Id(x)`, `.id`). Every member that handles an `Id` describes the modules as if that import succeeded.
- Server.DbusServerInterface.AddTask: a payload that decodes to an `Id` is refused with `TypeError` before the service is called. `Id` is not defined in `src/rsd/api/types.py`, so what saving one would write is not determined by the source.
- Server.DbusServerInterface.UpdateTask: the same as `AddTask` for an `Id` payload.
- Server.DbusServerInterface.SetDescription: models the corrected wiring through `TaskService.SetDescriptionCorrected`. As written (`dbus_server.py:105`, `task_service.py:96-98`), every payload that decodes is answered with `AttributeError` and no file changes. `Server.DbusServerInterface.SetDescriptionAsWritten` states that outcome (see Findings).
- Server.DbusServerInterface.GetDescription: models the corrected wiring. As written (`dbus_server.py:113`, `task_service.py:92-94`), every payload that decodes is answered with `AttributeError`, as `Server.DbusServerInterface.GetDescriptionAsWritten` states.
- Sorting.SortTasks: the optional `key` argument is fixed to the default key.
- Sorting.TaskIdByIndex: the optional `key` argument is fixed to the default key.
- Types.LowerChar: lowers ASCII capitals, KELVIN SIGN (to `k`) and U+0130 (to `i` and a combining dot). Every other character is kept as it is, so a non-ASCII letter Python would lower stays upper case in `Lower`'s result. Neither such a letter nor its lower case is in `[a-zA-Z0-9]`, so either way it falls in a run of other characters that becomes one dash, and the slug is the same.
- Types.NewTask: `uuid4()` and `datetime.now()` are parameters.
- Pubsub.DbusPubsub: the serializer and deserializer passed to the constructor are the API's `serialize` and `deserialize`. A handler is known only by its identity: whether it raises is an input, and nothing else it might do is modelled. The sync/async distinction in dispatch reduces to calling in order.
- Pubsub.DbusPubsub.ClientPublish: the outcome of the remote call is an input.
- The module-level singletons of `src/rsd/api/task.py:15-17` are replaced by explicit store parameters. As written, `TaskService(task_store)` passes a `TaskStore` object where a path is expected, so `Path(...)` raises `TypeError` when that module is imported.
- The D-Bus client (`src/rsd/ipc/dbus/dbus_client.py`) and the rest of the repository (configuration, entry points, renderers) are not part of this model.

## Findings

| source | as written | input that shows it | evidently intended | confidence | as-written member | corrected member |
|---|---|---|---|---|---|---|
| src/rsd/service/task_service.py:92-94 | `get_description` calls `self.store.load_description`, which `TaskStore` does not define | `get_description(Id("a"))` raises `AttributeError` | read the id's text from the description store | high (not executed) | Service.TaskService.GetDescription | Service.TaskService.GetDescriptionCorrected |
| src/rsd/service/task_service.py:96-98 | `set_description` calls `self.store.save_description`, which `TaskStore` does not define | `set_description(Id("a"), "x")` raises `AttributeError` | write the text to the description store | high (not executed) | Service.TaskService.SetDescription | Service.TaskService.SetDescriptionCorrected |

The server's `SetDescription` and `GetDescription` use the corrected pair. `SetDescriptionAsWritten` and `GetDescriptionAsWritten` give the server's answers as written.
`Service.SetThenGetDescription` proves the intended round trip through it.
