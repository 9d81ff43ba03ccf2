# CloudScribe server core, modelled in Dafny

CloudScribe is a journal service whose server keeps one document in memory, synchronised
with a remote encrypted fragment store. This project models three parts of its backend:

- **Background jobs** (`background.dfy`, module `Background`): the `Trigger` constructor that
  normalises loosely typed arguments, the job kind `AsyncProcessor.addJob` picks for a
  trigger, and `ThreadManager`, a registry of processors by name (insertion ordered) with a
  default processor.
- **Document cache** (`database.dfy`, module `Database`): `ScribeDB` with its operational
  flag, `setup`, `refresh_local`, `live_reader`, `write`, `read`, the note operations
  `load_entries`, `save_entry`, `delete_entry`, and `shutdown`. The store's client
  (`CloudFragment`) is a small class that records every exchange it is asked for. What
  the remote side answers is a parameter of each operation.
- **Records** (`models.dfy`, module `Models`): `Note` and `Journal` and their
  `from_dict`/`to_dict` conversions.

`json.dfy` (module `Json`) gives Python's decoded JSON values. A `dict` is an association
list kept in insertion order, because the order of a Python dict can be observed.
`d[k] = v` keeps an existing key's position and appends a new key; `del d[k]` drops the
one entry. `wrappers.dfy` holds `Option` and `Result`.

Raised exceptions become `Err` results. `ScribeDB` operations return `Status`
(`Ok(())` for the source's `True`/`None`) and a `DbError` that says which check raised.

Modelling decisions:
- `DB_MODE` is the constant `ScribeDB.mode`.
- The class-level singletons are objects: `ThreadManager` and `ScribeDB` instances.
- `ThreadManager.data` is a `map` plus `names`, a sequence holding its keys in insertion order.
- A processor is an opaque value: its uuid and the options it was started with.
- `addJob` is a function. It returns the chosen `Schedule` and the job id that the
  scheduler hands out, which is passed in as a parameter.

Behaviour of the code worth knowing, which the model follows:
- `setup` sets the operational flag as soon as the initial read succeeds. That is before
  the stream is opened and before the refresh job is added. A failing `initStream`, or a
  missing default processor, therefore raises with the flag already set.
- Stream initialisation fails on any string result, not only on one starting with "ERROR".
- `shutdown` does not clear the flag, so it is not idempotent: a second call in stream mode disconnects again.
- The code does not reject a zero-length interval trigger.
- `load_entries`, `save_entry` and `delete_entry` do not check the flag. Only `write` does,
  so `load_entries` runs on a client whose setup failed after the client was created. What it
  returns then depends on the client's initial document. The model assumes that document is an
  empty dict (see "## Left out"), which gives [].
- `Note.from_dict` gives a missing `modified` the value `""`, not `None`.

## Model

| member | source | states |
|---|---|---|
| `Background.ImmediateIff` | server/src/background.py:30-32 | `immediate` holds exactly when seconds, minutes, hours and triggerDate are all omitted, whatever `type` is |
| `Background.StoredDurations` | server/src/background.py:33-35 | an omitted duration is stored as 0 and a given one unchanged; an interval job's period is seconds + 60·minutes + 3600·hours |
| `Background.DocstringInterval` | server/src/background.py:20 | `Trigger(type='interval', seconds=5, minutes=3, hours=2)` gives an interval job every 2 h 3 min 5 s, 7385 seconds cumulatively |
| `Background.AddJobDefault` | server/src/background.py:101 | `addJob` without a trigger is `addJob` with `Trigger()`, which registers an immediate job |
| `Background.AddJobOrder` | server/src/background.py:101-117 | in terms of the constructor arguments: a custom trigger wins, even over an immediate one; then immediate; then `type == "date"`, which raises when no date is given; then interval. The job id is the scheduler's |
| `Background.WithoutMembers` | server/src/background.py:239 | removing a name from the registry's key order keeps exactly the other names, still distinct |
| `Background.WithoutAt` | server/src/background.py:239 | removing a name drops exactly its position and keeps the order of the others |
| `Background.ThreadManager.constructor` | server/src/background.py:176-177 | the registry starts empty with no default processor |
| `Background.ThreadManager.List` | server/src/background.py:180-182 | `list()` names every registered processor exactly once, in registration order |
| `Background.ThreadManager.Info` | server/src/background.py:211-213 | `info(name)` is the record registered under `name` (whose own name is `name`), or None exactly when `name` is not listed |
| `Background.ThreadManager.GetProcessorWithName` | server/src/background.py:216-221 | the processor of the entry `name`, or None exactly when `name` is not listed |
| `Background.ThreadManager.New` | server/src/background.py:193-208 | a taken name yields the error message and leaves the registry and its entries unchanged; otherwise exactly one entry is added under `name`, with the new processor and the given source, and `list()` gains `name` at the end; the default pointer is untouched |
| `Background.ThreadManager.InitDefault` | server/src/background.py:185-190 | raises when "default" is registered, changing nothing; otherwise registers "default" from "main.py" and makes that same processor the default |
| `Background.ThreadManager.GetProcessorWithID` | server/src/background.py:224-229 | the first processor in name order whose id matches; None exactly when no registered processor has that id |
| `Background.ThreadManager.CloseThread` | server/src/background.py:232-245 | an absent name returns False and changes nothing; otherwise only that entry is removed (key order of the rest kept), it returns True, and the default pointer is cleared exactly when the name is "default" |
| `Background.ThreadManager.Shutdown` | server/src/background.py:248-256 | closes every entry: afterwards the registry is empty, there is no default and the result is True, so a second call gives the same |
| `Json.GetSetSame` | server/src/database.py:163 | after `d[k] = v`, `d[k]` is `v` |
| `Json.GetSetOther` | server/src/database.py:163 | `d[k] = v` leaves every other key's value unchanged |
| `Json.KeysSet` | server/src/database.py:163 | `d[k] = v` keeps the key order when `k` was present and appends `k` otherwise |
| `Json.SetAbsentAppends` | server/src/database.py:158 | assigning an absent key is an append at the end |
| `Json.SetTwice` | server/src/database.py:157-161 | assigning the same key twice equals assigning the second value once, in the same position |
| `Json.SetEntries` | server/src/database.py:163 | after `d[k] = v` every entry is the new one or one `d` already had |
| `Json.UniqueSet` | server/src/database.py:163 | assignment keeps the keys distinct |
| `Json.GetAt` | server/src/database.py:148 | looking up an entry's key in a dict finds that entry's value |
| `Json.GetIffInKeys` | server/src/database.py:174 | `k in d` holds exactly when `k` is among the keys |
| `Json.GetRemoveSame` | server/src/database.py:175 | after `del d[k]`, `k` is absent |
| `Json.GetRemoveOther` | server/src/database.py:175 | `del d[k]` leaves every other key's value unchanged |
| `Json.RemoveDropsOneEntry` | server/src/database.py:174-175 | `del d[k]` drops exactly the entry for `k` and keeps the others in order; nothing changes when `k` is absent |
| `Json.RemoveIndex` | server/src/database.py:174-175 | `del d[k]` on a present key drops the entry at its position and keeps the rest in order |
| `Json.RemoveAbsent` | server/src/database.py:174 | with `k` absent the dict is left as it was |
| `Json.UniqueRemove` | server/src/database.py:175 | removal keeps the keys distinct |
| `Models.StrItems` | server/src/models.py:42 | a list is a valid `list[str]` exactly when every item is a string, and then it holds those strings in order |
| `Models.NoteToDictKeys` | server/src/models.py:55-63 | `Note.to_dict` has exactly the keys id, title, content, created, modified, tags, each once |
| `Models.NoteToDictGet` | server/src/models.py:55-63 | each key of `Note.to_dict` holds its field, with `None` written as null |
| `Models.JournalToDictShape` | server/src/models.py:25-34 | `Journal.to_dict` has exactly the seven record keys, each once, and its notes list holds one note dict per note, in order |
| `Models.JournalToDictGet` | server/src/models.py:25-32 | each string key of `Journal.to_dict` holds its field |
| `Models.StrItemsRoundTrip` | server/src/models.py:52 | the written tags read back unchanged |
| `Models.NoteRoundTrip` | server/src/models.py:44-63 | `Note.from_dict(n.to_dict()) == n` for every note, `modified == None` included |
| `Models.NoteDefaults` | server/src/models.py:47-52 | each missing key takes its own default whatever else the dict holds: "" for id, title, content and created, `""` (not None) for modified, [] for tags |
| `Models.NoteAcceptedIff` | server/src/models.py:36-53 | `Note.from_dict` succeeds exactly when every present key holds its declared type (strings, a string or null for modified, a list of strings for tags); a bad id raises for id, then a bad title for title |
| `Models.NoteFieldsTaken` | server/src/models.py:46-53 | a key that is present is taken unchanged; `modified` is None exactly when it is null in the dict |
| `Models.DictItemsOfNoteDicts` | server/src/models.py:14 | filtering a list of note dicts keeps all of them |
| `Models.NotesFromNoteDicts` | server/src/models.py:14 | reading back the dicts of a note list gives that list |
| `Models.JournalRoundTrip` | server/src/models.py:12-34 | `Journal.from_dict(j.to_dict()) == j`, the order of the notes preserved |
| `Models.JournalDefaults` | server/src/models.py:14-21 | each missing key takes its own default whatever else the dict holds: "" for each string field, [] for notes; a dict or a string under notes also gives [] |
| `Models.NotesFromDictsOkIff` | server/src/models.py:14 | the note list is built exactly when every dict in it reads as a note |
| `Models.JournalAcceptedIff` | server/src/models.py:3-23 | `Journal.from_dict` succeeds exactly when notes are absent, a dict, a string or a list whose dict entries all read as notes, and every present string key holds a string; None, a bool or an int under notes raises as not iterable |
| `Models.DictItemsAppend` | server/src/models.py:14 | the filter works entry by entry: it keeps dict entries and drops the rest, in their original order |
| `Models.DictItemsSingle` | server/src/models.py:14 | one entry is kept exactly when it is a dict |
| `Models.NotesFromDictsShape` | server/src/models.py:14 | a successful list of notes has one note per dict, each read from its dict |
| `Models.JournalKeepsDictNotes` | server/src/models.py:14 | a journal read from a dict whose notes are a list holds one note per dict entry of that list, in order |
| `Database.CloudFragment.constructor` | server/src/database.py:35-39 | a new client has an empty document, the given secret, no stream and no exchanges |
| `Database.CloudFragment.RequestFragment` | server/src/database.py:62 | the request is recorded and its answer returned |
| `Database.CloudFragment.ReadDoc` | server/src/database.py:103 | the read is recorded and a document answer becomes the client's copy |
| `Database.CloudFragment.WriteDoc` | server/src/database.py:124 | the write of that document is recorded, and unless rejected the document becomes the client's copy |
| `Database.CloudFragment.OpenStream` | server/src/database.py:84 | the stream initialisation is recorded; a non-string answer leaves a stream in place |
| `Database.CloudFragment.DisconnectStream` | server/src/database.py:185 | the disconnect is recorded |
| `Database.ScribeDB.constructor` | server/src/database.py:9-11 | no client, not operational, no refresh job |
| `Database.ScribeDB.RefreshLocal` | server/src/database.py:98-113 | not operational: raises and issues no remote call; otherwise one read over the configured transport, which raises exactly when the answer is an "ERROR" string |
| `Database.ScribeDB.LiveReader` | server/src/database.py:42-46 | has the effect of `refresh_local` and never raises |
| `Database.ScribeDB.Write` | server/src/database.py:116-134 | not operational: raises and issues no remote call; otherwise sends the given document, or the cached one when None, and raises exactly when the answer is an "ERROR" string |
| `Database.ScribeDB.Read` | server/src/database.py:137-139 | refreshes, then returns the cached document, which is the store's answer when that was a document |
| `Database.ScribeDB.LoadEntries` | server/src/database.py:142-151 | with a client, returns `Entries` of the cached document: [] when notes are missing or not a dict, else one note per value in dict order; raises when there is no client |
| `Database.ScribeDB.SaveEntry` | server/src/database.py:154-165 | sends exactly `SavedDoc` of the cached document; the cached document changes only through a successful write |
| `Database.ScribeDB.DeleteEntry` | server/src/database.py:168-177 | returns without any remote call when notes are missing or not a dict; otherwise sends exactly `DeletedDoc`, also when the id was absent |
| `Database.ScribeDB.Connect` | server/src/database.py:49-78 | first run: a blank secret raises before any exchange; the secret is stored, and a request answered with "ERROR" raises before any read; then one HTTP read, which raises on an "ERROR" answer |
| `Database.ScribeDB.Setup` | server/src/database.py:49-95 | the flag becomes true only when the initial read succeeded after the first-run checks; in stream mode a string answer to `initStream` raises; success needs a default processor and then registers an interval refresh job of the given seconds on it |
| `Database.ScribeDB.StartRefresh` | server/src/database.py:83-95 | the part of setup after the flag: in stream mode one `initStream`, which raises on a string answer; then, with a default processor, an interval refresh job of the given seconds; the cached document and the flag are untouched |
| `Database.ScribeDB.Shutdown` | server/src/database.py:180-192 | does nothing when not operational; otherwise disconnects only in stream mode with a stream |
| `Database.NotesOfValuesSingle` | server/src/database.py:148-149 | one value reads as one note, or raises when it is not a dict or not a valid note |
| `Database.NotesOfValuesAppend` | server/src/database.py:147-149 | notes are read left to right, and the first bad value is the one that raises |
| `Database.NotesOfValuesShape` | server/src/database.py:147-151 | a successful read has one note per value, each read from its dict |
| `Database.EntriesShape` | server/src/database.py:142-151 | `load_entries` returns [] when notes are missing or not a dict, and otherwise one note per notes entry, in the dict's order |
| `Database.GetOtherThanNotes` | server/src/database.py:163 | assigning `"notes"` leaves the other top-level keys unchanged |
| `Database.SavedDocShape` | server/src/database.py:155-165 | the written notes map `note.id` to `note.to_dict()` and keep every other entry, the new id last when new; missing or non-dict notes become a one-entry dict; other top-level keys are kept |
| `Database.SavedDocUnique` | server/src/database.py:155-163 | saving keeps the keys of the document and of its notes dict distinct |
| `Database.NotesOfValuesOkIff` | server/src/database.py:147-149 | reading the notes dict's values succeeds exactly when every value is a dict that reads as a note |
| `Database.SavedDocLoadable` | server/src/database.py:142-165 | when `load_entries` succeeds on a document, it also succeeds on the document `save_entry(note)` writes, and `note` is among the result |
| `Database.SavedNoteLoadsBack` | server/src/database.py:142-165 | whenever `load_entries` succeeds on the document `save_entry(note)` wrote, `note` is among the result |
| `Database.DeletedDocShape` | server/src/database.py:168-177 | nothing is written exactly when notes are missing or not a dict; otherwise only the entry for `note_id` is gone, the others are kept in order, and the top-level keys are kept |
| `Database.DeleteAfterSave` | server/src/database.py:155-177 | deleting a note just saved leaves no entry for its id and every other entry as before the save |
| `Database.ErrorResults` | server/src/database.py:104-105 | an answer fails exactly when it is a string starting with "ERROR"; documents and True never do |
| `Database.RefreshJobPeriod` | server/src/database.py:90-93 | the refresh trigger built by setup registers an interval job whose period is the configured seconds |

## Left out

- APScheduler: starting, pausing, resuming and shutting down schedulers, real firing times and misfire handling. It is a foreign library with its own threads. A processor is an opaque value with an id, and `closeThread` removes the entry without modelling the scheduler's shutdown.
- The log prints, and the values of `uuid4` and `datetime.now`. The prints are output only. The uuid and time values are inputs (`id`, `created`, `jobId`).
- `addJob`'s callable and its arguments. They are opaque to the dispatch. A callable without `__name__`, which would make the log line raise, is not modelled.
- The `CloudFragment` network client. Its source is not part of this model. The model assumes four things about it: a new client's document is an empty dict; a read answered with a document makes that document
  the client's copy; a write that is not rejected makes the written document the client's copy; and a successful stream initialisation leaves a stream in place. Stream history is not modelled.
- Database.ScribeDB.Read: returns the cached document as a value. In the code, `read()` hands out the client's live `data` dict itself, not a copy, so a caller that mutates the result changes the cache. That aliasing is not modelled.
- `_streamLock` and `time.sleep(0.5)`. They serve concurrency and timing only, and the model is sequential.
- File I/O: choosing the first-run branch (`firstRun` is a parameter), reading and saving the credentials file, and writing the debug stream log.
- Interactive `input()` prompts. The typed secret is a parameter, and the second prompt only waits.
- Environment variables: `DB_MODE` is `ScribeDB.mode`. `DB_REFRESH_INTERVAL` is the `refreshSeconds` parameter, and its failing `int()` conversion is not modelled.
- Models.NoteFromDict: models strict type checks. The record library's type coercion (for instance a number given for a string field) is not modelled, so a value of the wrong JSON kind always raises here.
- Json: numbers are integers. Floating point values are not modelled.
- server/src/main.py: its HTTP handlers call `ScribeDB` operations and use record fields that the modelled files do not define: users, user and journal CRUD, and owner-scoped lookups.
- server/src/dependencies.py: header-based authentication that depends on user lookups that are not part of this model.
