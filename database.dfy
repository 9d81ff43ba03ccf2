/**
 * The document cache: one process-wide document kept in the remote fragment store's
 * client, an operational flag that gates refreshing and writing, and the note
 * operations that snapshot the document, change its `"notes"` dictionary and write the
 * result back. The client's network exchanges are not modelled: every call the cache
 * issues is recorded, and what the remote side answers is a parameter.
 */
module Database {
  import opened Wrappers
  import opened Json
  import opened Models
  import opened Background

  /** The transport, fixed for the process (the `DB_MODE` setting). */
  datatype Mode = Http | Stream

  /** One exchange the cache asks the client to perform. */
  datatype Call =
    | Request              // first-run request for a new fragment
    | Read(mode: Mode)     // `read()` over HTTP or `readWS()` over the stream
    | Write(mode: Mode, doc: Fields)
    | InitStream
    | Disconnect

  /** A remote result is a failure exactly when it is a string that starts with "ERROR". */
  predicate IsErrorText(s: string) {
    "ERROR" <= s
  }

  predicate IsError(res: Json) {
    res.Str? && IsErrorText(res.s)
  }

  /** The client's state as the cache sees it. */
  datatype FragmentState = FragmentState(
    data: Fields,        // the client's copy of the document
    secret: string,
    stream: bool,        // a stream connection object exists
    calls: seq<Call>)    // every exchange issued so far, in order

  /** A read records the call and, when the store answers with a document, the client
      keeps it as its copy. */
  function AfterRead(st: FragmentState, mode: Mode, reply: Json): FragmentState {
    st.(calls := st.calls + [Read(mode)], data := if reply.Dict? then reply.fields else st.data)
  }

  /** A write records the call and, unless the store rejects it, the client's copy becomes
      the written document. */
  function AfterWrite(st: FragmentState, mode: Mode, doc: Fields, reply: Json): FragmentState {
    st.(calls := st.calls + [Write(mode, doc)], data := if IsError(reply) then st.data else doc)
  }

  /** The client of the remote fragment store. The answers of the store are parameters. */
  class CloudFragment {
    var data: Fields
    var secret: string
    var stream: bool
    var calls: seq<Call>

    constructor (secret: string)
      ensures State() == FragmentState([], secret, false, [])
    {
      this.data, this.secret, this.stream, this.calls := [], secret, false, [];
    }

    function State(): FragmentState
      reads this
    {
      FragmentState(data, secret, stream, calls)
    }

    method RequestFragment(reply: string) returns (res: string)
      modifies this
      ensures res == reply
      ensures State() == old(State()).(calls := old(calls) + [Request])
    {
      calls := calls + [Request];
      res := reply;
    }

    method ReadDoc(mode: Mode, reply: Json) returns (res: Json)
      modifies this
      ensures res == reply
      ensures State() == AfterRead(old(State()), mode, reply)
    {
      calls := calls + [Read(mode)];
      if reply.Dict? {
        data := reply.fields;
      }
      res := reply;
    }

    method WriteDoc(mode: Mode, doc: Fields, reply: Json) returns (res: Json)
      modifies this
      ensures res == reply
      ensures State() == AfterWrite(old(State()), mode, doc, reply)
    {
      calls := calls + [Write(mode, doc)];
      if !IsError(reply) {
        data := doc;
      }
      res := reply;
    }

    /** Any string answer is a failed stream initialisation. */
    method OpenStream(reply: Json) returns (res: Json)
      modifies this
      ensures res == reply
      ensures State() == old(State()).(calls := old(calls) + [InitStream], stream := old(stream) || !reply.Str?)
    {
      calls := calls + [InitStream];
      if !reply.Str? {
        stream := true;
      }
      res := reply;
    }

    method DisconnectStream()
      modifies this
      ensures State() == old(State()).(calls := old(calls) + [Disconnect])
    {
      calls := calls + [Disconnect];
    }
  }

  /** What the cache's operations raise. */
  datatype DbError =
    | NotOperational(operation: string)
    | NoFragment                          // the client is still None
    | EmptySecret
    | RequestFailed(message: string)
    | ReadFailed(message: string)
    | WriteFailed(message: string)
    | StreamInitFailed(message: string)
    | NoDefaultProcessor                  // the registry has no default processor
    | NoteNotDict                         // a `"notes"` value is not a dict
    | NoteInvalid(error: ModelError)

  type Status = Result<(), DbError>

  /** Python's `str.isspace` on one character. */
  predicate IsSpace(c: char) {
    || c == ' ' || 9 <= c as int <= 13 || 28 <= c as int <= 31
    || c as int == 0x85 || c as int == 0xA0 || c as int == 0x1680
    || 0x2000 <= c as int <= 0x200A || c as int == 0x2028 || c as int == 0x2029
    || c as int == 0x202F || c as int == 0x205F || c as int == 0x3000
  }

  /** `not s.strip()` */
  predicate IsBlank(s: string) {
    forall i :: 0 <= i < |s| ==> IsSpace(s[i])
  }

  /** Setup's checks before the flag is set: a non-blank secret and an accepted request on a
      first run, then an initial read that did not fail. */
  predicate SetupReadsOk(firstRun: bool, secret: string, requestReply: string, readReply: Json) {
    && (firstRun ==> !IsBlank(secret) && !IsErrorText(requestReply))
    && !IsError(readReply)
  }

  /** Whether setup gets as far as the initial read. */
  predicate SetupReaches(firstRun: bool, secret: string, requestReply: string) {
    firstRun ==> !IsBlank(secret) && !IsErrorText(requestReply)
  }

  /** The exchanges setup issues before the flag is set. The initial read is an HTTP read
      in either mode. */
  function ConnectCalls(firstRun: bool, secret: string, requestReply: string): seq<Call> {
    (if firstRun && !IsBlank(secret) then [Request] else [])
    + (if SetupReaches(firstRun, secret, requestReply) then [Read(Http)] else [])
  }

  // ------------------------------------------------- the note operations, as values

  /** The notes dictionary of a document, when `"notes"` holds one. */
  function NotesDict(doc: Fields): Option<Fields> {
    match Get(doc, "notes")
    case Some(Dict(fs)) => Some(fs)
    case _ => None
  }

  /** The document `save_entry(note)` writes: the note's dict under its id in the notes
      dict, which starts empty when `"notes"` is missing or not a dict. */
  function SavedDoc(doc: Fields, note: Note): Fields {
    var notes := NotesDict(doc).GetOr([]);
    Set(doc, "notes", Dict(Set(notes, note.id, Dict(NoteToDict(note)))))
  }

  /** The document `delete_entry(noteId)` writes, or nothing when `"notes"` is not a dict. */
  function DeletedDoc(doc: Fields, noteId: string): Option<Fields> {
    match NotesDict(doc)
    case None => None
    case Some(notes) =>
      var notes' := if Get(notes, noteId).Some? then Remove(notes, noteId) else notes;
      Some(Set(doc, "notes", Dict(notes')))
  }

  /** `Note.from_dict(v)` on one value of the notes dict: a value that is not a dict has no
      `.get` and raises. */
  function NoteOfValue(v: Json): Result<Note, DbError> {
    match v
    case Dict(fs) =>
      var n := NoteFromDict(fs);
      if n.Err? then Err(NoteInvalid(n.error)) else Ok(n.value)
    case _ => Err(NoteNotDict)
  }

  /** `[Note.from_dict(v) for v in values]`, raising at the first value that is not a dict
      or not a valid note. */
  function NotesOfValues(values: seq<Json>): Result<seq<Note>, DbError> {
    if values == [] then Ok([])
    else
      var first := NoteOfValue(values[0]);
      var rest := NotesOfValues(values[1..]);
      if first.Err? then Err(first.error)
      else if rest.Err? then rest
      else Ok([first.value] + rest.value)
  }

  /** What `load_entries()` returns for a document. */
  function Entries(doc: Fields): Result<seq<Note>, DbError> {
    match NotesDict(doc)
    case None => Ok([])
    case Some(notes) => NotesOfValues(Values(notes))
  }

  /** The state of `ScribeDB`. */
  datatype RefreshJob = RefreshJob(processor: Processor, job: Job)

  class ScribeDB {
    const mode: Mode
    var fragment: CloudFragment?
    var operational: bool
    var refreshJob: Option<RefreshJob>   // the periodic `live_reader` job setup adds

    ghost predicate Valid()
      reads this
    {
      operational ==> fragment != null
    }

    constructor (mode: Mode)
      ensures Valid()
      ensures this.mode == mode && fragment == null && !operational && refreshJob == None
    {
      this.mode := mode;
      fragment, operational, refreshJob := null, false, None;
    }

    /** `refresh_local()`: one read over the configured transport. */
    method RefreshLocal(reply: Json) returns (r: Status)
      requires Valid()
      modifies fragment
      ensures !operational ==>
        r == Err(NotOperational("refresh_local")) && (fragment != null ==> fragment.State() == old(fragment.State()))
      ensures operational ==>
        && fragment.State() == AfterRead(old(fragment.State()), mode, reply)
        && r == if IsError(reply) then Err(ReadFailed(reply.s)) else Ok(())
    {
      if !operational {
        return Err(NotOperational("refresh_local"));
      }
      var res := fragment.ReadDoc(mode, reply);
      if IsError(res) {
        return Err(ReadFailed(res.s));
      }
      r := Ok(());
    }

    /** `live_reader()`: the periodic job. It refreshes and swallows whatever that raises. */
    method LiveReader(reply: Json)
      requires Valid()
      modifies fragment
      ensures !operational ==> fragment != null ==> fragment.State() == old(fragment.State())
      ensures operational ==> fragment.State() == AfterRead(old(fragment.State()), mode, reply)
    {
      var _ := RefreshLocal(reply);
    }

    /** `write(doc)`: sends `doc`, or the cached document when `doc` is None. */
    method Write(doc: Option<Fields>, reply: Json) returns (r: Status)
      requires Valid()
      modifies fragment
      ensures !operational ==>
        r == Err(NotOperational("write")) && (fragment != null ==> fragment.State() == old(fragment.State()))
      ensures operational ==>
        && fragment.State() == AfterWrite(old(fragment.State()), mode, doc.GetOr(old(fragment.data)), reply)
        && r == if IsError(reply) then Err(WriteFailed(reply.s)) else Ok(())
    {
      if !operational {
        return Err(NotOperational("write"));
      }
      var sent := if doc.None? then fragment.data else doc.value;
      var res := fragment.WriteDoc(mode, sent, reply);
      if IsError(res) {
        return Err(WriteFailed(res.s));
      }
      r := Ok(());
    }

    /** `read()`: refreshes, then returns the cached document. */
    method Read(reply: Json) returns (r: Result<Fields, DbError>)
      requires Valid()
      modifies fragment
      ensures !operational ==>
        r == Err(NotOperational("refresh_local")) && (fragment != null ==> fragment.State() == old(fragment.State()))
      ensures operational ==>
        && fragment.State() == AfterRead(old(fragment.State()), mode, reply)
        && r == if IsError(reply) then Err(ReadFailed(reply.s)) else Ok(fragment.data)
      ensures operational && !IsError(reply) && reply.Dict? ==> r == Ok(reply.fields)
    {
      var refreshed := RefreshLocal(reply);
      if refreshed.Err? {
        return Err(refreshed.error);
      }
      r := Ok(fragment.data);
    }

    /** `load_entries()`: one note per value of the cached `"notes"` dict, in its order. It does
        not check the flag; it raises only when there is no client yet or a value is not a note. */
    method LoadEntries() returns (r: Result<seq<Note>, DbError>)
      requires Valid()
      ensures fragment == null ==> r == Err(NoFragment)
      ensures fragment != null ==> r == Entries(fragment.data)
    {
      if fragment == null {
        return Err(NoFragment);
      }
      var data := fragment.data;
      var notesDict := NotesDict(data);
      if notesDict.None? {
        return Ok([]);
      }
      var values := Values(notesDict.value);
      var notes: seq<Note> := [];
      for i := 0 to |values|
        invariant NotesOfValues(values[..i]) == Ok(notes)
      {
        NotesOfValuesAppend(values[..i], [values[i]]);
        NotesOfValuesAppend(values[..i + 1], values[i + 1..]);
        assert values[..i + 1] == values[..i] + [values[i]];
        assert values == values[..i + 1] + values[i + 1..];
        var note := NoteOfValue(values[i]);
        NotesOfValuesSingle(values[i]);
        if note.Err? {
          return Err(note.error);
        }
        notes := notes + [note.value];
      }
      assert values[..|values|] == values;
      r := Ok(notes);
    }

    /** `save_entry(note)`: snapshot, put the note's dict under its id in `"notes"`, write. */
    method SaveEntry(note: Note, reply: Json) returns (r: Status)
      requires Valid()
      modifies fragment
      ensures fragment == null ==> r == Err(NoFragment)
      ensures fragment != null && !operational ==>
        r == Err(NotOperational("write")) && fragment.State() == old(fragment.State())
      ensures operational ==>
        && fragment.State() == AfterWrite(old(fragment.State()), mode, SavedDoc(old(fragment.data), note), reply)
        && r == if IsError(reply) then Err(WriteFailed(reply.s)) else Ok(())
    {
      if fragment == null {
        return Err(NoFragment);
      }
      ghost var base := fragment.data;
      var data := fragment.data;
      if Get(data, "notes").None? {
        data := Set(data, "notes", List([]));
        GetSetSame(base, "notes", List([]));
      }
      if !Get(data, "notes").value.Dict? {
        if Get(base, "notes").None? {
          SetTwice(base, "notes", List([]), Dict([]));
        }
        data := Set(data, "notes", Dict([]));
        GetSetSame(base, "notes", Dict([]));
      }
      var notes := Get(data, "notes").value.fields;
      var entry := Dict(NoteToDict(note));
      if data != base {
        SetTwice(base, "notes", Dict([]), Dict(Set(notes, note.id, entry)));
      }
      data := Set(data, "notes", Dict(Set(notes, note.id, entry)));
      assert data == SavedDoc(base, note);
      r := Write(Some(data), reply);
    }

    /** `delete_entry(noteId)`: when `"notes"` is a dict, drop `noteId` from it if present and
        write, even when it was absent; otherwise return without writing. */
    method DeleteEntry(noteId: string, reply: Json) returns (r: Status)
      requires Valid()
      modifies fragment
      ensures fragment == null ==> r == Err(NoFragment)
      ensures fragment != null && DeletedDoc(old(fragment.data), noteId).None? ==>
        r == Ok(()) && fragment.State() == old(fragment.State())
      ensures fragment != null && DeletedDoc(old(fragment.data), noteId).Some? && !operational ==>
        r == Err(NotOperational("write")) && fragment.State() == old(fragment.State())
      ensures operational && DeletedDoc(old(fragment.data), noteId).Some? ==>
        && fragment.State() == AfterWrite(old(fragment.State()), mode, DeletedDoc(old(fragment.data), noteId).value, reply)
        && r == if IsError(reply) then Err(WriteFailed(reply.s)) else Ok(())
    {
      if fragment == null {
        return Err(NoFragment);
      }
      var data := fragment.data;
      var notesDict := NotesDict(data);
      if notesDict.None? {
        return Ok(());
      }
      var notes := notesDict.value;
      if Get(notes, noteId).Some? {
        notes := Remove(notes, noteId);
      }
      data := Set(data, "notes", Dict(notes));
      r := Write(Some(data), reply);
    }

    /** The part of `setup()` before the flag is set: on a first run, check the typed secret,
        store it in the new client and request the fragment; then the initial read, which is
        always an HTTP read. Saving the credentials is file I/O and is not modelled. */
    method Connect(f: CloudFragment, firstRun: bool, secret: string, requestReply: string, readReply: Json)
      returns (r: Status)
      modifies f
      ensures f.calls == old(f.calls) + ConnectCalls(firstRun, secret, requestReply)
      ensures f.secret == if firstRun && !IsBlank(secret) then secret else old(f.secret)
      ensures f.data == if SetupReaches(firstRun, secret, requestReply) && readReply.Dict? then readReply.fields
                        else old(f.data)
      ensures f.stream == old(f.stream)
      ensures r.Ok? <==> SetupReadsOk(firstRun, secret, requestReply, readReply)
      ensures firstRun && IsBlank(secret) ==> r == Err(EmptySecret)
      ensures firstRun && !IsBlank(secret) && IsErrorText(requestReply) ==> r == Err(RequestFailed(requestReply))
      ensures SetupReaches(firstRun, secret, requestReply) && IsError(readReply) ==> r == Err(ReadFailed(readReply.s))
    {
      if firstRun {
        if IsBlank(secret) {
          return Err(EmptySecret);
        }
        f.secret := secret;
        var res := f.RequestFragment(requestReply);
        if IsErrorText(res) {
          return Err(RequestFailed(res));
        }
      }
      var read := f.ReadDoc(Http, readReply);
      if IsError(read) {
        return Err(ReadFailed(read.s));
      }
      r := Ok(());
    }

    /** `setup()`. `f` is the client built from the saved credentials, or on a first run the
        new one; `secret` is the typed secret, `requestReply`, `readReply` and `streamReply`
        the store's answers, `refreshSeconds` the refresh interval and `jobId` the id the
        default processor gives the refresh job. The flag is set right after the initial
        read succeeds, before the stream is opened and before the job is added. */
    method Setup(f: CloudFragment, firstRun: bool, secret: string, requestReply: string, readReply: Json,
                 streamReply: Json, registry: ThreadManager, refreshSeconds: int, jobId: string)
      returns (r: Status)
      requires Valid()
      modifies this, f
      ensures Valid() && fragment == f
      ensures operational == (old(operational) || SetupReadsOk(firstRun, secret, requestReply, readReply))
      ensures f.calls == old(f.calls) + ConnectCalls(firstRun, secret, requestReply)
        + (if SetupReadsOk(firstRun, secret, requestReply, readReply) && mode == Stream then [InitStream] else [])
      ensures f.secret == if firstRun && !IsBlank(secret) then secret else old(f.secret)
      ensures f.data == if SetupReaches(firstRun, secret, requestReply) && readReply.Dict? then readReply.fields
                        else old(f.data)
      ensures f.stream == (old(f.stream) || (SetupReadsOk(firstRun, secret, requestReply, readReply)
                                             && mode == Stream && !streamReply.Str?))
      ensures firstRun && IsBlank(secret) ==> r == Err(EmptySecret)
      ensures firstRun && !IsBlank(secret) && IsErrorText(requestReply) ==> r == Err(RequestFailed(requestReply))
      ensures SetupReaches(firstRun, secret, requestReply) && IsError(readReply) ==> r == Err(ReadFailed(readReply.s))
      ensures SetupReadsOk(firstRun, secret, requestReply, readReply) && mode == Stream && streamReply.Str? ==>
        r == Err(StreamInitFailed(streamReply.s))
      ensures r.Ok? <==>
        && SetupReadsOk(firstRun, secret, requestReply, readReply)
        && (mode == Stream ==> !streamReply.Str?)
        && registry.defaultProcessor.Some?
      ensures r.Ok? ==>
        refreshJob == Some(RefreshJob(registry.defaultProcessor.value, Job(jobId, Every(refreshSeconds, 0, 0))))
      ensures r.Err? ==> refreshJob == old(refreshJob)
    {
      fragment := f;
      var connected := Connect(f, firstRun, secret, requestReply, readReply);
      if connected.Err? {
        return connected;
      }
      operational := true;
      r := StartRefresh(streamReply, registry, refreshSeconds, jobId);
    }

    /** The part of `setup()` after the flag is set: in stream mode open the stream, then add
        the refresh job to the default processor. */
    method StartRefresh(streamReply: Json, registry: ThreadManager, refreshSeconds: int, jobId: string)
      returns (r: Status)
      requires Valid() && operational
      modifies this, fragment
      ensures Valid() && operational && fragment == old(fragment)
      ensures fragment.calls == old(fragment.calls) + (if mode == Stream then [InitStream] else [])
      ensures fragment.secret == old(fragment.secret) && fragment.data == old(fragment.data)
      ensures fragment.stream == (old(fragment.stream) || (mode == Stream && !streamReply.Str?))
      ensures mode == Stream && streamReply.Str? ==> r == Err(StreamInitFailed(streamReply.s))
      ensures r.Ok? <==> (mode == Stream ==> !streamReply.Str?) && registry.defaultProcessor.Some?
      ensures r.Ok? ==>
        refreshJob == Some(RefreshJob(registry.defaultProcessor.value, Job(jobId, Every(refreshSeconds, 0, 0))))
      ensures r.Err? ==> refreshJob == old(refreshJob)
    {
      if mode == Stream {
        var res := fragment.OpenStream(streamReply);
        if res.Str? {
          return Err(StreamInitFailed(res.s));
        }
      }
      if registry.defaultProcessor.None? {
        return Err(NoDefaultProcessor);
      }
      var job := AddJob(Some(MakeTrigger("interval", Some(refreshSeconds))), jobId);
      refreshJob := Some(RefreshJob(registry.defaultProcessor.value, job.value));
      r := Ok(());
    }

    /** `shutdown()`: nothing unless operational; in stream mode with a stream, disconnect it. */
    method Shutdown()
      requires Valid()
      modifies fragment
      ensures !operational ==> fragment != null ==> fragment.State() == old(fragment.State())
      ensures operational && mode == Stream && old(fragment.stream) ==>
        fragment.State() == old(fragment.State()).(calls := old(fragment.calls) + [Disconnect])
      ensures operational && !(mode == Stream && old(fragment.stream)) ==>
        fragment.State() == old(fragment.State())
    {
      if !operational {
        return;
      }
      if mode == Stream && fragment.stream {
        fragment.DisconnectStream();
      }
    }
  }

  // ----------------------------------------------------------------- lemmas

  lemma NotesOfValuesSingle(x: Json)
    ensures NotesOfValues([x]) == if NoteOfValue(x).Err? then Err(NoteOfValue(x).error) else Ok([NoteOfValue(x).value])
  {
    assert [x][1..] == [];
    if NoteOfValue(x).Ok? {
      assert [NoteOfValue(x).value] + [] == [NoteOfValue(x).value];
    }
  }

  /** Notes are read left to right and the first bad value is the one that raises. */
  lemma {:induction false} NotesOfValuesAppend(a: seq<Json>, b: seq<Json>)
    ensures NotesOfValues(a + b) ==
      if NotesOfValues(a).Err? then NotesOfValues(a)
      else if NotesOfValues(b).Err? then NotesOfValues(b)
      else Ok(NotesOfValues(a).value + NotesOfValues(b).value)
  {
    if a == [] {
      assert a + b == b;
      if NotesOfValues(b).Ok? {
        assert [] + NotesOfValues(b).value == NotesOfValues(b).value;
      }
    } else {
      NotesOfValuesAppend(a[1..], b);
      assert (a + b)[1..] == a[1..] + b;
      assert (a + b)[0] == a[0];
      var ra, rb := NotesOfValues(a[1..]), NotesOfValues(b);
      if NoteOfValue(a[0]).Ok? && ra.Ok? && rb.Ok? {
        var n := NoteOfValue(a[0]).value;
        assert [n] + (ra.value + rb.value) == ([n] + ra.value) + rb.value;
      }
    }
  }

  /** Reading the values of a notes dict succeeds exactly when each value reads as a note. */
  lemma {:induction false} NotesOfValuesOkIff(values: seq<Json>)
    ensures NotesOfValues(values).Ok? <==> forall i :: 0 <= i < |values| ==> NoteOfValue(values[i]).Ok?
  {
    if values != [] {
      NotesOfValuesOkIff(values[1..]);
      assert forall i :: 1 <= i < |values| ==> values[i] == values[1..][i - 1];
    }
  }

  /** Reading a notes dict yields one note per entry, in the dict's order. */
  lemma {:induction false} NotesOfValuesShape(values: seq<Json>, notes: seq<Note>)
    requires NotesOfValues(values) == Ok(notes)
    ensures |notes| == |values|
    ensures forall i :: 0 <= i < |values| ==> values[i].Dict? && NoteFromDict(values[i].fields) == Ok(notes[i])
  {
    if values != [] {
      NotesOfValuesShape(values[1..], notes[1..]);
    }
  }

  /** `load_entries()` returns [] when `"notes"` is missing or not a dict, and otherwise one
      note per value of the notes dict, in the dict's order. */
  lemma EntriesShape(doc: Fields, notes: seq<Note>)
    requires Entries(doc) == Ok(notes)
    ensures NotesDict(doc).None? ==> notes == []
    ensures NotesDict(doc).Some? ==>
      var m := NotesDict(doc).value;
      && |notes| == |m|
      && forall i :: 0 <= i < |m| ==> m[i].1.Dict? && NoteFromDict(m[i].1.fields) == Ok(notes[i])
  {
    if NotesDict(doc).Some? {
      var m := NotesDict(doc).value;
      KeysLength(m);
      NotesOfValuesShape(Values(m), notes);
    }
  }

  lemma GetOtherThanNotes(doc: Fields, v: Json, k: string)
    requires k != "notes"
    ensures Get(Set(doc, "notes", v), k) == Get(doc, k)
  {
    GetSetOther(doc, "notes", v, k);
  }

  /** After `save_entry(note)`, the written `"notes"` maps `note.id` to `note.to_dict()` and keeps
      every other note entry, in order, with the new id last when it is new; when `"notes"` was
      missing or not a dict it is a one-entry dict. Every other key of the document is kept. */
  lemma SavedDocShape(doc: Fields, note: Note)
    ensures NotesDict(SavedDoc(doc, note)).Some?
    ensures var m := NotesDict(SavedDoc(doc, note)).value;
      var before := NotesDict(doc).GetOr([]);
      && Get(m, note.id) == Some(Dict(NoteToDict(note)))
      && (forall k :: k != note.id ==> Get(m, k) == Get(before, k))
      && Keys(m) == (if Get(before, note.id).Some? then Keys(before) else Keys(before) + [note.id])
      && (NotesDict(doc).None? ==> m == [(note.id, Dict(NoteToDict(note)))])
    ensures forall k :: k != "notes" ==> Get(SavedDoc(doc, note), k) == Get(doc, k)
    ensures Keys(SavedDoc(doc, note)) == if Get(doc, "notes").Some? then Keys(doc) else Keys(doc) + ["notes"]
  {
    var before := NotesDict(doc).GetOr([]);
    var entry := Dict(NoteToDict(note));
    var m := Set(before, note.id, entry);
    GetSetSame(doc, "notes", Dict(m));
    GetSetSame(before, note.id, entry);
    forall k | k != note.id ensures Get(m, k) == Get(before, k) {
      GetSetOther(before, note.id, entry, k);
    }
    KeysSet(before, note.id, entry);
    forall k | k != "notes" ensures Get(SavedDoc(doc, note), k) == Get(doc, k) {
      GetOtherThanNotes(doc, Dict(m), k);
    }
    KeysSet(doc, "notes", Dict(m));
  }

  /** Saving keeps the keys of the document and of the notes dict distinct. */
  lemma SavedDocUnique(doc: Fields, note: Note)
    requires UniqueKeys(doc)
    requires NotesDict(doc).Some? ==> UniqueKeys(NotesDict(doc).value)
    ensures UniqueKeys(SavedDoc(doc, note))
    ensures NotesDict(SavedDoc(doc, note)).Some? && UniqueKeys(NotesDict(SavedDoc(doc, note)).value)
  {
    var before := NotesDict(doc).GetOr([]);
    var m := Set(before, note.id, Dict(NoteToDict(note)));
    UniqueSet(before, note.id, Dict(NoteToDict(note)));
    UniqueSet(doc, "notes", Dict(m));
    GetSetSame(doc, "notes", Dict(m));
  }

  /** A saved note reads back: whenever `load_entries()` succeeds on the written document, the
      note is among the notes it returns. */
  lemma SavedNoteLoadsBack(doc: Fields, note: Note, notes: seq<Note>)
    requires Entries(SavedDoc(doc, note)) == Ok(notes)
    ensures note in notes
  {
    SavedDocShape(doc, note);
    var m := NotesDict(SavedDoc(doc, note)).value;
    GetIffInKeys(m, note.id);
    var i :| 0 <= i < |m| && m[i] == (note.id, Dict(NoteToDict(note)));
    EntriesShape(SavedDoc(doc, note), notes);
    NoteRoundTrip(note);
    assert notes[i] == note;
  }

  /** Saving keeps a loadable document loadable, and the saved note is then among the notes
      `load_entries()` returns. */
  lemma SavedDocLoadable(doc: Fields, note: Note)
    requires Entries(doc).Ok?
    ensures Entries(SavedDoc(doc, note)).Ok?
    ensures note in Entries(SavedDoc(doc, note)).value
  {
    var before := NotesDict(doc).GetOr([]);
    var entry := Dict(NoteToDict(note));
    var m := Set(before, note.id, entry);
    SavedDocShape(doc, note);
    GetSetSame(doc, "notes", Dict(m));
    assert NotesDict(SavedDoc(doc, note)) == Some(m);
    KeysLength(before);
    KeysLength(m);
    if NotesDict(doc).Some? {
      NotesOfValuesOkIff(Values(before));
    }
    SetEntries(before, note.id, entry);
    NoteRoundTrip(note);
    forall i | 0 <= i < |m| ensures NoteOfValue(Values(m)[i]).Ok? {
      assert m[i] in m;
      if m[i] != (note.id, entry) {
        var j :| 0 <= j < |before| && before[j] == m[i];
        assert Values(before)[j] == m[i].1;
      }
    }
    NotesOfValuesOkIff(Values(m));
    SavedNoteLoadsBack(doc, note, Entries(SavedDoc(doc, note)).value);
  }

  /** `delete_entry(noteId)` writes nothing exactly when `"notes"` is missing or not a dict;
      otherwise it writes a document whose notes dict has lost exactly the entry for `noteId`
      (none when it was absent), the other entries kept in order, and every other key kept. */
  lemma DeletedDocShape(doc: Fields, noteId: string)
    ensures DeletedDoc(doc, noteId).None? <==> NotesDict(doc).None?
    ensures DeletedDoc(doc, noteId).Some? ==>
      var before := NotesDict(doc).value;
      var d := DeletedDoc(doc, noteId).value;
      && NotesDict(d) == Some(Remove(before, noteId))
      && (forall k :: k != noteId ==> Get(Remove(before, noteId), k) == Get(before, k))
      && (UniqueKeys(before) ==> Get(Remove(before, noteId), noteId).None?)
      && (Get(before, noteId).None? ==> Remove(before, noteId) == before)
      && (forall k :: k != "notes" ==> Get(d, k) == Get(doc, k))
      && Keys(d) == Keys(doc)
  {
    if NotesDict(doc).Some? {
      var before := NotesDict(doc).value;
      var after := Remove(before, noteId);
      RemoveDropsOneEntry(before, noteId);
      GetSetSame(doc, "notes", Dict(after));
      forall k | k != noteId ensures Get(after, k) == Get(before, k) {
        GetRemoveOther(before, noteId, k);
      }
      if UniqueKeys(before) {
        GetRemoveSame(before, noteId);
      }
      forall k | k != "notes" ensures Get(Set(doc, "notes", Dict(after)), k) == Get(doc, k) {
        GetOtherThanNotes(doc, Dict(after), k);
      }
      KeysSet(doc, "notes", Dict(after));
    }
  }

  /** Deleting a note just saved removes it again: the id is gone and every other note entry
      is the one the document had before the save. */
  lemma DeleteAfterSave(doc: Fields, note: Note)
    requires NotesDict(doc).Some? ==> UniqueKeys(NotesDict(doc).value)
    ensures DeletedDoc(SavedDoc(doc, note), note.id).Some?
    ensures NotesDict(DeletedDoc(SavedDoc(doc, note), note.id).value).Some?
    ensures var m := NotesDict(DeletedDoc(SavedDoc(doc, note), note.id).value).value;
      && Get(m, note.id).None?
      && forall k :: k != note.id ==> Get(m, k) == Get(NotesDict(doc).GetOr([]), k)
  {
    var before := NotesDict(doc).GetOr([]);
    var m := Set(before, note.id, Dict(NoteToDict(note)));
    SavedDocShape(doc, note);
    GetSetSame(doc, "notes", Dict(m));
    UniqueSet(before, note.id, Dict(NoteToDict(note)));
    DeletedDocShape(SavedDoc(doc, note), note.id);
  }

  /** The remote error test: a string that starts with "ERROR", and nothing else. */
  lemma ErrorResults(s: string, doc: Fields)
    ensures IsError(Str("ERROR" + s))
    ensures !IsError(Dict(doc)) && !IsError(Bool(true))
    ensures |s| < 5 ==> !IsError(Str(s))
  {
  }

  /** The refresh job setup adds is an interval job whose period is the configured seconds. */
  lemma RefreshJobPeriod(refreshSeconds: int, jobId: string)
    ensures AddJob(Some(MakeTrigger("interval", Some(refreshSeconds))), jobId) == Ok(Job(jobId, Every(refreshSeconds, 0, 0)))
    ensures PeriodSeconds(Every(refreshSeconds, 0, 0)) == refreshSeconds
  {
  }
}
