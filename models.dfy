/**
 * The journal and note records and their conversion to and from string-keyed
 * dictionaries. Record construction validates field types as the record classes do;
 * the model accepts exactly the JSON kinds a field is declared with (no coercion).
 */
module Models {
  import opened Wrappers
  import opened Json

  datatype Note = Note(
    id: string,
    title: string,
    content: string,
    created: string,
    modified: Option<string>,
    tags: seq<string>)

  datatype Journal = Journal(
    id: string,
    title: string,
    description: string,
    author: string,
    keyphrase: string,
    created: string,
    notes: seq<Note>)

  /** Why building a record from a dictionary raised. */
  datatype ModelError =
    | Invalid(field: string)       // the value under `field` has the wrong type for the record
    | NotIterable(field: string)   // the value under `field` cannot be iterated over

  const NoteKeys: seq<string> := ["id", "title", "content", "created", "modified", "tags"]
  const JournalKeys: seq<string> := ["id", "title", "description", "author", "keyphrase", "created", "notes"]

  // ---------------------------------------------------------------- to_dict

  function StrList(tags: seq<string>): seq<Json> {
    seq(|tags|, i requires 0 <= i < |tags| => Str(tags[i]))
  }

  /** `Note.to_dict`: a `None` modification time is written as a JSON null. */
  function NoteToDict(n: Note): Fields {
    [ ("id", Str(n.id)),
      ("title", Str(n.title)),
      ("content", Str(n.content)),
      ("created", Str(n.created)),
      ("modified", if n.modified.Some? then Str(n.modified.value) else Null),
      ("tags", List(StrList(n.tags))) ]
  }

  /** `[note.to_dict() for note in notes]` */
  function NoteDicts(notes: seq<Note>): seq<Json> {
    seq(|notes|, i requires 0 <= i < |notes| => Dict(NoteToDict(notes[i])))
  }

  /** `Journal.to_dict` */
  function JournalToDict(j: Journal): Fields {
    [ ("id", Str(j.id)),
      ("title", Str(j.title)),
      ("description", Str(j.description)),
      ("author", Str(j.author)),
      ("keyphrase", Str(j.keyphrase)),
      ("created", Str(j.created)),
      ("notes", List(NoteDicts(j.notes))) ]
  }

  // -------------------------------------------------------------- from_dict

  /** `data.get(key, "")` as a `str` field. */
  function StrField(d: Fields, key: string): Result<string, ModelError> {
    match GetOr(d, key, Str(""))
    case Str(s) => Ok(s)
    case _ => Err(Invalid(key))
  }

  /** A JSON list as a `list[str]` field. */
  function StrItems(items: seq<Json>): (r: Option<seq<string>>)
    ensures r.Some? <==> forall i :: 0 <= i < |items| ==> items[i].Str?
    ensures r.Some? ==> |r.value| == |items| && forall i :: 0 <= i < |items| ==> items[i] == Str(r.value[i])
  {
    if items == [] then Some([])
    else if !items[0].Str? then None
    else
      var rest := StrItems(items[1..]);
      if rest.None? then None else Some([items[0].s] + rest.value)
  }

  /** `data.get("tags", [])` as a `list[str]` field. */
  function TagsField(d: Fields): Result<seq<string>, ModelError> {
    match GetOr(d, "tags", List([]))
    case List(items) =>
      var tags := StrItems(items);
      if tags.Some? then Ok(tags.value) else Err(Invalid("tags"))
    case _ => Err(Invalid("tags"))
  }

  /** `data.get("modified", "")` as a `str | None` field: a missing key gives "", not None. */
  function ModifiedField(d: Fields): Result<Option<string>, ModelError> {
    match GetOr(d, "modified", Str(""))
    case Str(s) => Ok(Some(s))
    case Null => Ok(None)
    case _ => Err(Invalid("modified"))
  }

  /** `Note.from_dict` */
  function NoteFromDict(d: Fields): Result<Note, ModelError> {
    var id := StrField(d, "id");
    var title := StrField(d, "title");
    var content := StrField(d, "content");
    var created := StrField(d, "created");
    var modified := ModifiedField(d);
    var tags := TagsField(d);
    if id.Err? then Err(id.error)
    else if title.Err? then Err(title.error)
    else if content.Err? then Err(content.error)
    else if created.Err? then Err(created.error)
    else if modified.Err? then Err(modified.error)
    else if tags.Err? then Err(tags.error)
    else Ok(Note(id.value, title.value, content.value, created.value, modified.value, tags.value))
  }

  /** `[nd for nd in items if isinstance(nd, dict)]` */
  function DictItems(items: seq<Json>): seq<Fields> {
    if items == [] then []
    else if items[0].Dict? then [items[0].fields] + DictItems(items[1..])
    else DictItems(items[1..])
  }

  /** What iterating over `data.get("notes", [])` yields that is a dict. Iterating a dict
      or a string yields strings, none of them a dict; None, a bool or an int cannot be
      iterated over. */
  function NoteDictsField(d: Fields): Result<seq<Fields>, ModelError> {
    match GetOr(d, "notes", List([]))
    case List(items) => Ok(DictItems(items))
    case Dict(_) => Ok([])
    case Str(_) => Ok([])
    case _ => Err(NotIterable("notes"))
  }

  /** `[Note.from_dict(nd) for nd in dicts]`: the first note that fails raises. */
  function NotesFromDicts(dicts: seq<Fields>): Result<seq<Note>, ModelError> {
    if dicts == [] then Ok([])
    else
      var first := NoteFromDict(dicts[0]);
      if first.Err? then Err(first.error)
      else
        var rest := NotesFromDicts(dicts[1..]);
        if rest.Err? then rest else Ok([first.value] + rest.value)
  }

  /** `Journal.from_dict`: the notes are built first, then the string fields are validated. */
  function JournalFromDict(d: Fields): Result<Journal, ModelError> {
    var dicts := NoteDictsField(d);
    if dicts.Err? then Err(dicts.error)
    else
      var notes := NotesFromDicts(dicts.value);
      var id := StrField(d, "id");
      var title := StrField(d, "title");
      var description := StrField(d, "description");
      var author := StrField(d, "author");
      var keyphrase := StrField(d, "keyphrase");
      var created := StrField(d, "created");
      if notes.Err? then Err(notes.error)
      else if id.Err? then Err(id.error)
      else if title.Err? then Err(title.error)
      else if description.Err? then Err(description.error)
      else if author.Err? then Err(author.error)
      else if keyphrase.Err? then Err(keyphrase.error)
      else if created.Err? then Err(created.error)
      else Ok(Journal(id.value, title.value, description.value, author.value,
                      keyphrase.value, created.value, notes.value))
  }

  // ----------------------------------------------------------------- lemmas

  /** `Note.to_dict` has exactly the six record keys, each once. */
  lemma NoteToDictKeys(n: Note)
    ensures Keys(NoteToDict(n)) == NoteKeys && UniqueKeys(NoteToDict(n))
  {
    KeysLength(NoteToDict(n));
  }

  /** Each key of `Note.to_dict` holds the matching field. */
  lemma NoteToDictGet(n: Note)
    ensures Get(NoteToDict(n), "id") == Some(Str(n.id))
    ensures Get(NoteToDict(n), "title") == Some(Str(n.title))
    ensures Get(NoteToDict(n), "content") == Some(Str(n.content))
    ensures Get(NoteToDict(n), "created") == Some(Str(n.created))
    ensures Get(NoteToDict(n), "modified") == Some(if n.modified.Some? then Str(n.modified.value) else Null)
    ensures Get(NoteToDict(n), "tags") == Some(List(StrList(n.tags)))
  {
    var d := NoteToDict(n);
    NoteToDictKeys(n);
    GetAt(d, 0); GetAt(d, 1); GetAt(d, 2); GetAt(d, 3); GetAt(d, 4); GetAt(d, 5);
  }

  /** `Journal.to_dict` has exactly the seven record keys, and its `"notes"` list holds
      one note dict per note, in order. */
  lemma JournalToDictShape(j: Journal)
    ensures Keys(JournalToDict(j)) == JournalKeys && UniqueKeys(JournalToDict(j))
    ensures Get(JournalToDict(j), "notes") == Some(List(NoteDicts(j.notes)))
    ensures |NoteDicts(j.notes)| == |j.notes|
    ensures forall i :: 0 <= i < |j.notes| ==> NoteDicts(j.notes)[i] == Dict(NoteToDict(j.notes[i]))
  {
    var d := JournalToDict(j);
    KeysLength(d);
    GetAt(d, 6);
  }

  /** Each string key of `Journal.to_dict` holds the matching field. */
  lemma JournalToDictGet(j: Journal)
    ensures Get(JournalToDict(j), "id") == Some(Str(j.id))
    ensures Get(JournalToDict(j), "title") == Some(Str(j.title))
    ensures Get(JournalToDict(j), "description") == Some(Str(j.description))
    ensures Get(JournalToDict(j), "author") == Some(Str(j.author))
    ensures Get(JournalToDict(j), "keyphrase") == Some(Str(j.keyphrase))
    ensures Get(JournalToDict(j), "created") == Some(Str(j.created))
  {
    var d := JournalToDict(j);
    JournalToDictShape(j);
    GetAt(d, 0); GetAt(d, 1); GetAt(d, 2); GetAt(d, 3); GetAt(d, 4); GetAt(d, 5);
  }

  lemma {:induction false} StrItemsRoundTrip(tags: seq<string>)
    ensures StrItems(StrList(tags)) == Some(tags)
  {
    if tags != [] {
      var items := StrList(tags);
      StrItemsRoundTrip(tags[1..]);
      assert items[1..] == StrList(tags[1..]);
      assert items[0] == Str(tags[0]);
      assert tags == [tags[0]] + tags[1..];
    }
  }

  /** `Note.from_dict(n.to_dict()) == n`, a `None` modification time included. */
  lemma NoteRoundTrip(n: Note)
    ensures NoteFromDict(NoteToDict(n)) == Ok(n)
  {
    NoteToDictGet(n);
    StrItemsRoundTrip(n.tags);
  }

  /** Each missing key takes its own default, whichever other keys are present: "" for the
      strings, [] for the tags, and "" (not None) for the modification time. */
  lemma NoteDefaults(d: Fields, n: Note)
    requires NoteFromDict(d) == Ok(n)
    ensures Get(d, "id").None? ==> n.id == ""
    ensures Get(d, "title").None? ==> n.title == ""
    ensures Get(d, "content").None? ==> n.content == ""
    ensures Get(d, "created").None? ==> n.created == ""
    ensures Get(d, "modified").None? ==> n.modified == Some("")
    ensures Get(d, "tags").None? ==> n.tags == []
  {
  }

  /** A key is absent or holds a string. */
  predicate StrOrMissing(d: Fields, key: string) {
    Get(d, key).None? || Get(d, key).value.Str?
  }

  /** The value under `"modified"` is absent, a string or null. */
  predicate ModifiedAccepted(d: Fields) {
    Get(d, "modified").None? || Get(d, "modified").value.Str? || Get(d, "modified").value.Null?
  }

  /** The value under `"tags"` is absent or a list of strings. */
  predicate TagsAccepted(d: Fields) {
    Get(d, "tags").None? ||
    (Get(d, "tags").value.List? &&
     forall i :: 0 <= i < |Get(d, "tags").value.items| ==> Get(d, "tags").value.items[i].Str?)
  }

  /** `Note.from_dict` succeeds exactly when every present key holds a value of its declared
      type; and when it fails, it names the first offending key in the record's field order. */
  lemma NoteAcceptedIff(d: Fields)
    ensures NoteFromDict(d).Ok? <==>
      && StrOrMissing(d, "id") && StrOrMissing(d, "title") && StrOrMissing(d, "content")
      && StrOrMissing(d, "created") && ModifiedAccepted(d) && TagsAccepted(d)
    ensures !StrOrMissing(d, "id") ==> NoteFromDict(d) == Err(Invalid("id"))
    ensures StrOrMissing(d, "id") && !StrOrMissing(d, "title") ==> NoteFromDict(d) == Err(Invalid("title"))
  {
  }

  /** A present key with a value of its declared type is taken unchanged. */
  lemma NoteFieldsTaken(d: Fields, n: Note)
    requires NoteFromDict(d) == Ok(n)
    ensures Get(d, "id").Some? ==> Get(d, "id") == Some(Str(n.id))
    ensures Get(d, "title").Some? ==> Get(d, "title") == Some(Str(n.title))
    ensures Get(d, "content").Some? ==> Get(d, "content") == Some(Str(n.content))
    ensures Get(d, "created").Some? ==> Get(d, "created") == Some(Str(n.created))
    ensures n.modified.None? <==> Get(d, "modified") == Some(Null)
    ensures Get(d, "tags").Some? ==> Get(d, "tags") == Some(List(StrList(n.tags)))
  {
    if Get(d, "tags").Some? {
      var items := Get(d, "tags").value.items;
      assert StrList(n.tags) == items;
    }
  }

  lemma {:induction false} DictItemsOfNoteDicts(notes: seq<Note>)
    ensures DictItems(NoteDicts(notes)) == seq(|notes|, i requires 0 <= i < |notes| => NoteToDict(notes[i]))
  {
    if notes != [] {
      DictItemsOfNoteDicts(notes[1..]);
      assert NoteDicts(notes)[1..] == NoteDicts(notes[1..]);
    }
  }

  lemma {:induction false} NotesFromNoteDicts(notes: seq<Note>)
    ensures NotesFromDicts(seq(|notes|, i requires 0 <= i < |notes| => NoteToDict(notes[i]))) == Ok(notes)
  {
    var dicts := seq(|notes|, i requires 0 <= i < |notes| => NoteToDict(notes[i]));
    if notes != [] {
      NoteRoundTrip(notes[0]);
      NotesFromNoteDicts(notes[1..]);
      assert dicts[0] == NoteToDict(notes[0]);
      assert notes == [notes[0]] + notes[1..];
      assert dicts[1..] == seq(|notes[1..]|, i requires 0 <= i < |notes[1..]| => NoteToDict(notes[1..][i]));
    }
  }

  /** `Journal.from_dict(j.to_dict()) == j`, the order of the notes preserved. */
  lemma JournalRoundTrip(j: Journal)
    ensures JournalFromDict(JournalToDict(j)) == Ok(j)
  {
    JournalToDictShape(j);
    JournalToDictGet(j);
    DictItemsOfNoteDicts(j.notes);
    NotesFromNoteDicts(j.notes);
  }

  /** Each missing key takes its own default whichever other keys are present: "" for the
      strings and [] for the notes. A dict or a string under `"notes"` yields no note either. */
  lemma JournalDefaults(d: Fields, j: Journal)
    requires JournalFromDict(d) == Ok(j)
    ensures Get(d, "id").None? ==> j.id == ""
    ensures Get(d, "title").None? ==> j.title == ""
    ensures Get(d, "description").None? ==> j.description == ""
    ensures Get(d, "author").None? ==> j.author == ""
    ensures Get(d, "keyphrase").None? ==> j.keyphrase == ""
    ensures Get(d, "created").None? ==> j.created == ""
    ensures Get(d, "notes").None? ==> j.notes == []
    ensures Get(d, "notes").Some? && (Get(d, "notes").value.Dict? || Get(d, "notes").value.Str?) ==> j.notes == []
  {
  }

  /** Reading a sequence of note dicts succeeds exactly when each of them reads as a note. */
  lemma {:induction false} NotesFromDictsOkIff(dicts: seq<Fields>)
    ensures NotesFromDicts(dicts).Ok? <==> forall i :: 0 <= i < |dicts| ==> NoteFromDict(dicts[i]).Ok?
  {
    if dicts != [] {
      NotesFromDictsOkIff(dicts[1..]);
      assert forall i :: 1 <= i < |dicts| ==> dicts[i] == dicts[1..][i - 1];
    }
  }

  /** The value under `"notes"` is absent, a dict or a string (which yield no note), or a list
      whose dict entries all read as notes. */
  predicate NotesAccepted(d: Fields) {
    || Get(d, "notes").None? || Get(d, "notes").value.Dict? || Get(d, "notes").value.Str?
    || (Get(d, "notes").value.List? &&
        var dicts := DictItems(Get(d, "notes").value.items);
        forall i :: 0 <= i < |dicts| ==> NoteFromDict(dicts[i]).Ok?)
  }

  /** `Journal.from_dict` succeeds exactly when the notes are acceptable and every present
      string key holds a string; None, a bool or an int under `"notes"` cannot be iterated. */
  lemma JournalAcceptedIff(d: Fields)
    ensures JournalFromDict(d).Ok? <==>
      && NotesAccepted(d)
      && StrOrMissing(d, "id") && StrOrMissing(d, "title") && StrOrMissing(d, "description")
      && StrOrMissing(d, "author") && StrOrMissing(d, "keyphrase") && StrOrMissing(d, "created")
    ensures Get(d, "notes").Some? && (Get(d, "notes").value.Null? || Get(d, "notes").value.Bool? || Get(d, "notes").value.Int?)
            ==> JournalFromDict(d) == Err(NotIterable("notes"))
  {
    var g := GetOr(d, "notes", List([]));
    if g.List? {
      NotesFromDictsOkIff(DictItems(g.items));
    }
  }

  /** Filtering keeps the dict entries and drops everything else, in their original order. */
  lemma {:induction false} DictItemsAppend(a: seq<Json>, b: seq<Json>)
    ensures DictItems(a + b) == DictItems(a) + DictItems(b)
  {
    if a != [] {
      DictItemsAppend(a[1..], b);
      assert (a + b)[1..] == a[1..] + b;
    } else {
      assert a + b == b;
    }
  }

  lemma DictItemsSingle(x: Json)
    ensures DictItems([x]) == if x.Dict? then [x.fields] else []
  {
  }

  lemma {:induction false} NotesFromDictsShape(dicts: seq<Fields>, notes: seq<Note>)
    requires NotesFromDicts(dicts) == Ok(notes)
    ensures |notes| == |dicts| && forall i :: 0 <= i < |dicts| ==> NoteFromDict(dicts[i]) == Ok(notes[i])
  {
    if dicts != [] {
      NotesFromDictsShape(dicts[1..], notes[1..]);
    }
  }

  /** A journal read from a dict whose `"notes"` is a list holds one note per dict entry of
      that list, in order, and nothing for its other entries. */
  lemma JournalKeepsDictNotes(d: Fields, items: seq<Json>, j: Journal)
    requires Get(d, "notes") == Some(List(items))
    requires JournalFromDict(d) == Ok(j)
    ensures |j.notes| == |DictItems(items)|
    ensures forall i :: 0 <= i < |j.notes| ==> NoteFromDict(DictItems(items)[i]) == Ok(j.notes[i])
  {
    NotesFromDictsShape(DictItems(items), j.notes);
  }
}
