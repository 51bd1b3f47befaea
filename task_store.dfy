/**
 * `TaskStore`: the list of tasks kept as one JSON document in a file, read in
 * full and rewritten in full by every change.
 */
module Store {
  import opened Wrappers
  import opened Wire
  import opened Types
  import opened Files
  import opened TaskList
  import opened Serializer
  import opened Deserializer

  /** The keys of a stored record: every dataclass field, `children` and `tags` included. */
  const RecordKeys: set<string> :=
    {"id", "task", "done", "created", "completed", "due", "pinned", "children", "tags"}

  function StringsJson(ss: seq<string>): Json {
    JArray(seq(|ss|, i requires 0 <= i < |ss| => JString(ss[i])))
  }

  /** `t.__dict__` as dumped with `default=str`. */
  function RecordJson(t: Task): (j: Json)
    ensures j.JObject? && j.fields.Keys == RecordKeys
  {
    JObject(map[
      "id" := JString(t.id),
      "task" := JString(t.title),
      "done" := JBool(t.done),
      "created" := TimeJson(t.created),
      "completed" := TimeJson(t.completed),
      "due" := TimeJson(t.due),
      "pinned" := JBool(t.pinned),
      "children" := StringsJson(t.children),
      "tags" := StringsJson(t.tags)])
  }

  /** The text the store writes for a list of tasks. */
  function DocumentText(ts: seq<Task>): (d: Text)
    ensures d.Dumped? && d.doc.JArray? && |d.doc.items| == |ts|
  {
    Dumped(JArray(seq(|ts|, i requires 0 <= i < |ts| => RecordJson(ts[i]))))
  }

  function DecodeStrings(items: seq<Json>): (r: Result<seq<string>>)
    ensures r.Success? ==> |r.value| == |items|
  {
    if items == [] then Success([])
    else if !items[0].JString? then Failure(TypeError)
    else
      var rest :- DecodeStrings(items[1..]);
      Success([items[0].s] + rest)
  }

  function StringsValue(j: Json): Result<seq<string>> {
    if j.JArray? then DecodeStrings(j.items) else Failure(TypeError)
  }

  /** A stored timestamp: null, or text in the rendered form. */
  function TimeValue(j: Json): (r: Result<Option<Timestamp>>)
    ensures j == JNull ==> r == Success(None)
  {
    if j == JNull then Success(None)
    else if !j.JString? then Failure(TypeError)
    else match ParseTime(j.s)
      case None => Failure(ValueError)
      case Some(t) => Success(Some(t))
  }

  /**
   * `Task(**record)`: a record that is not an object, has an unknown key or
   * lacks a required field raises `TypeError`; absent optional fields take the
   * dataclass defaults.
   */
  function DecodeRecord(j: Json): (r: Result<Task>)
    ensures r.Success? ==> j.JObject? && j.fields.Keys <= RecordKeys
    ensures r.Success? ==> {"id", "task", "done", "created"} <= j.fields.Keys
  {
    if !j.JObject? then Failure(TypeError)
    else
      var m := j.fields;
      if !(m.Keys <= RecordKeys) || !({"id", "task", "done", "created"} <= m.Keys) then Failure(TypeError)
      else
        var id :- StringField(m, "id");
        var title :- StringField(m, "task");
        var done :- BoolField(m, "done");
        var created :- TimeValue(m["created"]);
        var completed :- if "completed" in m then TimeValue(m["completed"]) else Success(None);
        var due :- if "due" in m then TimeValue(m["due"]) else Success(None);
        var pinned :- if "pinned" in m then BoolField(m, "pinned") else Success(false);
        var children :- if "children" in m then StringsValue(m["children"]) else Success([]);
        var tags :- if "tags" in m then StringsValue(m["tags"]) else Success([]);
        Success(Task(id, title, done, created, completed, due, pinned, children, tags))
  }

  /** `[Task(**task) for task in tasks]`: the first bad record raises. */
  function DecodeRecords(items: seq<Json>): (r: Result<seq<Task>>)
    ensures r.Success? ==> |r.value| == |items|
  {
    if items == [] then Success([])
    else
      var t :- DecodeRecord(items[0]);
      var rest :- DecodeRecords(items[1..]);
      Success([t] + rest)
  }

  /** The list decodes exactly when every record does, and then the i-th task is the i-th record's. */
  lemma {:induction false} DecodeRecordsInOrder(items: seq<Json>)
    ensures DecodeRecords(items).Success? <==> forall i | 0 <= i < |items| :: DecodeRecord(items[i]).Success?
    ensures DecodeRecords(items).Success? ==>
      forall i | 0 <= i < |items| :: DecodeRecord(items[i]) == Success(DecodeRecords(items).value[i])
  {
    if items != [] {
      DecodeRecordsInOrder(items[1..]);
      assert forall i | 1 <= i < |items| :: items[i] == items[1..][i - 1];
    }
  }

  /**
   * Iterating over the parsed document: an array gives its records; an empty
   * object or empty string iterates to nothing; any other object or string
   * yields keys or characters, which are not mappings; other values are not
   * iterable.
   */
  function DocumentTasks(doc: Json): (r: Result<seq<Task>>)
    ensures doc.JArray? && r.Success? ==> |r.value| == |doc.items|
    ensures doc.JArray? ==> r == DecodeRecords(doc.items)
    ensures !doc.JArray? ==> (r.Success? <==> doc == JObject(map[]) || doc == JString(""))
    ensures !doc.JArray? && r.Success? ==> r.value == []
    ensures !doc.JArray? && r.Failure? ==> r.error == TypeError
  {
    match doc
    case JArray(items) => DecodeRecords(items)
    case JObject(m) => if m == map[] then Success([]) else Failure(TypeError)
    case JString(s) => if s == "" then Success([]) else Failure(TypeError)
    case _ => Failure(TypeError)
  }

  /**
   * `load_all` on a given file content. An empty file is not a JSON document,
   * so it raises rather than giving the empty list.
   */
  function ParseDocument(content: Text): (r: Result<seq<Task>>)
    ensures content.Plain? ==> r == Failure(JsonDecodeError)
  {
    var doc :- Loads(content);
    DocumentTasks(doc)
  }

  lemma {:induction false} DecodeStringsRoundTrip(ss: seq<string>)
    ensures StringsValue(StringsJson(ss)) == Success(ss)
  {
    if ss != [] {
      var items := StringsJson(ss).items;
      assert items[1..] == StringsJson(ss[1..]).items;
      DecodeStringsRoundTrip(ss[1..]);
      assert items[0] == JString(ss[0]);
      assert [ss[0]] + ss[1..] == ss;
    }
  }

  lemma DecodeRecordRoundTrip(t: Task)
    ensures DecodeRecord(RecordJson(t)) == Success(t)
  {
    DecodeStringsRoundTrip(t.children);
    DecodeStringsRoundTrip(t.tags);
  }

  lemma {:induction false} DecodeRecordsRoundTrip(ts: seq<Task>)
    ensures DecodeRecords(DocumentText(ts).doc.items) == Success(ts)
  {
    if ts != [] {
      DecodeRecordRoundTrip(ts[0]);
      var items := DocumentText(ts).doc.items;
      assert items[1..] == DocumentText(ts[1..]).doc.items;
      DecodeRecordsRoundTrip(ts[1..]);
      assert items[0] == RecordJson(ts[0]);
      assert [ts[0]] + ts[1..] == ts;
    }
  }

  /** Reading back a written document gives the same tasks, children and tags included. */
  lemma ParseDocumentText(ts: seq<Task>)
    ensures ParseDocument(DocumentText(ts)) == Success(ts)
  {
    DecodeRecordsRoundTrip(ts);
  }

  class TaskStore {
    const file: LockedFile

    constructor(file: LockedFile)
      ensures this.file == file
    {
      this.file := file;
    }

    /** What `load_all` gives in the current state of the files. */
    function Stored(): Result<seq<Task>>
      reads file.fs
    {
      ParseDocument(ReadResult(file.fs.files, file.path))
    }

    /** `load_all`: the tasks in file order; a missing file is created empty and then fails to parse. */
    method LoadAll() returns (r: Result<seq<Task>>)
      modifies file.fs
      ensures r == old(Stored())
      ensures file.path !in old(file.fs.files) ==> r == Failure(JsonDecodeError)
      ensures file.fs.files == Ensured(old(file.fs.files), file.path)
      ensures Stored() == old(Stored())
    {
      var data := file.Read();
      r := ParseDocument(data);
    }

    /** `load`: the first task in file order with that id. */
    method Load(id: string) returns (r: Result<Option<Task>>)
      modifies file.fs
      ensures old(Stored()).Failure? ==> r == Failure(old(Stored()).error)
      ensures old(Stored()).Success? ==> r == Success(Lookup(old(Stored()).value, id))
      ensures file.fs.files == Ensured(old(file.fs.files), file.path)
      ensures Stored() == old(Stored())
    {
      var all := LoadAll();
      if all.Failure? {
        return Failure(all.error);
      }
      var tasks := all.value;
      var i := 0;
      while i < |tasks|
        invariant 0 <= i <= |tasks|
        invariant forall j | 0 <= j < i :: tasks[j].id != id
      {
        if tasks[i].id == id {
          FindIndexAt(tasks, id, i);
          return Success(Some(tasks[i]));
        }
        i := i + 1;
      }
      return Success(None);
    }

    /**
     * `save`: replaces the first task with the same id, or appends, and
     * rewrites the whole document.
     */
    method Save(t: Task) returns (r: Result<Unit>)
      modifies file.fs
      ensures old(Stored()).Failure? ==>
        r == Failure(old(Stored()).error) && file.fs.files == Ensured(old(file.fs.files), file.path)
      ensures old(Stored()).Success? ==> (r.Success?
        && file.fs.files == old(file.fs.files)[file.path := DocumentText(Upsert(old(Stored()).value, t))]
        && Stored() == Success(Upsert(old(Stored()).value, t)))
    {
      var all := LoadAll();
      if all.Failure? {
        return Failure(all.error);
      }
      var tasks := all.value;
      var i := 0;
      while i < |tasks|
        invariant 0 <= i <= |tasks|
        invariant forall j | 0 <= j < i :: tasks[j].id != t.id
      {
        if tasks[i].id == t.id {
          break;
        }
        i := i + 1;
      }
      if i < |tasks| {
        FindIndexAt(tasks, t.id, i);
        tasks := tasks[i := t];
      } else {
        tasks := tasks + [t];
      }
      file.Write(DocumentText(tasks));
      ParseDocumentText(tasks);
      r := Success(Unit);
    }

    /** `delete`: drops every task with that id and rewrites the document. */
    method Delete(id: string) returns (r: Result<Unit>)
      modifies file.fs
      ensures old(Stored()).Failure? ==>
        r == Failure(old(Stored()).error) && file.fs.files == Ensured(old(file.fs.files), file.path)
      ensures old(Stored()).Success? ==> (r.Success?
        && file.fs.files == old(file.fs.files)[file.path := DocumentText(Remove(old(Stored()).value, id))]
        && Stored() == Success(Remove(old(Stored()).value, id)))
    {
      var all := LoadAll();
      if all.Failure? {
        return Failure(all.error);
      }
      var tasks := Remove(all.value, id);
      file.Write(DocumentText(tasks));
      ParseDocumentText(tasks);
      r := Success(Unit);
    }
  }
}
