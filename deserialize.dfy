/** `deserialize`: the text envelope back to a task or an id. */
module Deserializer {
  import opened Wrappers
  import opened Wire
  import opened Types
  import opened Serializer

  /** What a payload decodes to. Both kinds carry an `id`. */
  datatype Decoded = DecodedTask(task: Task) | DecodedId(ident: Id) {
    /** The `.id` attribute, which callers read without checking the kind. */
    function TaskId(): Id {
      match this
      case DecodedTask(t) => Id(t.id)
      case DecodedId(x) => x
    }
  }

  /**
   * A timestamp entry: a missing key raises `KeyError`, a falsy value gives
   * `None`, a truthy value is parsed (`ValueError` on bad text, `TypeError` on
   * a value that is not a string).
   */
  function TimeField(m: map<string, Json>, key: string): (r: Result<Option<Timestamp>>)
    ensures key !in m ==> r == Failure(KeyError)
    ensures key in m && !Truthy(m[key]) ==> r == Success(None)
    ensures r.Success? && r.value.Some? ==> key in m && m[key].JString? && ParseTime(m[key].s) == r.value
    ensures key in m && Truthy(m[key]) && !m[key].JString? ==> r == Failure(TypeError)
    ensures key in m && Truthy(m[key]) && m[key].JString? ==>
      r == (if ParseTime(m[key].s).None? then Failure(ValueError) else Success(ParseTime(m[key].s)))
  {
    if key !in m then Failure(KeyError)
    else if !Truthy(m[key]) then Success(None)
    else if !m[key].JString? then Failure(TypeError)
    else match ParseTime(m[key].s)
      case None => Failure(ValueError)
      case Some(t) => Success(Some(t))
  }

  /** A string entry; a value of another JSON type is refused. */
  function StringField(m: map<string, Json>, key: string): (r: Result<string>)
    ensures r.Success? <==> key in m && m[key].JString?
    ensures r.Success? ==> m[key] == JString(r.value)
    ensures key !in m ==> r == Failure(KeyError)
  {
    if key !in m then Failure(KeyError)
    else if m[key].JString? then Success(m[key].s)
    else Failure(TypeError)
  }

  /** A boolean entry; a value of another JSON type is refused. */
  function BoolField(m: map<string, Json>, key: string): (r: Result<bool>)
    ensures r.Success? <==> key in m && m[key].JBool?
    ensures r.Success? ==> m[key] == JBool(r.value)
    ensures key !in m ==> r == Failure(KeyError)
  {
    if key !in m then Failure(KeyError)
    else if m[key].JBool? then Success(m[key].b)
    else Failure(TypeError)
  }

  /**
   * `deserialize(payload)`. The payload is parsed, then the `task` key is
   * looked for before the `id` key; with neither, `TypeError`.
   */
  function Deserialize(payload: Text): (r: Result<Decoded>)
    ensures payload.Plain? ==> r == Failure(JsonDecodeError)
    ensures r.Success? ==> payload.Dumped? && payload.doc.JObject?
    ensures r.Success? && "task" in payload.doc.fields ==> r.value.DecodedTask?
    ensures r.Success? && "task" !in payload.doc.fields ==> r.value.DecodedId?
    ensures payload.Dumped? && !payload.doc.JObject? ==> r == Failure(TypeError)
    ensures (payload.Dumped? && payload.doc.JObject?
             && "task" !in payload.doc.fields && "id" !in payload.doc.fields) ==> r == Failure(TypeError)
    ensures payload.Dumped? && payload.doc.JObject? && "task" !in payload.doc.fields && "id" in payload.doc.fields ==>
      var id := payload.doc.fields["id"];
      r == if id.JString? then Success(DecodedId(Id(id.s))) else Failure(TypeError)
    ensures payload.Dumped? && payload.doc.JObject? && "task" in payload.doc.fields ==>
      var m := payload.doc.fields;
      (r.Success? <==> TimeField(m, "created").Success? && TimeField(m, "completed").Success?
                       && TimeField(m, "due").Success? && StringField(m, "id").Success?
                       && StringField(m, "task").Success? && BoolField(m, "done").Success?
                       && BoolField(m, "pinned").Success?)
    ensures r.Success? && r.value.DecodedTask? ==>
      var m := payload.doc.fields;
      var t := r.value.task;
      StringField(m, "id") == Success(t.id) && StringField(m, "task") == Success(t.title)
      && BoolField(m, "done") == Success(t.done) && BoolField(m, "pinned") == Success(t.pinned)
      && TimeField(m, "created") == Success(t.created) && TimeField(m, "completed") == Success(t.completed)
      && TimeField(m, "due") == Success(t.due)
      && t.children == [] && t.tags == []
  {
    var data :- Loads(payload);
    if !data.JObject? then Failure(TypeError)
    else
      var m := data.fields;
      if "task" in m then
        var created :- TimeField(m, "created");
        var completed :- TimeField(m, "completed");
        var due :- TimeField(m, "due");
        var id :- StringField(m, "id");
        var title :- StringField(m, "task");
        var done :- BoolField(m, "done");
        var pinned :- BoolField(m, "pinned");
        Success(DecodedTask(Task(id, title, done, created, completed, due, pinned)))
      else if "id" in m then
        var id :- StringField(m, "id");
        Success(DecodedId(Id(id)))
      else
        Failure(TypeError)
  }

  lemma TimeFieldOfTimeJson(m: map<string, Json>, key: string, t: Option<Timestamp>)
    requires key in m && m[key] == TimeJson(t)
    ensures TimeField(m, key) == Success(t)
  {
  }

  /** A task without children or tags survives serialize then deserialize unchanged. */
  lemma DeserializeSerializeTask(t: Task)
    requires t.children == [] && t.tags == []
    ensures Deserialize(Serialize(PyTask(t)).value) == Success(DecodedTask(t))
  {
    var m := TaskObject(t).fields;
    TimeFieldOfTimeJson(m, "created", t.created);
    TimeFieldOfTimeJson(m, "completed", t.completed);
    TimeFieldOfTimeJson(m, "due", t.due);
  }

  /** An id survives serialize then deserialize unchanged. */
  lemma DeserializeSerializeId(x: Id)
    ensures Deserialize(Serialize(PyId(x)).value) == Success(DecodedId(x))
  {
  }

  /** Decoding then encoding a task envelope gives back the same envelope. */
  lemma SerializeDeserializeTask(t: Task)
    requires t.children == [] && t.tags == []
    ensures var payload := Serialize(PyTask(t)).value;
      Serialize(PyTask(Deserialize(payload).value.task)) == Success(payload)
  {
    DeserializeSerializeTask(t);
  }

  /** Whatever else it holds, an object with a `task` key never decodes to an id. */
  lemma TaskKeyWins(m: map<string, Json>)
    requires "task" in m && "id" in m
    ensures var r := Deserialize(Dumped(JObject(m)));
      r.Success? ==> r.value.DecodedTask?
  {
  }
}
