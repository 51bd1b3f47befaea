/** `serialize`: a Python value to the text envelope sent over the bus. */
module Serializer {
  import opened Wrappers
  import opened Wire
  import opened Types

  /** The Python values `serialize` may be handed. */
  datatype PyValue =
    | PyText(text: Text)
    | PyTask(task: Task)
    | PyList(items: seq<PyValue>)
    | PyId(ident: Id)
    | PyOther

  /** The keys of a task envelope; `children` and `tags` are not among them. */
  const EnvelopeKeys: set<string> := {"id", "task", "done", "created", "completed", "due", "pinned"}

  /** The inner helper `dt`: a timestamp becomes its text, a missing one stays null. */
  function TimeJson(t: Option<Timestamp>): (j: Json)
    ensures t.None? <==> j == JNull
    ensures t.Some? ==> j.JString? && Truthy(j) && ParseTime(j.s) == t
  {
    match t
    case None => JNull
    case Some(x) => ParseTimeText(x); JString(TimeText(x))
  }

  /** The object written for one task. */
  function TaskObject(t: Task): (j: Json)
    ensures j.JObject? && j.fields.Keys == EnvelopeKeys
  {
    JObject(map[
      "id" := JString(t.id),
      "task" := JString(t.title),
      "done" := JBool(t.done),
      "created" := TimeJson(t.created),
      "completed" := TimeJson(t.completed),
      "due" := TimeJson(t.due),
      "pinned" := JBool(t.pinned)])
  }

  /** The array written for a list of tasks, one object per task, in order. */
  function TasksJson(ts: seq<Task>): (j: Json)
    ensures j.JArray? && |j.items| == |ts|
    ensures forall i | 0 <= i < |ts| :: j.items[i] == TaskObject(ts[i])
  {
    JArray(seq(|ts|, i requires 0 <= i < |ts| => TaskObject(ts[i])))
  }

  /** A Python list holding the given tasks. */
  function TaskListValue(ts: seq<Task>): PyValue {
    PyList(seq(|ts|, i requires 0 <= i < |ts| => PyTask(ts[i])))
  }

  predicate AllTasks(items: seq<PyValue>) {
    forall i | 0 <= i < |items| :: items[i].PyTask?
  }

  /**
   * `serialize(obj)`. The empty string passes through; a task, a list of
   * tasks and an id become dumped JSON; anything else raises `TypeError`.
   */
  function Serialize(v: PyValue): (r: Result<Text>)
    ensures r.Failure? ==> r.error == TypeError
    ensures r.Success? <==>
      v == PyText(Plain("")) || v.PyTask? || v.PyId? || (v.PyList? && AllTasks(v.items))
    ensures r.Success? && v != PyText(Plain("")) ==> r.value.Dumped?
    ensures v == PyText(Plain("")) ==> r == Success(Plain(""))
    ensures v.PyId? ==> r == Success(Dumped(JObject(map["id" := JString(v.ident.id)])))
  {
    if v == PyText(Plain("")) then Success(Plain(""))
    else match v
      case PyTask(t) => Success(Dumped(TaskObject(t)))
      case PyList(items) =>
        if AllTasks(items) then
          Success(Dumped(JArray(seq(|items|, i requires 0 <= i < |items| => TaskObject(items[i].task)))))
        else Failure(TypeError)
      case PyId(x) => Success(Dumped(JObject(map["id" := JString(x.id)])))
      case _ => Failure(TypeError)
  }

  /** A task list serializes to one object per task, in order; `[]` to the empty array. */
  lemma SerializeTaskList(ts: seq<Task>)
    ensures Serialize(TaskListValue(ts)) == Success(Dumped(TasksJson(ts)))
    ensures ts == [] ==> Serialize(TaskListValue(ts)) == Success(Dumped(JArray([])))
  {
    var v := TaskListValue(ts);
    assert AllTasks(v.items);
    assert v != PyText(Plain(""));
    var items := seq(|v.items|, i requires 0 <= i < |v.items| => TaskObject(v.items[i].task));
    assert items == TasksJson(ts).items;
  }

  /**
   * A task becomes an object with exactly the seven envelope keys holding its
   * fields, timestamps as text and missing ones as null.
   */
  lemma SerializeTaskFields(t: Task)
    ensures Serialize(PyTask(t)).Success?
    ensures var j := Serialize(PyTask(t)).value.doc;
      j.JObject? && j.fields.Keys == EnvelopeKeys
      && j.fields["id"] == JString(t.id) && j.fields["task"] == JString(t.title)
      && j.fields["done"] == JBool(t.done) && j.fields["pinned"] == JBool(t.pinned)
      && j.fields["created"] == TimeJson(t.created)
      && j.fields["completed"] == TimeJson(t.completed)
      && j.fields["due"] == TimeJson(t.due)
  {
  }

  /** Tasks that differ only in `children` and `tags` serialize identically. */
  lemma SerializeDropsChildrenAndTags(t: Task, children: seq<string>, tags: seq<string>)
    ensures Serialize(PyTask(t.(children := children, tags := tags))) == Serialize(PyTask(t))
  {
  }
}
