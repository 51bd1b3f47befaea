/**
 * `DbusServerInterface`: the daemon's RPC methods. Each task-changing method
 * decodes its payload, calls the service once, emits one `TaskUpdated`
 * signal carrying the whole task list read afterwards, and answers `"ok"`.
 * Emitted signals are recorded in `signals`.
 */
module Server {
  import opened Wrappers
  import opened Wire
  import opened Types
  import opened Files
  import opened TaskList
  import opened Store
  import opened Descriptions
  import opened Service
  import opened Serializer
  import opened Deserializer
  import TaskRules

  /**
   * The outcome of a task-changing RPC whose service call succeeded: the store
   * holds `tasks`, no file other than the task document changed, exactly one
   * signal carrying `tasks` was appended, and the reply is `"ok"`.
   */
  predicate Synced(r: Result<string>, before: seq<Text>, after: seq<Text>, stored: Result<seq<Task>>, tasks: seq<Task>,
                   filesBefore: map<Path, Text>, filesAfter: map<Path, Text>, document: Path) {
    r == Success("ok") && stored == Success(tasks) && after == before + [Dumped(TasksJson(tasks))]
    && document in filesAfter && filesAfter - {document} == filesBefore - {document}
  }

  /**
   * `result or ""`: the reply to `GetDescription` once the service answered;
   * an error is passed on, a missing or empty text becomes the empty text.
   */
  function DescriptionReply(loaded: Result<Option<Text>>): (r: Result<Text>)
    ensures loaded.Failure? ==> r == Failure(loaded.error)
    ensures loaded.Success? ==> r.Success? && TextTruthy(r.value) == (loaded.value.Some? && TextTruthy(loaded.value.value))
    ensures loaded.Success? && loaded.value.Some? && TextTruthy(loaded.value.value) ==> r.value == loaded.value.value
  {
    match loaded
    case Failure(e) => Failure(e)
    case Success(result) => Success(if result.Some? && TextTruthy(result.value) then result.value else Plain(""))
  }

  class DbusServerInterface {
    const service: TaskService
    var signals: seq<Text>

    constructor(service: TaskService)
      ensures this.service == service && signals == []
    {
      this.service := service;
      signals := [];
    }

    /** `TaskUpdated`: the signal carries its payload unchanged. */
    method TaskUpdated(payload: Text) returns (emitted: Text)
      modifies this
      ensures emitted == payload
      ensures signals == old(signals) + [payload]
    {
      emitted := payload;
      signals := signals + [emitted];
    }

    /** `_broadcast_task_update`: one signal with the serialized current list. */
    method BroadcastTaskUpdate() returns (r: Result<Unit>)
      modifies this, service.store.file.fs
      ensures service.store.file.fs.files == Ensured(old(service.store.file.fs.files), service.store.file.path)
      ensures service.Tasks() == old(service.Tasks())
      ensures old(service.Tasks()).Success? ==>
        r.Success? && signals == old(signals) + [Dumped(TasksJson(old(service.Tasks()).value))]
      ensures old(service.Tasks()).Failure? ==>
        r == Failure(old(service.Tasks()).error) && signals == old(signals)
    {
      var tasks :- service.ListTasks();
      SerializeTaskList(tasks);
      var payload := Serialize(TaskListValue(tasks)).value;
      var emitted := TaskUpdated(payload);
      r := Success(Unit);
    }

    /** `ListTasks`: the serialized current list; no signal. */
    method ListTasks() returns (r: Result<Text>)
      modifies service.store.file.fs
      ensures old(service.Tasks()).Success? ==> r == Success(Dumped(TasksJson(old(service.Tasks()).value)))
      ensures old(service.Tasks()).Failure? ==> r == Failure(old(service.Tasks()).error)
      ensures service.store.file.fs.files == Ensured(old(service.store.file.fs.files), service.store.file.path)
      ensures service.Tasks() == old(service.Tasks())
    {
      var tasks :- service.ListTasks();
      SerializeTaskList(tasks);
      r := Serialize(TaskListValue(tasks));
    }

    /**
     * `AddTask`: a task payload is upserted. A payload that does not decode
     * raises before anything changes.
     */
    method AddTask(payload: Text) returns (r: Result<string>)
      modifies this, service.store.file.fs
      ensures Deserialize(payload).Failure? ==> (r == Failure(Deserialize(payload).error)
        && signals == old(signals) && unchanged(service.store.file.fs))
      ensures Deserialize(payload).Success? && Deserialize(payload).value.DecodedId? ==>
        (r == Failure(TypeError) && signals == old(signals) && unchanged(service.store.file.fs))
      ensures Deserialize(payload).Success? && Deserialize(payload).value.DecodedTask? ==>
        if old(service.Tasks()).Success? then
          Synced(r, old(signals), signals, service.Tasks(), Upsert(old(service.Tasks()).value, Deserialize(payload).value.task),
            old(service.store.file.fs.files), service.store.file.fs.files, service.store.file.path)
        else (r == Failure(old(service.Tasks()).error) && signals == old(signals)
          && service.store.file.fs.files == Ensured(old(service.store.file.fs.files), service.store.file.path))
    {
      var decoded :- Deserialize(payload);
      if !decoded.DecodedTask? {
        return Failure(TypeError);
      }
      r := UpsertAndBroadcast(decoded.task, false);
    }

    /** The part of `AddTask` and `UpdateTask` after decoding: upsert through the service, then broadcast. */
    method UpsertAndBroadcast(t: Task, update: bool) returns (r: Result<string>)
      modifies this, service.store.file.fs
      ensures
        if old(service.Tasks()).Success? then
          Synced(r, old(signals), signals, service.Tasks(), Upsert(old(service.Tasks()).value, t),
            old(service.store.file.fs.files), service.store.file.fs.files, service.store.file.path)
        else (r == Failure(old(service.Tasks()).error) && signals == old(signals)
          && service.store.file.fs.files == Ensured(old(service.store.file.fs.files), service.store.file.path))
    {
      var saved;
      if update {
        saved := service.UpdateTask(t);
      } else {
        saved := service.AddTask(t);
      }
      if saved.Failure? {
        return Failure(saved.error);
      }
      var sent := BroadcastTaskUpdate();
      r := sent.Then("ok");
    }

    /** `UpdateTask`: the same upsert through `update_task`. */
    method UpdateTask(payload: Text) returns (r: Result<string>)
      modifies this, service.store.file.fs
      ensures Deserialize(payload).Failure? ==> (r == Failure(Deserialize(payload).error)
        && signals == old(signals) && unchanged(service.store.file.fs))
      ensures Deserialize(payload).Success? && Deserialize(payload).value.DecodedId? ==>
        (r == Failure(TypeError) && signals == old(signals) && unchanged(service.store.file.fs))
      ensures Deserialize(payload).Success? && Deserialize(payload).value.DecodedTask? ==>
        if old(service.Tasks()).Success? then
          Synced(r, old(signals), signals, service.Tasks(), Upsert(old(service.Tasks()).value, Deserialize(payload).value.task),
            old(service.store.file.fs.files), service.store.file.fs.files, service.store.file.path)
        else (r == Failure(old(service.Tasks()).error) && signals == old(signals)
          && service.store.file.fs.files == Ensured(old(service.store.file.fs.files), service.store.file.path))
    {
      var decoded :- Deserialize(payload);
      if !decoded.DecodedTask? {
        return Failure(TypeError);
      }
      r := UpsertAndBroadcast(decoded.task, true);
    }

    /** `DeleteTask`: every task with the payload's id is dropped. */
    method DeleteTask(payload: Text) returns (r: Result<string>)
      modifies this, service.store.file.fs
      ensures Deserialize(payload).Failure? ==> (r == Failure(Deserialize(payload).error)
        && signals == old(signals) && unchanged(service.store.file.fs))
      ensures Deserialize(payload).Success? ==>
        if old(service.Tasks()).Success? then
          Synced(r, old(signals), signals, service.Tasks(), Remove(old(service.Tasks()).value, Deserialize(payload).value.TaskId().id),
            old(service.store.file.fs.files), service.store.file.fs.files, service.store.file.path)
        else (r == Failure(old(service.Tasks()).error) && signals == old(signals)
          && service.store.file.fs.files == Ensured(old(service.store.file.fs.files), service.store.file.path))
    {
      var taskId :- Deserialize(payload);
      var done :- service.DeleteTask(taskId.TaskId());
      var sent := BroadcastTaskUpdate();
      r := sent.Then("ok");
    }

    /** `MarkDone`: the backfill rule on the payload's id. */
    method MarkDone(payload: Text) returns (r: Result<string>)
      modifies this, service.store.file.fs
      ensures Deserialize(payload).Failure? ==> (r == Failure(Deserialize(payload).error)
        && signals == old(signals) && unchanged(service.store.file.fs))
      ensures Deserialize(payload).Success? ==>
        if old(service.Tasks()).Success? then
          Synced(r, old(signals), signals, service.Tasks(), TaskRules.MarkDone(old(service.Tasks()).value, Deserialize(payload).value.TaskId().id),
            old(service.store.file.fs.files), service.store.file.fs.files, service.store.file.path)
        else (r == Failure(old(service.Tasks()).error) && signals == old(signals)
          && service.store.file.fs.files == Ensured(old(service.store.file.fs.files), service.store.file.path))
    {
      var taskId :- Deserialize(payload);
      var done :- service.MarkDone(taskId.TaskId());
      var sent := BroadcastTaskUpdate();
      r := sent.Then("ok");
    }

    /** `MarkNotDone`: clears `done` and `completed` of the payload's task. */
    method MarkNotDone(payload: Text) returns (r: Result<string>)
      modifies this, service.store.file.fs
      ensures Deserialize(payload).Failure? ==> (r == Failure(Deserialize(payload).error)
        && signals == old(signals) && unchanged(service.store.file.fs))
      ensures Deserialize(payload).Success? ==>
        if old(service.Tasks()).Success? then
          Synced(r, old(signals), signals, service.Tasks(), TaskRules.MarkNotDone(old(service.Tasks()).value, Deserialize(payload).value.TaskId().id),
            old(service.store.file.fs.files), service.store.file.fs.files, service.store.file.path)
        else (r == Failure(old(service.Tasks()).error) && signals == old(signals)
          && service.store.file.fs.files == Ensured(old(service.store.file.fs.files), service.store.file.path))
    {
      var taskId :- Deserialize(payload);
      var done :- service.MarkNotDone(taskId.TaskId());
      var sent := BroadcastTaskUpdate();
      r := sent.Then("ok");
    }

    /** `Toggle`: flips `done` of the payload's task. */
    method Toggle(payload: Text) returns (r: Result<string>)
      modifies this, service.store.file.fs
      ensures Deserialize(payload).Failure? ==> (r == Failure(Deserialize(payload).error)
        && signals == old(signals) && unchanged(service.store.file.fs))
      ensures Deserialize(payload).Success? ==>
        if old(service.Tasks()).Success? then
          Synced(r, old(signals), signals, service.Tasks(), TaskRules.Toggle(old(service.Tasks()).value, Deserialize(payload).value.TaskId().id),
            old(service.store.file.fs.files), service.store.file.fs.files, service.store.file.path)
        else (r == Failure(old(service.Tasks()).error) && signals == old(signals)
          && service.store.file.fs.files == Ensured(old(service.store.file.fs.files), service.store.file.path))
    {
      var taskId :- Deserialize(payload);
      var done :- service.ToggleDone(taskId.TaskId());
      var sent := BroadcastTaskUpdate();
      r := sent.Then("ok");
    }

    /** `Pin`: pins the payload's task. */
    method Pin(payload: Text) returns (r: Result<string>)
      modifies this, service.store.file.fs
      ensures Deserialize(payload).Failure? ==> (r == Failure(Deserialize(payload).error)
        && signals == old(signals) && unchanged(service.store.file.fs))
      ensures Deserialize(payload).Success? ==>
        if old(service.Tasks()).Success? then
          Synced(r, old(signals), signals, service.Tasks(), TaskRules.Pin(old(service.Tasks()).value, Deserialize(payload).value.TaskId().id),
            old(service.store.file.fs.files), service.store.file.fs.files, service.store.file.path)
        else (r == Failure(old(service.Tasks()).error) && signals == old(signals)
          && service.store.file.fs.files == Ensured(old(service.store.file.fs.files), service.store.file.path))
    {
      var taskId :- Deserialize(payload);
      var done :- service.PinTask(taskId.TaskId());
      var sent := BroadcastTaskUpdate();
      r := sent.Then("ok");
    }

    /** `Unpin`: unpins the payload's task. */
    method Unpin(payload: Text) returns (r: Result<string>)
      modifies this, service.store.file.fs
      ensures Deserialize(payload).Failure? ==> (r == Failure(Deserialize(payload).error)
        && signals == old(signals) && unchanged(service.store.file.fs))
      ensures Deserialize(payload).Success? ==>
        if old(service.Tasks()).Success? then
          Synced(r, old(signals), signals, service.Tasks(), TaskRules.Unpin(old(service.Tasks()).value, Deserialize(payload).value.TaskId().id),
            old(service.store.file.fs.files), service.store.file.fs.files, service.store.file.path)
        else (r == Failure(old(service.Tasks()).error) && signals == old(signals)
          && service.store.file.fs.files == Ensured(old(service.store.file.fs.files), service.store.file.path))
    {
      var taskId :- Deserialize(payload);
      var done :- service.UnpinTask(taskId.TaskId());
      var sent := BroadcastTaskUpdate();
      r := sent.Then("ok");
    }

    /** `SetDescription`: stores the text for the payload's id; no signal. */
    method SetDescription(taskIdPayload: Text, desc: Text) returns (r: Result<string>)
      modifies service.descriptions.fs
      ensures Deserialize(taskIdPayload).Failure? ==>
        (r == Failure(Deserialize(taskIdPayload).error) && unchanged(service.descriptions.fs))
      ensures Deserialize(taskIdPayload).Success? ==> (r == Success("ok")
        && service.descriptions.fs.files == old(service.descriptions.fs.files)[
             DescriptionPath(service.descriptions.folder, Deserialize(taskIdPayload).value.TaskId().id) := desc])
    {
      var taskId :- Deserialize(taskIdPayload);
      var done := service.SetDescriptionCorrected(taskId.TaskId(), desc);
      r := done.Then("ok");
    }

    /** `GetDescription`: the stored text, or the empty text when there is none or it is empty. */
    method GetDescription(payload: Text) returns (r: Result<Text>)
      modifies service.descriptions.fs
      ensures Deserialize(payload).Failure? ==>
        (r == Failure(Deserialize(payload).error) && unchanged(service.descriptions.fs))
      ensures Deserialize(payload).Success? ==>
        r == Success(DescriptionOf(old(service.descriptions.fs.files), service.descriptions.folder,
                                   Deserialize(payload).value.TaskId().id).GetOr(Plain("")))
      ensures Deserialize(payload).Success? ==>
        service.descriptions.fs.files == Ensured(old(service.descriptions.fs.files),
          DescriptionPath(service.descriptions.folder, Deserialize(payload).value.TaskId().id))
    {
      var taskId :- Deserialize(payload);
      var loaded := service.GetDescriptionCorrected(taskId.TaskId());
      r := DescriptionReply(loaded);
    }

    /**
     * `SetDescription` as written: it reaches `TaskService.set_description`,
     * which raises for every id, so a payload that decodes is answered with
     * `AttributeError` and no file changes.
     */
    method SetDescriptionAsWritten(taskIdPayload: Text, desc: Text) returns (r: Result<string>)
      ensures Deserialize(taskIdPayload).Failure? ==> r == Failure(Deserialize(taskIdPayload).error)
      ensures Deserialize(taskIdPayload).Success? ==> r == Failure(AttributeError)
    {
      var taskId :- Deserialize(taskIdPayload);
      var done := service.SetDescription(taskId.TaskId(), desc);
      r := done.Then("ok");
    }

    /** `GetDescription` as written: `TaskService.get_description` raises for every id. */
    method GetDescriptionAsWritten(payload: Text) returns (r: Result<Text>)
      ensures Deserialize(payload).Failure? ==> r == Failure(Deserialize(payload).error)
      ensures Deserialize(payload).Success? ==> r == Failure(AttributeError)
    {
      var taskId :- Deserialize(payload);
      var loaded := service.GetDescription(taskId.TaskId());
      r := DescriptionReply(loaded);
    }
  }
}
