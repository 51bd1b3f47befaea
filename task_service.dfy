/**
 * `TaskService`: the task business logic. Each mutator looks the task up by
 * id, assigns fields of that copy, and writes it back through the store.
 */
module Service {
  import opened Wrappers
  import opened Wire
  import opened Types
  import opened Files
  import opened TaskList
  import opened Store
  import opened Descriptions
  import TaskRules

  class TaskService {
    const store: TaskStore
    const descriptions: DescriptionStore

    /**
     * `TaskService(task_store_path)` builds its own store on that path. The
     * description store is the corrected wiring (see `GetDescription`).
     */
    constructor(file: LockedFile, descriptions: DescriptionStore)
      ensures fresh(store) && store.file == file && this.descriptions == descriptions
    {
      store := new TaskStore(file);
      this.descriptions := descriptions;
    }

    /** The stored tasks, or the error reading them raises. */
    function Tasks(): Result<seq<Task>>
      reads store.file.fs
    {
      store.Stored()
    }

    /** `list_tasks`: `load_all`. */
    method ListTasks() returns (r: Result<seq<Task>>)
      modifies store.file.fs
      ensures r == old(Tasks())
      ensures store.file.fs.files == Ensured(old(store.file.fs.files), store.file.path)
      ensures Tasks() == old(Tasks())
    {
      r := store.LoadAll();
    }

    /** `get_task`: the first stored task with `task_id.id`. */
    method GetTask(taskId: Id) returns (r: Result<Option<Task>>)
      modifies store.file.fs
      ensures old(Tasks()).Failure? ==> r == Failure(old(Tasks()).error)
      ensures old(Tasks()).Success? ==> r == Success(Lookup(old(Tasks()).value, taskId.id))
      ensures store.file.fs.files == Ensured(old(store.file.fs.files), store.file.path)
      ensures Tasks() == old(Tasks())
    {
      r := store.Load(taskId.id);
    }

    /** `add_task`: the store's upsert. */
    method AddTask(t: Task) returns (r: Result<Unit>)
      modifies store.file.fs
      ensures old(Tasks()).Failure? ==> (r == Failure(old(Tasks()).error)
        && store.file.fs.files == Ensured(old(store.file.fs.files), store.file.path))
      ensures old(Tasks()).Success? ==> (r.Success?
        && store.file.fs.files == old(store.file.fs.files)[store.file.path := DocumentText(Upsert(old(Tasks()).value, t))]
        && Tasks() == Success(Upsert(old(Tasks()).value, t)))
    {
      r := store.Save(t);
    }

    /** `update_task`: the same upsert as `add_task`. */
    method UpdateTask(t: Task) returns (r: Result<Unit>)
      modifies store.file.fs
      ensures old(Tasks()).Failure? ==> (r == Failure(old(Tasks()).error)
        && store.file.fs.files == Ensured(old(store.file.fs.files), store.file.path))
      ensures old(Tasks()).Success? ==> (r.Success?
        && store.file.fs.files == old(store.file.fs.files)[store.file.path := DocumentText(Upsert(old(Tasks()).value, t))]
        && Tasks() == Success(Upsert(old(Tasks()).value, t)))
    {
      r := store.Save(t);
    }

    /** `delete_task`: every task with `task_id.id` is dropped. */
    method DeleteTask(taskId: Id) returns (r: Result<Unit>)
      modifies store.file.fs
      ensures old(Tasks()).Failure? ==> (r == Failure(old(Tasks()).error)
        && store.file.fs.files == Ensured(old(store.file.fs.files), store.file.path))
      ensures old(Tasks()).Success? ==> (r.Success?
        && store.file.fs.files == old(store.file.fs.files)[store.file.path := DocumentText(Remove(old(Tasks()).value, taskId.id))]
        && Tasks() == Success(Remove(old(Tasks()).value, taskId.id)))
    {
      r := store.Delete(taskId.id);
    }

    /**
     * `mark_done`: a present, not-done task becomes done with `completed`
     * backfilled; otherwise nothing is written.
     */
    method MarkDone(taskId: Id) returns (r: Result<Unit>)
      modifies store.file.fs
      ensures old(Tasks()).Failure? ==> (r == Failure(old(Tasks()).error)
        && store.file.fs.files == Ensured(old(store.file.fs.files), store.file.path))
      ensures old(Tasks()).Success? ==> (r.Success?
        && Tasks() == Success(TaskRules.MarkDone(old(Tasks()).value, taskId.id)))
      ensures old(Tasks()).Success? ==> var found := Lookup(old(Tasks()).value, taskId.id);
        store.file.fs.files == if found.Some? && !found.value.done
          then old(store.file.fs.files)[store.file.path := DocumentText(TaskRules.MarkDone(old(Tasks()).value, taskId.id))]
          else old(store.file.fs.files)
      ensures store.file.fs.files - {store.file.path} == old(store.file.fs.files) - {store.file.path}
    {
      var found :- GetTask(taskId);
      if found.Some? && !found.value.done {
        var task := found.value;
        task := task.(done := true);
        task := task.(completed := TaskRules.Backfilled(task));
        r := UpdateTask(task);
      } else {
        r := Success(Unit);
      }
    }

    /** `mark_not_done`: a present, done task becomes not done with `completed` cleared. */
    method MarkNotDone(taskId: Id) returns (r: Result<Unit>)
      modifies store.file.fs
      ensures old(Tasks()).Failure? ==> (r == Failure(old(Tasks()).error)
        && store.file.fs.files == Ensured(old(store.file.fs.files), store.file.path))
      ensures old(Tasks()).Success? ==> (r.Success?
        && Tasks() == Success(TaskRules.MarkNotDone(old(Tasks()).value, taskId.id)))
      ensures old(Tasks()).Success? ==> var found := Lookup(old(Tasks()).value, taskId.id);
        store.file.fs.files == if found.Some? && found.value.done
          then old(store.file.fs.files)[store.file.path := DocumentText(TaskRules.MarkNotDone(old(Tasks()).value, taskId.id))]
          else old(store.file.fs.files)
      ensures store.file.fs.files - {store.file.path} == old(store.file.fs.files) - {store.file.path}
    {
      var found :- GetTask(taskId);
      if found.Some? && found.value.done {
        var task := found.value;
        task := task.(done := false);
        task := task.(completed := None);
        r := UpdateTask(task);
      } else {
        r := Success(Unit);
      }
    }

    /** `toggle_done`: a present task flips `done`; `completed` follows the new state. */
    method ToggleDone(taskId: Id) returns (r: Result<Unit>)
      modifies store.file.fs
      ensures old(Tasks()).Failure? ==> (r == Failure(old(Tasks()).error)
        && store.file.fs.files == Ensured(old(store.file.fs.files), store.file.path))
      ensures old(Tasks()).Success? ==> (r.Success?
        && Tasks() == Success(TaskRules.Toggle(old(Tasks()).value, taskId.id)))
      ensures old(Tasks()).Success? ==> var found := Lookup(old(Tasks()).value, taskId.id);
        store.file.fs.files == if found.Some?
          then old(store.file.fs.files)[store.file.path := DocumentText(TaskRules.Toggle(old(Tasks()).value, taskId.id))]
          else old(store.file.fs.files)
      ensures store.file.fs.files - {store.file.path} == old(store.file.fs.files) - {store.file.path}
    {
      var found :- GetTask(taskId);
      if found.Some? {
        var task := found.value;
        task := task.(done := !task.done);
        task := task.(completed := if task.done then TaskRules.Backfilled(task) else None);
        r := UpdateTask(task);
      } else {
        r := Success(Unit);
      }
    }

    /** `pin_task`: a present, unpinned task becomes pinned. */
    method PinTask(taskId: Id) returns (r: Result<Unit>)
      modifies store.file.fs
      ensures old(Tasks()).Failure? ==> (r == Failure(old(Tasks()).error)
        && store.file.fs.files == Ensured(old(store.file.fs.files), store.file.path))
      ensures old(Tasks()).Success? ==> (r.Success?
        && Tasks() == Success(TaskRules.Pin(old(Tasks()).value, taskId.id)))
      ensures old(Tasks()).Success? ==> var found := Lookup(old(Tasks()).value, taskId.id);
        store.file.fs.files == if found.Some? && !found.value.pinned
          then old(store.file.fs.files)[store.file.path := DocumentText(TaskRules.Pin(old(Tasks()).value, taskId.id))]
          else old(store.file.fs.files)
      ensures store.file.fs.files - {store.file.path} == old(store.file.fs.files) - {store.file.path}
    {
      var found :- GetTask(taskId);
      if found.Some? && !found.value.pinned {
        var task := found.value;
        task := task.(pinned := true);
        r := UpdateTask(task);
      } else {
        r := Success(Unit);
      }
    }

    /** `unpin_task`: a present, pinned task becomes unpinned. */
    method UnpinTask(taskId: Id) returns (r: Result<Unit>)
      modifies store.file.fs
      ensures old(Tasks()).Failure? ==> (r == Failure(old(Tasks()).error)
        && store.file.fs.files == Ensured(old(store.file.fs.files), store.file.path))
      ensures old(Tasks()).Success? ==> (r.Success?
        && Tasks() == Success(TaskRules.Unpin(old(Tasks()).value, taskId.id)))
      ensures old(Tasks()).Success? ==> var found := Lookup(old(Tasks()).value, taskId.id);
        store.file.fs.files == if found.Some? && found.value.pinned
          then old(store.file.fs.files)[store.file.path := DocumentText(TaskRules.Unpin(old(Tasks()).value, taskId.id))]
          else old(store.file.fs.files)
      ensures store.file.fs.files - {store.file.path} == old(store.file.fs.files) - {store.file.path}
    {
      var found :- GetTask(taskId);
      if found.Some? && found.value.pinned {
        var task := found.value;
        task := task.(pinned := false);
        r := UpdateTask(task);
      } else {
        r := Success(Unit);
      }
    }

    /** `rename_task`: a present task takes the new title. */
    method RenameTask(taskId: Id, newName: string) returns (r: Result<Unit>)
      modifies store.file.fs
      ensures old(Tasks()).Failure? ==> (r == Failure(old(Tasks()).error)
        && store.file.fs.files == Ensured(old(store.file.fs.files), store.file.path))
      ensures old(Tasks()).Success? ==> (r.Success?
        && Tasks() == Success(TaskRules.Rename(old(Tasks()).value, taskId.id, newName)))
      ensures old(Tasks()).Success? ==> var found := Lookup(old(Tasks()).value, taskId.id);
        store.file.fs.files == if found.Some?
          then old(store.file.fs.files)[store.file.path := DocumentText(TaskRules.Rename(old(Tasks()).value, taskId.id, newName))]
          else old(store.file.fs.files)
      ensures store.file.fs.files - {store.file.path} == old(store.file.fs.files) - {store.file.path}
    {
      var found :- GetTask(taskId);
      if found.Some? {
        var task := found.value;
        task := task.(title := newName);
        r := UpdateTask(task);
      } else {
        r := Success(Unit);
      }
    }

    /**
     * `get_description` as written: it calls `load_description` on the task
     * store, which has no such method, so every call raises.
     */
    method GetDescription(taskId: Id) returns (r: Result<Option<Text>>)
      ensures r == Failure(AttributeError)
    {
      r := Failure(AttributeError);
    }

    /** `set_description` as written: `save_description` is missing from the task store too. */
    method SetDescription(taskId: Id, description: Text) returns (r: Result<Unit>)
      ensures r == Failure(AttributeError)
    {
      r := Failure(AttributeError);
    }

    /** `get_description` routed to the description store. */
    method GetDescriptionCorrected(taskId: Id) returns (r: Result<Option<Text>>)
      modifies descriptions.fs
      ensures r == Success(Some(DescriptionOf(old(descriptions.fs.files), descriptions.folder, taskId.id).GetOr(Plain(""))))
      ensures descriptions.fs.files == Ensured(old(descriptions.fs.files), DescriptionPath(descriptions.folder, taskId.id))
    {
      var d := descriptions.LoadDescription(taskId.id);
      r := Success(d);
    }

    /** `set_description` routed to the description store. */
    method SetDescriptionCorrected(taskId: Id, description: Text) returns (r: Result<Unit>)
      modifies descriptions.fs
      ensures r.Success?
      ensures descriptions.fs.files == old(descriptions.fs.files)[DescriptionPath(descriptions.folder, taskId.id) := description]
    {
      descriptions.SaveDescription(taskId.id, description);
      r := Success(Unit);
    }
  }

  /**
   * Marking a task done leaves every description that is not the task document
   * as it was, also when both stores live on one file system.
   */
  method MarkDoneKeepsDescription(service: TaskService, taskId: Id, other: string) returns (r: Result<Unit>)
    requires DescriptionPath(service.descriptions.folder, other) != service.store.file.path
    modifies service.store.file.fs
    ensures DescriptionOf(service.descriptions.fs.files, service.descriptions.folder, other)
         == old(DescriptionOf(service.descriptions.fs.files, service.descriptions.folder, other))
  {
    r := service.MarkDone(taskId);
  }

  /** Through the corrected wiring, a description set for a task is the one read back. */
  method SetThenGetDescription(service: TaskService, taskId: Id, description: Text) returns (r: Result<Option<Text>>)
    modifies service.descriptions.fs
    ensures r == Success(Some(description))
  {
    var saved := service.SetDescriptionCorrected(taskId, description);
    r := service.GetDescriptionCorrected(taskId);
  }
}
