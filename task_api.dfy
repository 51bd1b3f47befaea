/**
 * The module functions of the task API. They act on a task store and a
 * description store given as arguments; `Add` goes through a service.
 */
module TaskApi {
  import opened Wrappers
  import opened Wire
  import opened Types
  import opened Files
  import opened TaskList
  import opened Store
  import opened Descriptions
  import opened Service
  import TaskRules

  /** `list`: the stored tasks in file order. */
  method List(store: TaskStore) returns (r: Result<seq<Task>>)
    modifies store.file.fs
    ensures r == old(store.Stored())
    ensures store.file.fs.files == Ensured(old(store.file.fs.files), store.file.path)
  {
    r := store.LoadAll();
  }

  /** `get`: the store's first-match lookup. */
  method Get(store: TaskStore, taskId: string) returns (r: Result<Option<Task>>)
    modifies store.file.fs
    ensures old(store.Stored()).Failure? ==> r == Failure(old(store.Stored()).error)
    ensures old(store.Stored()).Success? ==> r == Success(Lookup(old(store.Stored()).value, taskId))
    ensures store.file.fs.files == Ensured(old(store.file.fs.files), store.file.path)
    ensures store.Stored() == old(store.Stored())
  {
    r := store.Load(taskId);
  }

  /** `add`: delegated to the service, whose store receives the upsert. */
  method Add(service: TaskService, t: Task) returns (r: Result<Unit>)
    modifies service.store.file.fs
    ensures old(service.Tasks()).Failure? ==> (r == Failure(old(service.Tasks()).error)
      && service.store.file.fs.files == Ensured(old(service.store.file.fs.files), service.store.file.path))
    ensures old(service.Tasks()).Success? ==> (r.Success?
      && service.store.file.fs.files
         == old(service.store.file.fs.files)[service.store.file.path := DocumentText(Upsert(old(service.Tasks()).value, t))]
      && service.Tasks() == Success(Upsert(old(service.Tasks()).value, t)))
  {
    r := service.AddTask(t);
  }

  /** `update`: exactly the store's upsert. */
  method Update(store: TaskStore, t: Task) returns (r: Result<Unit>)
    modifies store.file.fs
    ensures old(store.Stored()).Failure? ==> (r == Failure(old(store.Stored()).error)
      && store.file.fs.files == Ensured(old(store.file.fs.files), store.file.path))
    ensures old(store.Stored()).Success? ==> (r.Success?
      && store.file.fs.files == old(store.file.fs.files)[store.file.path := DocumentText(Upsert(old(store.Stored()).value, t))]
      && store.Stored() == Success(Upsert(old(store.Stored()).value, t)))
  {
    r := store.Save(t);
  }

  /** `delete`: drops the id from the task document and touches no other file. */
  method Delete(store: TaskStore, taskId: string) returns (r: Result<Unit>)
    modifies store.file.fs
    ensures old(store.Stored()).Failure? ==> (r == Failure(old(store.Stored()).error)
      && store.file.fs.files == Ensured(old(store.file.fs.files), store.file.path))
    ensures old(store.Stored()).Success? ==> (r.Success?
      && store.file.fs.files == old(store.file.fs.files)[store.file.path := DocumentText(Remove(old(store.Stored()).value, taskId))]
      && store.Stored() == Success(Remove(old(store.Stored()).value, taskId)))
  {
    r := store.Delete(taskId);
  }

  /** Deleting a task leaves every description whose file is not the task document as it was. */
  lemma DeleteKeepsDescriptions(files: map<Path, Text>, document: Path, content: Text, folder: Path, id: string)
    requires DescriptionPath(folder, id) != document
    ensures DescriptionOf(files[document := content], folder, id) == DescriptionOf(files, folder, id)
  {
  }

  /** `mark_done`: the same backfill rule as the service, over the given store. */
  method MarkDone(store: TaskStore, taskId: string) returns (r: Result<Unit>)
    modifies store.file.fs
    ensures old(store.Stored()).Failure? ==> (r == Failure(old(store.Stored()).error)
      && store.file.fs.files == Ensured(old(store.file.fs.files), store.file.path))
    ensures old(store.Stored()).Success? ==> (r.Success?
      && store.Stored() == Success(TaskRules.MarkDone(old(store.Stored()).value, taskId)))
    ensures old(store.Stored()).Success? ==> var found := Lookup(old(store.Stored()).value, taskId);
      store.file.fs.files == if found.Some? && !found.value.done
        then old(store.file.fs.files)[store.file.path := DocumentText(TaskRules.MarkDone(old(store.Stored()).value, taskId))]
        else old(store.file.fs.files)
  {
    var found :- Get(store, taskId);
    if found.Some? && !found.value.done {
      var task := found.value;
      task := task.(done := true);
      task := task.(completed := TaskRules.Backfilled(task));
      r := Update(store, task);
    } else {
      r := Success(Unit);
    }
  }

  /** `mark_not_done`: clears `done` and `completed` of a present, done task. */
  method MarkNotDone(store: TaskStore, taskId: string) returns (r: Result<Unit>)
    modifies store.file.fs
    ensures old(store.Stored()).Failure? ==> (r == Failure(old(store.Stored()).error)
      && store.file.fs.files == Ensured(old(store.file.fs.files), store.file.path))
    ensures old(store.Stored()).Success? ==> (r.Success?
      && store.Stored() == Success(TaskRules.MarkNotDone(old(store.Stored()).value, taskId)))
    ensures old(store.Stored()).Success? ==> var found := Lookup(old(store.Stored()).value, taskId);
      store.file.fs.files == if found.Some? && found.value.done
        then old(store.file.fs.files)[store.file.path := DocumentText(TaskRules.MarkNotDone(old(store.Stored()).value, taskId))]
        else old(store.file.fs.files)
  {
    var found :- Get(store, taskId);
    if found.Some? && found.value.done {
      var task := found.value;
      task := task.(done := false);
      task := task.(completed := None);
      r := Update(store, task);
    } else {
      r := Success(Unit);
    }
  }

  /** `toggle`: flips `done` of a present task, backfilling or clearing `completed`. */
  method Toggle(store: TaskStore, taskId: string) returns (r: Result<Unit>)
    modifies store.file.fs
    ensures old(store.Stored()).Failure? ==> (r == Failure(old(store.Stored()).error)
      && store.file.fs.files == Ensured(old(store.file.fs.files), store.file.path))
    ensures old(store.Stored()).Success? ==> (r.Success?
      && store.Stored() == Success(TaskRules.Toggle(old(store.Stored()).value, taskId)))
    ensures old(store.Stored()).Success? ==> var found := Lookup(old(store.Stored()).value, taskId);
      store.file.fs.files == if found.Some?
        then old(store.file.fs.files)[store.file.path := DocumentText(TaskRules.Toggle(old(store.Stored()).value, taskId))]
        else old(store.file.fs.files)
  {
    var found :- Get(store, taskId);
    if found.Some? {
      var task := found.value;
      task := task.(done := !task.done);
      task := task.(completed := if task.done then TaskRules.Backfilled(task) else None);
      r := Update(store, task);
    } else {
      r := Success(Unit);
    }
  }

  /** `pin`: pins a present, unpinned task. */
  method Pin(store: TaskStore, taskId: string) returns (r: Result<Unit>)
    modifies store.file.fs
    ensures old(store.Stored()).Failure? ==> (r == Failure(old(store.Stored()).error)
      && store.file.fs.files == Ensured(old(store.file.fs.files), store.file.path))
    ensures old(store.Stored()).Success? ==> (r.Success?
      && store.Stored() == Success(TaskRules.Pin(old(store.Stored()).value, taskId)))
    ensures old(store.Stored()).Success? ==> var found := Lookup(old(store.Stored()).value, taskId);
      store.file.fs.files == if found.Some? && !found.value.pinned
        then old(store.file.fs.files)[store.file.path := DocumentText(TaskRules.Pin(old(store.Stored()).value, taskId))]
        else old(store.file.fs.files)
  {
    var found :- Get(store, taskId);
    if found.Some? && !found.value.pinned {
      var task := found.value;
      task := task.(pinned := true);
      r := Update(store, task);
    } else {
      r := Success(Unit);
    }
  }

  /** `unpin`: unpins a present, pinned task. */
  method Unpin(store: TaskStore, taskId: string) returns (r: Result<Unit>)
    modifies store.file.fs
    ensures old(store.Stored()).Failure? ==> (r == Failure(old(store.Stored()).error)
      && store.file.fs.files == Ensured(old(store.file.fs.files), store.file.path))
    ensures old(store.Stored()).Success? ==> (r.Success?
      && store.Stored() == Success(TaskRules.Unpin(old(store.Stored()).value, taskId)))
    ensures old(store.Stored()).Success? ==> var found := Lookup(old(store.Stored()).value, taskId);
      store.file.fs.files == if found.Some? && found.value.pinned
        then old(store.file.fs.files)[store.file.path := DocumentText(TaskRules.Unpin(old(store.Stored()).value, taskId))]
        else old(store.file.fs.files)
  {
    var found :- Get(store, taskId);
    if found.Some? && found.value.pinned {
      var task := found.value;
      task := task.(pinned := false);
      r := Update(store, task);
    } else {
      r := Success(Unit);
    }
  }

  /** `get_description`: the stored text, the empty text for an id without a file. */
  method GetDescription(descriptions: DescriptionStore, taskId: string) returns (r: Option<Text>)
    modifies descriptions.fs
    ensures r == Some(DescriptionOf(old(descriptions.fs.files), descriptions.folder, taskId).GetOr(Plain("")))
    ensures descriptions.fs.files == Ensured(old(descriptions.fs.files), DescriptionPath(descriptions.folder, taskId))
  {
    r := descriptions.LoadDescription(taskId);
  }

  /** `set_description`: the id's file holds exactly the new text. */
  method SetDescription(descriptions: DescriptionStore, taskId: string, description: Text)
    modifies descriptions.fs
    ensures descriptions.fs.files == old(descriptions.fs.files)[DescriptionPath(descriptions.folder, taskId) := description]
  {
    descriptions.SaveDescription(taskId, description);
  }
}
