/**
 * The task mutation rules shared by `TaskService` and the module functions of
 * the task API: each looks a task up by id, changes some fields, and writes it
 * back with an upsert; a missing id, or a task already in the target state,
 * leaves the list as it was.
 */
module TaskRules {
  import opened Wrappers
  import opened Types
  import opened TaskList

  /** `task.completed or task.created`: a recorded completion wins, else creation time. */
  function Backfilled(t: Task): (r: Option<Timestamp>)
    ensures t.completed.Some? ==> r == t.completed
    ensures t.completed.None? ==> r == t.created
  {
    if t.completed.Some? then t.completed else t.created
  }

  function MarkedDone(t: Task): Task {
    t.(done := true, completed := Backfilled(t))
  }

  function MarkedNotDone(t: Task): Task {
    t.(done := false, completed := None)
  }

  /** `done` flips; `completed` is backfilled on becoming done and cleared otherwise. */
  function Toggled(t: Task): (r: Task)
    ensures r.done == !t.done
    ensures r.done ==> r.completed == Backfilled(t)
    ensures !r.done ==> r.completed == None
    ensures r.(done := t.done, completed := t.completed) == t
  {
    if t.done then MarkedNotDone(t) else MarkedDone(t)
  }

  /**
   * Two lists holding tasks with the same ids at the same positions: a rule
   * changes fields of a task, never which tasks are stored or their order.
   */
  predicate SameIds(a: seq<Task>, b: seq<Task>) {
    |a| == |b| && forall i | 0 <= i < |a| :: a[i].id == b[i].id
  }

  function MarkDone(ts: seq<Task>, id: string): (r: seq<Task>)
    ensures SameIds(ts, r)
  {
    match Lookup(ts, id)
    case Some(t) => if !t.done then Upsert(ts, MarkedDone(t)) else ts
    case None => ts
  }

  function MarkNotDone(ts: seq<Task>, id: string): (r: seq<Task>)
    ensures SameIds(ts, r)
  {
    match Lookup(ts, id)
    case Some(t) => if t.done then Upsert(ts, MarkedNotDone(t)) else ts
    case None => ts
  }

  function Toggle(ts: seq<Task>, id: string): (r: seq<Task>)
    ensures SameIds(ts, r)
  {
    match Lookup(ts, id)
    case Some(t) => Upsert(ts, Toggled(t))
    case None => ts
  }

  function Pin(ts: seq<Task>, id: string): (r: seq<Task>)
    ensures SameIds(ts, r)
  {
    match Lookup(ts, id)
    case Some(t) => if !t.pinned then Upsert(ts, t.(pinned := true)) else ts
    case None => ts
  }

  function Unpin(ts: seq<Task>, id: string): (r: seq<Task>)
    ensures SameIds(ts, r)
  {
    match Lookup(ts, id)
    case Some(t) => if t.pinned then Upsert(ts, t.(pinned := false)) else ts
    case None => ts
  }

  function Rename(ts: seq<Task>, id: string, title: string): (r: seq<Task>)
    ensures SameIds(ts, r)
  {
    match Lookup(ts, id)
    case Some(t) => Upsert(ts, t.(title := title))
    case None => ts
  }

  /**
   * The list after writing back `u` over the first task with `u.id`: same
   * length, `u` at that position, every other position untouched.
   */
  predicate ReplacedAt(before: seq<Task>, after: seq<Task>, u: Task) {
    FindIndex(before, u.id).Some?
    && after == before[FindIndex(before, u.id).value := u]
  }

  /**
   * Marking done: on a present, not-done task, `done` becomes true and
   * `completed` becomes the old completion time if any, else the creation time;
   * no other field and no other position changes. Otherwise nothing changes.
   */
  lemma MarkDoneEffect(ts: seq<Task>, id: string)
    ensures var r := MarkDone(ts, id);
      match Lookup(ts, id)
      case Some(t) =>
        if !t.done then
          ReplacedAt(ts, r, t.(done := true, completed := if t.completed.Some? then t.completed else t.created))
        else r == ts
      case None => r == ts
  {
  }

  /** Marking not done: on a present, done task, `done` and `completed` are cleared. */
  lemma MarkNotDoneEffect(ts: seq<Task>, id: string)
    ensures var r := MarkNotDone(ts, id);
      match Lookup(ts, id)
      case Some(t) =>
        if t.done then ReplacedAt(ts, r, t.(done := false, completed := None)) else r == ts
      case None => r == ts
  {
  }

  /** Toggling: on a present task, `done` flips with the backfill or clear of `completed`. */
  lemma ToggleEffect(ts: seq<Task>, id: string)
    ensures var r := Toggle(ts, id);
      match Lookup(ts, id)
      case Some(t) =>
        ReplacedAt(ts, r, t.(done := !t.done,
                             completed := if t.done then None
                                          else if t.completed.Some? then t.completed else t.created))
      case None => r == ts
  {
  }

  /** Pinning and unpinning change only `pinned`, and only when it differs. */
  lemma PinEffect(ts: seq<Task>, id: string)
    ensures var r := Pin(ts, id);
      match Lookup(ts, id)
      case Some(t) => if !t.pinned then ReplacedAt(ts, r, t.(pinned := true)) else r == ts
      case None => r == ts
    ensures var r := Unpin(ts, id);
      match Lookup(ts, id)
      case Some(t) => if t.pinned then ReplacedAt(ts, r, t.(pinned := false)) else r == ts
      case None => r == ts
  {
  }

  /** Renaming changes only the title of a present task. */
  lemma RenameEffect(ts: seq<Task>, id: string, title: string)
    ensures var r := Rename(ts, id, title);
      match Lookup(ts, id)
      case Some(t) => ReplacedAt(ts, r, t.(title := title))
      case None => r == ts
  {
  }

  /** Marking done twice is the same as marking done once. */
  lemma MarkDoneIdempotent(ts: seq<Task>, id: string)
    ensures MarkDone(MarkDone(ts, id), id) == MarkDone(ts, id)
  {
    match Lookup(ts, id)
    case Some(t) =>
      if !t.done {
        LookupUpsert(ts, MarkedDone(t));
      }
    case None =>
  }

  /** Marking not done twice is the same as once. */
  lemma MarkNotDoneIdempotent(ts: seq<Task>, id: string)
    ensures MarkNotDone(MarkNotDone(ts, id), id) == MarkNotDone(ts, id)
  {
    match Lookup(ts, id)
    case Some(t) =>
      if t.done {
        LookupUpsert(ts, MarkedNotDone(t));
      }
    case None =>
  }

  /** Toggling a not-done task that has no completion time twice restores the list exactly. */
  lemma ToggleTwice(ts: seq<Task>, id: string)
    requires Lookup(ts, id).Some? ==> !Lookup(ts, id).value.done && Lookup(ts, id).value.completed == None
    ensures Toggle(Toggle(ts, id), id) == ts
  {
    match Lookup(ts, id)
    case Some(t) =>
      var once := Upsert(ts, Toggled(t));
      LookupUpsert(ts, Toggled(t));
      assert Toggled(Toggled(t)) == t;
      UpsertUpsert(ts, Toggled(t), t);
      UpsertLookedUp(ts, id);
    case None =>
  }

  /**
   * The backfill rule across a done / not-done / done cycle: a task created at
   * `t0` with no completion time is completed at `t0`, cleared, then completed
   * at `t0` again.
   */
  lemma BackfillCycle(ts: seq<Task>, id: string, t0: Timestamp)
    requires Lookup(ts, id).Some?
    requires var t := Lookup(ts, id).value; !t.done && t.created == Some(t0) && t.completed == None
    ensures var once := MarkDone(ts, id);
      Lookup(once, id).Some? && Lookup(once, id).value.completed == Some(t0)
    ensures var cleared := MarkNotDone(MarkDone(ts, id), id);
      Lookup(cleared, id).Some? && Lookup(cleared, id).value.completed == None
    ensures var again := MarkDone(MarkNotDone(MarkDone(ts, id), id), id);
      Lookup(again, id).Some? && Lookup(again, id).value.completed == Some(t0)
  {
    var t := Lookup(ts, id).value;
    var once := MarkDone(ts, id);
    LookupUpsert(ts, MarkedDone(t));
    var cleared := MarkNotDone(once, id);
    LookupUpsert(once, MarkedNotDone(MarkedDone(t)));
    var again := MarkDone(cleared, id);
    LookupUpsert(cleared, MarkedDone(MarkedNotDone(MarkedDone(t))));
  }

  /** Every not-done task has no completion time. */
  predicate CompletedConsistent(ts: seq<Task>) {
    forall j | 0 <= j < |ts| :: !ts[j].done ==> ts[j].completed == None
  }

  lemma UpsertConsistent(ts: seq<Task>, u: Task)
    requires CompletedConsistent(ts)
    requires !u.done ==> u.completed == None
    ensures CompletedConsistent(Upsert(ts, u))
  {
  }

  /** The done-state operations keep "not done implies no completion time". */
  lemma DoneRulesKeepConsistency(ts: seq<Task>, id: string)
    requires CompletedConsistent(ts)
    ensures CompletedConsistent(MarkDone(ts, id))
    ensures CompletedConsistent(MarkNotDone(ts, id))
    ensures CompletedConsistent(Toggle(ts, id))
  {
    match Lookup(ts, id)
    case Some(t) =>
      UpsertConsistent(ts, MarkedDone(t));
      UpsertConsistent(ts, MarkedNotDone(t));
      UpsertConsistent(ts, Toggled(t));
    case None =>
  }

  /** A freshly made task satisfies the invariant. */
  lemma NewTaskConsistent(ts: seq<Task>, title: string, uuid: string, now: Timestamp)
    requires CompletedConsistent(ts)
    ensures CompletedConsistent(Upsert(ts, NewTask(title, uuid, now)))
  {
    UpsertConsistent(ts, NewTask(title, uuid, now));
  }
}
