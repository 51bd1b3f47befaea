/**
 * The stored list of tasks as a value: the first-match lookup, upsert and
 * filter-delete that the task store performs on the decoded document.
 */
module TaskList {
  import opened Wrappers
  import opened Types

  /** The position of the first task with the given id, in document order. */
  function FindIndex(ts: seq<Task>, id: string): (r: Option<nat>)
    ensures r.Some? ==> r.value < |ts| && ts[r.value].id == id
    ensures r.Some? ==> forall j | 0 <= j < r.value :: ts[j].id != id
    ensures r.None? ==> forall j | 0 <= j < |ts| :: ts[j].id != id
  {
    if ts == [] then None
    else if ts[0].id == id then Some(0)
    else match FindIndex(ts[1..], id)
      case None => None
      case Some(k) => Some(k + 1)
  }

  /** A position holding the id with none before it is the one `FindIndex` finds. */
  lemma FindIndexAt(ts: seq<Task>, id: string, i: nat)
    requires i < |ts| && ts[i].id == id
    requires forall j | 0 <= j < i :: ts[j].id != id
    ensures FindIndex(ts, id) == Some(i)
  {
  }

  /** `TaskStore.load`'s scan: the first task with that id, or none. */
  function Lookup(ts: seq<Task>, id: string): (r: Option<Task>)
    ensures r.None? <==> FindIndex(ts, id).None?
    ensures r.Some? ==> r.value == ts[FindIndex(ts, id).value]
  {
    if ts == [] then None
    else if ts[0].id == id then Some(ts[0])
    else Lookup(ts[1..], id)
  }

  /** The loop of `TaskStore.save`: replace the first match, or append. */
  function Upsert(ts: seq<Task>, t: Task): (r: seq<Task>)
    ensures FindIndex(ts, t.id).Some? ==> r == ts[FindIndex(ts, t.id).value := t]
    ensures FindIndex(ts, t.id).None? ==> r == ts + [t]
  {
    if ts == [] then [t]
    else if ts[0].id == t.id then [t] + ts[1..]
    else [ts[0]] + Upsert(ts[1..], t)
  }

  /** The comprehension of `TaskStore.delete`: keep the tasks with another id. */
  function Remove(ts: seq<Task>, id: string): (r: seq<Task>)
    ensures |r| <= |ts|
    ensures forall j | 0 <= j < |r| :: r[j].id != id
    ensures FindIndex(ts, id).None? ==> r == ts
  {
    if ts == [] then []
    else if ts[0].id == id then Remove(ts[1..], id)
    else [ts[0]] + Remove(ts[1..], id)
  }

  /** After an upsert the task is what a lookup of its id finds. */
  lemma LookupUpsert(ts: seq<Task>, t: Task)
    ensures Lookup(Upsert(ts, t), t.id) == Some(t)
  {
    match FindIndex(ts, t.id)
    case Some(i) =>
      FindIndexAt(Upsert(ts, t), t.id, i);
    case None =>
      FindIndexAt(Upsert(ts, t), t.id, |ts|);
  }

  /** An upsert does not change what a lookup of any other id finds. */
  lemma LookupUpsertOther(ts: seq<Task>, t: Task, id: string)
    requires id != t.id
    ensures Lookup(Upsert(ts, t), id) == Lookup(ts, id)
  {
    var r := Upsert(ts, t);
    match FindIndex(ts, id)
    case Some(i) =>
      FindIndexAt(r, id, i);
    case None =>
      assert forall j | 0 <= j < |r| :: r[j].id != id;
  }

  /** Replacing an existing id keeps the length and every other position. */
  lemma UpsertPresent(ts: seq<Task>, t: Task, i: nat)
    requires i < |ts| && ts[i].id == t.id
    requires forall j | 0 <= j < i :: ts[j].id != t.id
    ensures |Upsert(ts, t)| == |ts|
    ensures Upsert(ts, t)[i] == t
    ensures forall j | 0 <= j < |ts| && j != i :: Upsert(ts, t)[j] == ts[j]
  {
    FindIndexAt(ts, t.id, i);
  }

  /** A second upsert of the same id overrides the first. */
  lemma UpsertUpsert(ts: seq<Task>, t: Task, u: Task)
    requires t.id == u.id
    ensures Upsert(Upsert(ts, t), u) == Upsert(ts, u)
  {
    match FindIndex(ts, t.id)
    case Some(i) =>
      FindIndexAt(Upsert(ts, t), t.id, i);
    case None =>
      FindIndexAt(Upsert(ts, t), t.id, |ts|);
  }

  /** Saving a task twice gives the same list as saving it once. */
  lemma UpsertIdempotent(ts: seq<Task>, t: Task)
    ensures Upsert(Upsert(ts, t), t) == Upsert(ts, t)
  {
    UpsertUpsert(ts, t, t);
  }

  /** Writing back the task a lookup found changes nothing. */
  lemma UpsertLookedUp(ts: seq<Task>, id: string)
    requires Lookup(ts, id).Some?
    ensures Upsert(ts, Lookup(ts, id).value) == ts
  {
  }

  /** Deleting distributes over concatenation: the survivors keep their order. */
  lemma {:induction false} RemoveAppend(a: seq<Task>, b: seq<Task>, id: string)
    ensures Remove(a + b, id) == Remove(a, id) + Remove(b, id)
  {
    if a == [] {
      assert a + b == b;
    } else {
      assert (a + b)[1..] == a[1..] + b;
      RemoveAppend(a[1..], b, id);
    }
  }

  /** A task survives deletion exactly when its id differs. */
  lemma RemoveSingle(t: Task, id: string)
    ensures Remove([t], id) == if t.id == id then [] else [t]
  {
  }

  /** After a delete, the id is gone; lookups of other ids are unaffected. */
  lemma {:induction false} LookupRemove(ts: seq<Task>, id: string, other: string)
    ensures Lookup(Remove(ts, id), id) == None
    ensures other != id ==> Lookup(Remove(ts, id), other) == Lookup(ts, other)
  {
    if ts != [] {
      LookupRemove(ts[1..], id, other);
    }
  }
}
