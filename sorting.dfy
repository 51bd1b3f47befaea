/**
 * The default task order (pinned first, then not done, then oldest first),
 * the stable sort that applies it, and the 1-based index lookup.
 */
module Sorting {
  import opened Wrappers
  import opened Types

  /** `(not pinned, done, created or datetime.min)`. */
  datatype SortKey = SortKey(unpinned: bool, done: bool, created: Timestamp)

  function DefaultSortKey(t: Task): (k: SortKey)
    ensures k.unpinned == !t.pinned && k.done == t.done
    ensures t.created.None? ==> k.created == 0
    ensures t.created.Some? ==> k.created == t.created.value
  {
    SortKey(!t.pinned, t.done, t.created.GetOr(0))
  }

  /** `False < True`. */
  predicate BoolLt(a: bool, b: bool) {
    !a && b
  }

  /** Python's tuple comparison on keys: lexicographic. */
  predicate KeyLt(a: SortKey, b: SortKey) {
    BoolLt(a.unpinned, b.unpinned)
    || (a.unpinned == b.unpinned
        && (BoolLt(a.done, b.done) || (a.done == b.done && a.created < b.created)))
  }

  predicate KeyLe(a: SortKey, b: SortKey) {
    KeyLt(a, b) || a == b
  }

  lemma KeyLeTotal(a: SortKey, b: SortKey)
    ensures KeyLe(a, b) || KeyLe(b, a)
  {
  }

  lemma KeyLeTransitive(a: SortKey, b: SortKey, c: SortKey)
    requires KeyLe(a, b) && KeyLe(b, c)
    ensures KeyLe(a, c)
  {
  }

  /** Neighbouring tasks are in key order. */
  predicate Sorted(s: seq<Task>) {
    |s| < 2 || (KeyLe(DefaultSortKey(s[0]), DefaultSortKey(s[1])) && Sorted(s[1..]))
  }

  /**
   * Puts `t` in front of the first task whose key is not smaller, so that it
   * lands before tasks of equal key (all of which followed it in the input).
   */
  function Insert(t: Task, s: seq<Task>): (r: seq<Task>)
    ensures |r| == |s| + 1 && multiset(r) == multiset(s) + multiset{t}
    ensures r[0] == t || (s != [] && r[0] == s[0])
    ensures Sorted(s) ==> Sorted(r)
  {
    if s == [] then [t]
    else if KeyLe(DefaultSortKey(t), DefaultSortKey(s[0])) then [t] + s
    else
      KeyLeTotal(DefaultSortKey(t), DefaultSortKey(s[0]));
      var rest := Insert(t, s[1..]);
      assert s == [s[0]] + s[1..];
      assert Sorted(s) ==> KeyLe(DefaultSortKey(s[0]), DefaultSortKey(rest[0]));
      assert ([s[0]] + rest)[1..] == rest;
      [s[0]] + rest
  }

  /** `sorted(tasks, key=default_sort_key)`: a sorted permutation of the input. */
  function SortTasks(s: seq<Task>): (r: seq<Task>)
    ensures multiset(r) == multiset(s) && |r| == |s|
    ensures Sorted(r)
  {
    if s == [] then [] else
      assert s == [s[0]] + s[1..];
      Insert(s[0], SortTasks(s[1..]))
  }

  /** The tasks of `s` whose key is `k`, in their order in `s`. */
  function WithKey(s: seq<Task>, k: SortKey): seq<Task> {
    if s == [] then []
    else (if DefaultSortKey(s[0]) == k then [s[0]] else []) + WithKey(s[1..], k)
  }

  lemma WithKeyCons(x: Task, s: seq<Task>, k: SortKey)
    ensures WithKey([x] + s, k) == (if DefaultSortKey(x) == k then [x] else []) + WithKey(s, k)
  {
    assert ([x] + s)[1..] == s;
  }

  lemma InsertFront(t: Task, s: seq<Task>)
    requires s == [] || KeyLe(DefaultSortKey(t), DefaultSortKey(s[0]))
    ensures Insert(t, s) == [t] + s
  {
  }

  lemma InsertLater(t: Task, s: seq<Task>)
    requires s != [] && !KeyLe(DefaultSortKey(t), DefaultSortKey(s[0]))
    ensures Insert(t, s) == [s[0]] + Insert(t, s[1..])
  {
  }

  lemma {:induction false} WithKeyInsert(t: Task, s: seq<Task>, k: SortKey)
    ensures WithKey(Insert(t, s), k) == (if DefaultSortKey(t) == k then [t] else []) + WithKey(s, k)
  {
    if s == [] || KeyLe(DefaultSortKey(t), DefaultSortKey(s[0])) {
      InsertFront(t, s);
      WithKeyCons(t, s, k);
    } else {
      var head := if DefaultSortKey(s[0]) == k then [s[0]] else [];
      var mine := if DefaultSortKey(t) == k then [t] else [];
      var rest := WithKey(s[1..], k);
      InsertLater(t, s);
      WithKeyCons(s[0], Insert(t, s[1..]), k);
      WithKeyInsert(t, s[1..], k);
      assert WithKey(Insert(t, s), k) == head + (mine + rest);
      assert head == [] || mine == [];
      PrefixesCommute(head, mine, rest);
      WithKeyCons(s[0], s[1..], k);
      assert [s[0]] + s[1..] == s;
    }
  }

  /** Two prefixes, one of them empty, can go in either order. */
  lemma PrefixesCommute(x: seq<Task>, y: seq<Task>, w: seq<Task>)
    requires x == [] || y == []
    ensures x + (y + w) == y + (x + w)
  {
    if x == [] {
      assert x + (y + w) == y + w;
      assert x + w == w;
    } else {
      assert y + w == w;
      assert y + (x + w) == x + w;
    }
  }

  /**
   * The sort is stable: for every key, the tasks with that key appear in the
   * result in the same relative order as in the input.
   */
  lemma {:induction false} SortStable(s: seq<Task>, k: SortKey)
    ensures WithKey(SortTasks(s), k) == WithKey(s, k)
  {
    if s != [] {
      SortStable(s[1..], k);
      WithKeyInsert(s[0], SortTasks(s[1..]), k);
    }
  }

  /** Adjacent order gives order between any two positions. */
  lemma {:induction false} SortedPairwise(s: seq<Task>, i: nat, j: nat)
    requires Sorted(s) && i < j < |s|
    ensures KeyLe(DefaultSortKey(s[i]), DefaultSortKey(s[j]))
    decreases j - i
  {
    if j == i + 1 {
      SortedAdjacent(s, i);
    } else {
      SortedPairwise(s, i, j - 1);
      SortedAdjacent(s, j - 1);
      KeyLeTransitive(DefaultSortKey(s[i]), DefaultSortKey(s[j - 1]), DefaultSortKey(s[j]));
    }
  }

  lemma {:induction false} SortedAdjacent(s: seq<Task>, i: nat)
    requires Sorted(s) && i + 1 < |s|
    ensures KeyLe(DefaultSortKey(s[i]), DefaultSortKey(s[i + 1]))
  {
    if i > 0 {
      SortedAdjacent(s[1..], i - 1);
    }
  }

  /**
   * In the sorted list, pinned tasks come before unpinned ones; with equal
   * pinned status, not-done tasks come before done ones; with both equal,
   * creation times ascend (a missing one counting as earliest).
   */
  lemma SortOrder(s: seq<Task>, i: nat, j: nat)
    requires i < j < |s|
    ensures var r := SortTasks(s);
      (r[j].pinned ==> r[i].pinned)
      && (r[i].pinned == r[j].pinned && r[i].done ==> r[j].done)
      && (r[i].pinned == r[j].pinned && r[i].done == r[j].done
          ==> r[i].created.GetOr(0) <= r[j].created.GetOr(0))
  {
    SortedPairwise(SortTasks(s), i, j);
  }

  /**
   * `get_task_id_by_index`: the id of the `index`-th task (1-based) in sorted
   * order; `IndexError` outside `1..len(tasks)`.
   */
  function TaskIdByIndex(tasks: seq<Task>, index: int): (r: Result<Id>)
    ensures r.Failure? <==> !(1 <= index <= |tasks|)
    ensures r.Failure? ==> r.error == IndexError
    ensures r.Success? ==> r.value == Id(SortTasks(tasks)[index - 1].id)
    ensures r.Success? ==> exists t :: t in tasks && t.id == r.value.id
  {
    var sorted := SortTasks(tasks);
    if !(1 <= index <= |sorted|) then Failure(IndexError)
    else
      assert sorted[index - 1] in multiset(tasks);
      Success(Id(sorted[index - 1].id))
  }
}
