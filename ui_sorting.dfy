/** The sort key shared by the terminal renderers. */
module UiSorting {
  import opened Wrappers
  import opened Types
  import opened Sorting

  /** `(not pinned, done, created)`, without a stand-in for a missing `created`. */
  datatype UiKey = UiKey(unpinned: bool, done: bool, created: Option<Timestamp>)

  /** The default key's components, except that a missing `created` stays `None`. */
  function UiSortKey(t: Task): (k: UiKey)
    ensures k.unpinned == DefaultSortKey(t).unpinned && k.done == DefaultSortKey(t).done
    ensures k.created.Some? <==> t.created.Some?
    ensures k.created.Some? ==> k.created.value == DefaultSortKey(t).created
  {
    UiKey(!t.pinned, t.done, t.created)
  }

  /**
   * Python's `<` on two such tuples: the first differing component decides;
   * comparing `None` with a timestamp raises `TypeError`.
   */
  function UiKeyLess(a: UiKey, b: UiKey): (r: Result<bool>)
    ensures r.Failure? ==> r.error == TypeError
    ensures r.Failure? <==> a.unpinned == b.unpinned && a.done == b.done
                            && a.created != b.created && (a.created.None? || b.created.None?)
  {
    if a.unpinned != b.unpinned then Success(BoolLt(a.unpinned, b.unpinned))
    else if a.done != b.done then Success(BoolLt(a.done, b.done))
    else if a.created == b.created then Success(false)
    else if a.created.None? || b.created.None? then Failure(TypeError)
    else Success(a.created.value < b.created.value)
  }

  /** A pinned task orders before an unpinned one. */
  lemma UiPinnedFirst(a: Task, b: Task)
    requires a.pinned && !b.pinned
    ensures UiKeyLess(UiSortKey(a), UiSortKey(b)) == Success(true)
    ensures UiKeyLess(UiSortKey(b), UiSortKey(a)) == Success(false)
  {
  }

  /** With equal pinned status, a not-done task orders before a done one. */
  lemma UiUndoneFirst(a: Task, b: Task)
    requires a.pinned == b.pinned && !a.done && b.done
    ensures UiKeyLess(UiSortKey(a), UiSortKey(b)) == Success(true)
    ensures UiKeyLess(UiSortKey(b), UiSortKey(a)) == Success(false)
  {
  }

  /** When both creation times are present, this order is the default key's order. */
  lemma UiAgreesWithDefault(a: Task, b: Task)
    requires a.created.Some? && b.created.Some?
    ensures UiKeyLess(UiSortKey(a), UiSortKey(b)) == Success(KeyLt(DefaultSortKey(a), DefaultSortKey(b)))
  {
  }
}
