/** The dashboard's task store (task-store.service.ts): the current task
    list, the list filters, a loading flag, and the HTTP requests it issues
    (kept as a log, in order). Responses arrive through `Loaded`. */
module Dashboard {
  import opened Common
  import opened TaskEntity
  import opened Tasks

  /** The filter form: an empty string means "any". */
  datatype TaskFilters = TaskFilters(status: string, category: string)

  /** `Partial<TaskFilters>`: the keys present. */
  datatype FilterPatch = FilterPatch(status: Option<string>, category: Option<string>)

  /** The query parameters of a list request. */
  datatype ListQuery = ListQuery(status: Option<string>, category: Option<string>)

  /** The requests the store sends to the task API. */
  datatype ApiRequest =
    | FindAllRequest(query: ListQuery)
    | UpdateRequest(id: string, patch: TaskPatch)

  /** `{ ...filters, ...patch }`. */
  function MergeFilters(filters: TaskFilters, patch: FilterPatch): (merged: TaskFilters)
    ensures patch.status.Some? ==> merged.status == patch.status.value
    ensures patch.status.None? ==> merged.status == filters.status
    ensures patch.category.Some? ==> merged.category == patch.category.value
    ensures patch.category.None? ==> merged.category == filters.category
  {
    TaskFilters(patch.status.GetOr(filters.status), patch.category.GetOr(filters.category))
  }

  /** Merging twice with the same patch is merging once; the empty patch
      keeps the filters. */
  lemma MergeFiltersIdempotent(filters: TaskFilters, patch: FilterPatch)
    ensures MergeFilters(MergeFilters(filters, patch), patch) == MergeFilters(filters, patch)
    ensures MergeFilters(filters, FilterPatch(None, None)) == filters
  {
  }

  /** The query load sends: a filter only when its string is non-empty. */
  function QueryFor(filters: TaskFilters): (q: ListQuery)
    ensures q.status.Some? <==> filters.status != []
    ensures q.status.Some? ==> q.status.value == filters.status
    ensures q.category.Some? <==> filters.category != []
    ensures q.category.Some? ==> q.category.value == filters.category
  {
    ListQuery(if filters.status != [] then Some(filters.status) else None,
              if filters.category != [] then Some(filters.category) else None)
  }

  // ---------------------------------------------------------------------
  // moveItemInArray

  /** `s` without the element at `k`. */
  function Remove<T>(s: seq<T>, k: int): (r: seq<T>)
    requires 0 <= k < |s|
    ensures |r| == |s| - 1
    ensures forall m :: 0 <= m < |r| ==> r[m] == (if m < k then s[m] else s[m + 1])
  {
    s[..k] + s[k + 1..]
  }

  /** The element at `i` taken out and put back at `j`. */
  function Move<T>(s: seq<T>, i: int, j: int): (r: seq<T>)
    requires 0 <= i < |s| && 0 <= j < |s|
    ensures |r| == |s| && r[j] == s[i]
    ensures i == j ==> r == s
  {
    var rest := Remove(s, i);
    rest[..j] + [s[i]] + rest[j..]
  }

  /** Move, element by element. */
  lemma MoveAt<T>(s: seq<T>, i: int, j: int, k: int)
    requires 0 <= i < |s| && 0 <= j < |s| && 0 <= k < |s|
    ensures |Move(s, i, j)| == |s|
    ensures Move(s, i, j)[k] ==
              (if k == j then s[i]
               else if i < j && i <= k < j then s[k + 1]
               else if j < i && j < k <= i then s[k - 1]
               else s[k])
  {
  }

  /** The moved element lands at j, the list keeps its length and its
      elements, and the other elements keep their relative order. */
  lemma MoveProperties<T>(s: seq<T>, i: int, j: int)
    requires 0 <= i < |s| && 0 <= j < |s|
    ensures |Move(s, i, j)| == |s|
    ensures Move(s, i, j)[j] == s[i]
    ensures multiset(Move(s, i, j)) == multiset(s)
    ensures Remove(Move(s, i, j), j) == Remove(s, i)
  {
    var rest := Remove(s, i);
    var r := Move(s, i, j);
    assert r == rest[..j] + [s[i]] + rest[j..];
    assert Remove(r, j) == rest by {
      assert r[..j] == rest[..j];
      assert r[j + 1..] == rest[j..];
    }
    assert s == s[..i] + [s[i]] + s[i + 1..];
    calc {
      multiset(r);
      multiset(rest[..j]) + multiset{s[i]} + multiset(rest[j..]);
      { assert rest == rest[..j] + rest[j..]; }
      multiset(rest) + multiset{s[i]};
      multiset(s[..i]) + multiset(s[i + 1..]) + multiset{s[i]};
      multiset(s);
    }
  }

  /** Moving back undoes a move. */
  lemma MoveInverse<T>(s: seq<T>, i: int, j: int)
    requires 0 <= i < |s| && 0 <= j < |s|
    ensures Move(Move(s, i, j), j, i) == s
  {
    var r := Move(s, i, j);
    MoveProperties(s, i, j);
    var back := Move(r, j, i);
    MoveProperties(r, j, i);
    forall k | 0 <= k < |s| ensures back[k] == s[k] {
      MoveAt(r, j, i, k);
      if k != i {
        if j < i && j <= k < i {
          MoveAt(s, i, j, k + 1);
        } else if i < j && i < k <= j {
          MoveAt(s, i, j, k - 1);
        } else {
          MoveAt(s, i, j, k);
        }
      }
    }
  }

  /** The drag-drop helper on in-range indices: the taken element is
      carried to `toIndex`, shifting the ones in between by one place. */
  method MoveItemInArray<T>(a: array<T>, fromIndex: int, toIndex: int)
    requires 0 <= fromIndex < a.Length && 0 <= toIndex < a.Length
    modifies a
    ensures a[..] == Move(old(a[..]), fromIndex, toIndex)
  {
    ghost var s := a[..];
    if fromIndex == toIndex {
      assert forall k :: 0 <= k < a.Length ==> a[k] == Move(s, fromIndex, toIndex)[k] by {
        forall k | 0 <= k < a.Length ensures a[k] == Move(s, fromIndex, toIndex)[k] {
          MoveAt(s, fromIndex, toIndex, k);
        }
      }
      return;
    }
    var target := a[fromIndex];
    var i := fromIndex;
    if fromIndex < toIndex {
      while i != toIndex
        invariant fromIndex <= i <= toIndex
        invariant forall k :: fromIndex <= k < i ==> a[k] == s[k + 1]
        invariant forall k :: 0 <= k < a.Length && (k < fromIndex || i <= k) ==> a[k] == s[k]
        decreases toIndex - i
      {
        a[i] := a[i + 1];
        i := i + 1;
      }
    } else {
      while i != toIndex
        invariant toIndex <= i <= fromIndex
        invariant forall k :: i < k <= fromIndex ==> a[k] == s[k - 1]
        invariant forall k :: 0 <= k < a.Length && (k <= i || fromIndex < k) ==> a[k] == s[k]
        decreases i - toIndex
      {
        a[i] := a[i - 1];
        i := i - 1;
      }
    }
    a[toIndex] := target;
    forall k | 0 <= k < a.Length ensures a[k] == Move(s, fromIndex, toIndex)[k] {
      MoveAt(s, fromIndex, toIndex, k);
    }
  }

  /** The optimistic reordering's request: only the moved task's new
      position. */
  function PositionUpdate(id: string, position: int): (req: ApiRequest)
    ensures req.UpdateRequest? && req.id == id
    ensures req.patch.position == Some(position)
    ensures forall t: Task :: ApplyPatch(t, req.patch) == t.(position := position)
  {
    UpdateRequest(id, TaskPatch(None, None, None, None, Some(position)))
  }

  class TaskStoreService {
    /** The current list snapshot. */
    var tasks: array<Task>
    var filters: TaskFilters
    var loading: bool
    /** Every request sent, oldest first. */
    var requests: seq<ApiRequest>

    constructor ()
      ensures tasks.Length == 0 && filters == TaskFilters("", "") && !loading && requests == []
    {
      tasks := new Task[0];
      filters := TaskFilters("", "");
      loading := false;
      requests := [];
    }

    /** load: sets the loading flag and asks for the filtered list. */
    method Load()
      modifies this
      ensures loading && tasks == old(tasks) && filters == old(filters)
      ensures requests == old(requests) + [FindAllRequest(QueryFor(filters))]
    {
      loading := true;
      var query := QueryFor(filters);
      requests := requests + [FindAllRequest(query)];
    }

    /** The list response arriving: a new snapshot, loading over. */
    method Loaded(response: seq<Task>)
      modifies this
      ensures fresh(tasks) && tasks[..] == response && !loading
      ensures filters == old(filters) && requests == old(requests)
    {
      tasks := new Task[|response|](k requires 0 <= k < |response| => response[k]);
      loading := false;
    }

    /** setFilters: patched keys take the new values, then a reload. */
    method SetFilters(patch: FilterPatch)
      modifies this
      ensures filters == MergeFilters(old(filters), patch)
      ensures tasks == old(tasks) && loading
      ensures requests == old(requests) + [FindAllRequest(QueryFor(filters))]
    {
      filters := MergeFilters(filters, patch);
      Load();
    }

    /** reorder: nothing for a drop in place; otherwise a moved copy as
        the new snapshot, the old snapshot left as it was, and one update
        of the moved task's position. */
    method Reorder(previousIndex: int, currentIndex: int)
      requires previousIndex == currentIndex ||
               (0 <= previousIndex < tasks.Length && 0 <= currentIndex < tasks.Length)
      modifies this
      ensures filters == old(filters) && loading == old(loading)
      ensures previousIndex == currentIndex ==> tasks == old(tasks) && requests == old(requests)
      ensures previousIndex != currentIndex ==>
                && fresh(tasks)
                && tasks[..] == Move(old(tasks[..]), previousIndex, currentIndex)
                && old(tasks)[..] == old(tasks[..])
                && requests == old(requests) + [PositionUpdate(tasks[currentIndex].id, currentIndex)]
    {
      if previousIndex == currentIndex {
        return;
      }
      var snapshot := tasks;
      ghost var before := snapshot[..];
      var list := new Task[snapshot.Length];
      forall k | 0 <= k < list.Length {
        list[k] := snapshot[k];
      }
      assert list[..] == before;
      MoveItemInArray(list, previousIndex, currentIndex);
      assert snapshot[..] == before;
      tasks := list;
      var moved := list[currentIndex];
      requests := requests + [PositionUpdate(moved.id, currentIndex)];
    }
  }

  /** After a move the update names the task that was dragged. */
  lemma ReorderUpdatesDraggedTask(s: seq<Task>, i: int, j: int)
    requires 0 <= i < |s| && 0 <= j < |s|
    ensures PositionUpdate(Move(s, i, j)[j].id, j) == PositionUpdate(s[i].id, j)
  {
    MoveProperties(s, i, j);
  }
}
