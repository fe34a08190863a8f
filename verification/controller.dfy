/**
 * The application controller of src/App.tsx: the list it shows, sorted most
 * recently updated first, and the three screens it moves between.
 */
module Controller {
  import opened Wrappers
  import opened Storage

  // ---------------------------------------------------------------------
  // Ordering by recency
  // ---------------------------------------------------------------------

  /** Most recently updated first: `updated_at` never increases along the list. */
  predicate SortedByRecency(s: seq<Project>) {
    forall i, j :: 0 <= i < j < |s| ==> s[i].updatedAt >= s[j].updatedAt
  }

  /**
   * `x` moved in from the back of `s` past every strictly older record, and
   * stopped at the first record at least as recent. For a recency-ordered `s`,
   * this is where a stable insertion puts it.
   */
  function InsertByRecency(s: seq<Project>, x: Project): (r: seq<Project>)
    ensures |r| == |s| + 1
  {
    if |s| == 0 then [x]
    else if s[|s| - 1].updatedAt >= x.updatedAt then s + [x]
    else InsertByRecency(s[..|s| - 1], x) + [s[|s| - 1]]
  }

  /**
   * The order `data.sort` produces with a comparator that subtracts the
   * `getTime()` of `a.updated_at` from that of `b.updated_at`. Array sorting
   * is stable, so the order is fully determined: records with equal
   * `updated_at` keep their stored order.
   */
  function RecencyOrder(s: seq<Project>): (r: seq<Project>)
    ensures |r| == |s|
    ensures s == [] <==> r == []
  {
    if |s| == 0 then []
    else InsertByRecency(RecencyOrder(s[..|s| - 1]), s[|s| - 1])
  }

  lemma {:induction false} InsertByRecencyPermutes(s: seq<Project>, x: Project)
    ensures multiset(InsertByRecency(s, x)) == multiset(s) + multiset{x}
  {
    if |s| > 0 && s[|s| - 1].updatedAt < x.updatedAt {
      InsertByRecencyPermutes(s[..|s| - 1], x);
      assert s == s[..|s| - 1] + [s[|s| - 1]];
    }
  }

  lemma {:induction false} InsertByRecencySorted(s: seq<Project>, x: Project)
    requires SortedByRecency(s)
    ensures SortedByRecency(InsertByRecency(s, x))
    ensures forall i :: 0 <= i < |InsertByRecency(s, x)| ==>
      InsertByRecency(s, x)[i].updatedAt >= Least(s, x)
  {
    if |s| > 0 && s[|s| - 1].updatedAt < x.updatedAt {
      var init, last := s[..|s| - 1], s[|s| - 1];
      InsertByRecencySorted(init, x);
      var r := InsertByRecency(init, x);
      assert forall i :: 0 <= i < |r| ==> r[i].updatedAt >= last.updatedAt by {
        if |init| > 0 {
          assert Least(init, x) >= last.updatedAt;
        }
      }
    }
  }

  /** For a recency-ordered `s`: the oldest `updated_at` among the records of `s` and `x`. */
  function Least(s: seq<Project>, x: Project): int {
    if |s| == 0 then x.updatedAt
    else if s[|s| - 1].updatedAt < x.updatedAt then s[|s| - 1].updatedAt
    else x.updatedAt
  }

  /** The reloaded list holds exactly the stored records. */
  lemma {:induction false} RecencyOrderPermutes(s: seq<Project>)
    ensures multiset(RecencyOrder(s)) == multiset(s)
  {
    if |s| > 0 {
      RecencyOrderPermutes(s[..|s| - 1]);
      InsertByRecencyPermutes(RecencyOrder(s[..|s| - 1]), s[|s| - 1]);
      assert s == s[..|s| - 1] + [s[|s| - 1]];
    }
  }

  /** The reloaded list is most recently updated first. */
  lemma {:induction false} RecencyOrderSorted(s: seq<Project>)
    ensures SortedByRecency(RecencyOrder(s))
  {
    if |s| > 0 {
      RecencyOrderSorted(s[..|s| - 1]);
      InsertByRecencySorted(RecencyOrder(s[..|s| - 1]), s[|s| - 1]);
    }
  }

  /** A list already in recency order is left as it is, so reloading twice changes nothing. */
  lemma {:induction false} RecencyOrderOfSorted(s: seq<Project>)
    requires SortedByRecency(s)
    ensures RecencyOrder(s) == s
  {
    if |s| > 0 {
      var init := s[..|s| - 1];
      assert SortedByRecency(init);
      RecencyOrderOfSorted(init);
      assert s == init + [s[|s| - 1]];
    }
  }

  /** The records of `s` stamped `t`, in the order `s` has them. */
  function StampedAt(s: seq<Project>, t: Timestamp): seq<Project> {
    if |s| == 0 then []
    else StampedAt(s[..|s| - 1], t) + (if s[|s| - 1].updatedAt == t then [s[|s| - 1]] else [])
  }

  lemma {:induction false} StampedAtAppend(a: seq<Project>, b: seq<Project>, t: Timestamp)
    ensures StampedAt(a + b, t) == StampedAt(a, t) + StampedAt(b, t)
  {
    if |b| == 0 {
      assert a + b == a;
    } else {
      var init := b[..|b| - 1];
      assert (a + b)[..|a + b| - 1] == a + init;
      StampedAtAppend(a, init, t);
    }
  }

  lemma {:induction false} InsertByRecencyStable(s: seq<Project>, x: Project, t: Timestamp)
    ensures StampedAt(InsertByRecency(s, x), t) == StampedAt(s, t) + StampedAt([x], t)
  {
    assert StampedAt([x], t) == if x.updatedAt == t then [x] else [] by {
      assert [x][..0] == [];
    }
    if |s| == 0 {
    } else if s[|s| - 1].updatedAt >= x.updatedAt {
      StampedAtAppend(s, [x], t);
    } else {
      var init, last := s[..|s| - 1], s[|s| - 1];
      InsertByRecencyStable(init, x, t);
      StampedAtAppend(InsertByRecency(init, x), [last], t);
      assert StampedAt([last], t) == if last.updatedAt == t then [last] else [] by {
        assert [last][..0] == [];
      }
    }
  }

  /** The sort is stable: records with the same `updated_at` keep the order the store had them in. */
  lemma {:induction false} RecencyOrderStable(s: seq<Project>, t: Timestamp)
    ensures StampedAt(RecencyOrder(s), t) == StampedAt(s, t)
  {
    if |s| > 0 {
      var init, last := s[..|s| - 1], s[|s| - 1];
      RecencyOrderStable(init, t);
      InsertByRecencyStable(RecencyOrder(init), last, t);
      assert StampedAt([last], t) == if last.updatedAt == t then [last] else [] by {
        assert [last][..0] == [];
      }
    }
  }

  /** Reordering neither adds nor loses an id. */
  lemma RecencyOrderKeepsIds(s: seq<Project>, id: string)
    ensures HasId(RecencyOrder(s), id) <==> HasId(s, id)
  {
    var r := RecencyOrder(s);
    RecencyOrderPermutes(s);
    if HasId(r, id) {
      var k :| 0 <= k < |r| && r[k].id == id;
      assert r[k] in multiset(s);
    }
    if HasId(s, id) {
      var k :| 0 <= k < |s| && s[k].id == id;
      assert s[k] in multiset(r);
    }
  }

  /** Sorting is idempotent. */
  lemma RecencyOrderIdempotent(s: seq<Project>)
    ensures RecencyOrder(RecencyOrder(s)) == RecencyOrder(s)
  {
    RecencyOrderSorted(s);
    RecencyOrderOfSorted(RecencyOrder(s));
  }

  /** `data.sort(...)` on the array `getProjects` returned: a stable in-place sort, most recent first. */
  method SortByRecency(a: array<Project>)
    modifies a
    ensures a[..] == RecencyOrder(old(a[..]))
  {
    ghost var input := a[..];
    var i := 0;
    while i < a.Length
      invariant 0 <= i <= a.Length
      invariant a[..i] == RecencyOrder(input[..i])
      invariant a[i..] == input[i..]
    {
      assert input[..i + 1] == input[..i] + [input[i]];
      assert input[i] == a[i..][0];
      InsertLast(a, i);
      assert a[i + 1..] == input[i + 1..];
      i := i + 1;
    }
    assert a[..] == a[..a.Length] && input == input[..a.Length];
  }

  /** One insertion step: moves `a[i]` back past every strictly older record of the prefix `a[..i]`. */
  method InsertLast(a: array<Project>, i: nat)
    requires i < a.Length
    modifies a
    ensures a[..i + 1] == InsertByRecency(old(a[..i]), old(a[i]))
    ensures a[i + 1..] == old(a[i + 1..])
  {
    ghost var done := a[..i];
    var x := a[i];
    var j := i;
    assert done[..j] == done && done[j..] == [];
    while j > 0 && a[j - 1].updatedAt < x.updatedAt
      invariant 0 <= j <= i
      invariant a[..i + 1] == done[..j] + [x] + done[j..]
      invariant a[i + 1..] == old(a[i + 1..])
      invariant InsertByRecency(done, x) == InsertByRecency(done[..j], x) + done[j..]
    {
      SwapBack(a, j, i, done, x);
      InsertPastOlder(done, j, x);
      j := j - 1;
    }
    assert j > 0 ==> a[j - 1] == done[j - 1] by {
      if j > 0 {
        assert a[..i + 1][j - 1] == a[j - 1];
      }
    }
    InsertStops(done, j, x);
  }

  /** Swapping the moving record with its older left neighbour keeps the layout one step further on. */
  method SwapBack(a: array<Project>, j: nat, i: nat, ghost done: seq<Project>, x: Project)
    requires 0 < j <= i < a.Length && |done| == i
    requires a[..i + 1] == done[..j] + [x] + done[j..]
    modifies a
    ensures a[..i + 1] == done[..j - 1] + [x] + done[j - 1..]
    ensures a[i + 1..] == old(a[i + 1..])
    ensures old(a[j - 1]) == done[j - 1]
  {
    assert a[j - 1] == a[..i + 1][j - 1] == done[j - 1];
    assert a[j] == a[..i + 1][j] == x;
    a[j - 1], a[j] := a[j], a[j - 1];
    ghost var was, now, want := old(a[..i + 1]), a[..i + 1], done[..j - 1] + [x] + done[j - 1..];
    forall k | 0 <= k < |want| ensures now[k] == want[k] {
      if k < j - 1 {
        assert was[k] == done[k];
      } else if j < k {
        assert was[k] == done[k - 1];
      }
    }
    assert now == want;
  }

  lemma InsertPastOlder(done: seq<Project>, j: nat, x: Project)
    requires 0 < j <= |done| && done[j - 1].updatedAt < x.updatedAt
    ensures InsertByRecency(done[..j], x) + done[j..] == InsertByRecency(done[..j - 1], x) + done[j - 1..]
  {
    assert done[..j][..j - 1] == done[..j - 1];
    assert done[j - 1..] == [done[j - 1]] + done[j..];
  }

  lemma InsertStops(done: seq<Project>, j: nat, x: Project)
    requires j <= |done| && (j == 0 || done[j - 1].updatedAt >= x.updatedAt)
    ensures InsertByRecency(done[..j], x) == done[..j] + [x]
  {
  }

  // ---------------------------------------------------------------------
  // The view state machine
  // ---------------------------------------------------------------------

  datatype ViewMode = List | Form | View

  /** What the controller renders. */
  datatype Screen =
    | ListScreen(projects: seq<Project>, loading: bool)
    | FormScreen(editing: Option<Project>)
    | ViewScreen(project: Project)
    | Nothing

  class App {
    var viewMode: ViewMode
    var projects: seq<Project>
    var selected: Option<Project>
    var loading: bool
    /** The module-wide `storage` object the handlers call. */
    const store: ProjectStore

    /** The view screen is only ever entered with a project selected, and the list is in recency order. */
    ghost predicate Valid()
      reads this
      ensures Valid() ==> !Render().Nothing?
      ensures Valid() && viewMode == View ==> Render() == ViewScreen(selected.value)
    {
      && (viewMode == View ==> selected.Some?)
      && SortedByRecency(projects)
    }

    /** The rendered screen: the view screen needs a selection (`viewMode === 'view' && selectedProject`). */
    function Render(): (s: Screen)
      reads this
      ensures s.Nothing? <==> viewMode == View && selected.None?
      ensures s.ViewScreen? ==> selected == Some(s.project)
    {
      match viewMode
      case List => ListScreen(projects, loading)
      case Form => FormScreen(selected)
      case View => if selected.Some? then ViewScreen(selected.value) else Nothing
    }

    /** The first render state, followed by the mount effect that loads the list. */
    constructor (store: ProjectStore)
      ensures Valid() && this.store == store
      ensures viewMode == List && selected.None? && !loading
      ensures projects == RecencyOrder(store.Projects())
    {
      this.store := store;
      viewMode := List;
      projects := [];
      selected := None;
      loading := true;
      new;
      LoadProjects();
    }

    /** `loadProjects`: read the store, sort most recent first, show the result. */
    method LoadProjects()
      requires Valid()
      modifies this
      ensures Valid()
      ensures projects == RecencyOrder(store.Projects())
      ensures SortedByRecency(projects) && multiset(projects) == multiset(store.Projects())
      ensures !loading
      ensures viewMode == old(viewMode) && selected == old(selected)
    {
      loading := true;
      var data := store.GetProjects();
      var a := new Project[|data|](i requires 0 <= i < |data| => data[i]);
      assert a[..] == data;
      SortByRecency(a);
      projects := a[..];
      RecencyOrderSorted(data);
      RecencyOrderPermutes(data);
      loading := false;
    }

    /** `handleNewProject`: an empty form. */
    method HandleNewProject()
      requires Valid()
      modifies this
      ensures Valid()
      ensures viewMode == Form && selected.None?
      ensures projects == old(projects) && loading == old(loading)
    {
      selected := None;
      viewMode := Form;
    }

    /** `handleSelectProject`: show `p`. */
    method HandleSelectProject(p: Project)
      requires Valid()
      modifies this
      ensures Valid()
      ensures viewMode == View && selected == Some(p)
      ensures projects == old(projects) && loading == old(loading)
    {
      selected := Some(p);
      viewMode := View;
    }

    /** `handleEditProject`: the form, on the current selection. */
    method HandleEditProject()
      requires Valid()
      modifies this
      ensures Valid()
      ensures viewMode == Form
      ensures selected == old(selected) && projects == old(projects) && loading == old(loading)
    {
      viewMode := Form;
    }

    /**
     * `handleDeleteProject`: with a selection and the user's confirmation,
     * delete it from the store, reload and go back to the list; otherwise
     * nothing happens. `writable` is whether the storage write succeeds.
     */
    method HandleDeleteProject(confirmed: bool, writable: bool)
      requires Valid()
      modifies this, store
      ensures Valid()
      ensures old(selected).None? || !confirmed ==>
        && viewMode == old(viewMode) && selected == old(selected)
        && projects == old(projects) && loading == old(loading)
        && store.slot == old(store.slot)
      ensures old(selected).Some? && confirmed ==>
        var id := old(selected).value.id;
        && store.slot == (if HasId(old(store.Projects()), id) && writable
                          then Saved(WithoutId(old(store.Projects()), id))
                          else old(store.slot))
        && projects == RecencyOrder(store.Projects())
        && (writable ==> !HasId(projects, id))
        && viewMode == List && selected.None? && !loading
    {
      if selected.None? {
        return;
      }
      if confirmed {
        var id := selected.value.id;
        var _ := store.DeleteProject(id, writable);
        LoadProjects();
        RecencyOrderKeepsIds(store.Projects(), id);
        viewMode := List;
        selected := None;
      }
    }

    /** `handleSaveProject`: reload and go back to the list. */
    method HandleSaveProject()
      requires Valid()
      modifies this
      ensures Valid()
      ensures viewMode == List && selected.None? && !loading
      ensures projects == RecencyOrder(store.Projects())
    {
      LoadProjects();
      viewMode := List;
      selected := None;
    }

    /** `handleCancel`: back to the selected project if there is one, else to the list. */
    method HandleCancel()
      requires Valid()
      modifies this
      ensures Valid()
      ensures viewMode == if old(selected).Some? then View else List
      ensures selected == old(selected) && projects == old(projects) && loading == old(loading)
    {
      if selected.Some? {
        viewMode := View;
      } else {
        viewMode := List;
      }
    }

    /** `handleBackToList`: the list, with nothing selected. */
    method HandleBackToList()
      requires Valid()
      modifies this
      ensures Valid()
      ensures viewMode == List && selected.None?
      ensures projects == old(projects) && loading == old(loading)
    {
      viewMode := List;
      selected := None;
    }

    /**
     * The form's submit followed by its `onSave` callback: the form edits the
     * selected project when there is one and adds a new record otherwise.
     * `freshId` and `now` stand for `crypto.randomUUID()` and the clock.
     */
    method SubmitForm(d: Draft, freshId: string, now: Timestamp, writable: bool)
      requires Valid() && viewMode == Form
      requires selected.None? ==> !HasId(store.Projects(), freshId)
      modifies this, store
      ensures Valid()
      ensures old(selected).None? ==>
        store.slot == if writable then Saved(old(store.Projects()) + [NewRecord(d, freshId, now)])
                      else old(store.slot)
      ensures old(selected).Some? ==>
        var id := old(selected).value.id;
        var i := FindIndex(old(store.Projects()), id);
        store.slot == if i != -1 && writable
                      then Saved(old(store.Projects())[i := Merge(old(store.Projects())[i], EditOf(d), now)])
                      else old(store.slot)
      ensures projects == RecencyOrder(store.Projects())
      ensures viewMode == List && selected.None? && !loading
    {
      if selected.Some? {
        var _ := store.UpdateProject(selected.value.id, EditOf(d), now, writable);
      } else {
        var _ := store.AddProject(d, freshId, now, writable);
      }
      HandleSaveProject();
    }
  }
}
