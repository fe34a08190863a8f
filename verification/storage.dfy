/**
 * The local record store of src/lib/storage.ts: one collection of `Project`
 * records kept in browser storage under the key 'projects', read whole,
 * changed as an array and written back whole by every mutating operation.
 */
module Storage {
  import opened Wrappers

  /** The milliseconds `Date.getTime()` gives for a stored ISO-8601 timestamp. */
  type Timestamp = int

  datatype Project = Project(
    id: string,
    title: string,
    description: string,
    objective: string,
    structure: string,
    features: string,
    constraints: string,
    testing: string,
    successCriteria: string,
    createdAt: Timestamp,
    updatedAt: Timestamp)

  /** What a caller hands to `addProject`: a `Project` without `id`, `created_at` and `updated_at`. */
  datatype Draft = Draft(
    title: string,
    description: string,
    objective: string,
    structure: string,
    features: string,
    constraints: string,
    testing: string,
    successCriteria: string)

  /** A `Partial<Project>`: every field is either supplied or absent. */
  datatype Patch = Patch(
    id: Option<string>,
    title: Option<string>,
    description: Option<string>,
    objective: Option<string>,
    structure: Option<string>,
    features: Option<string>,
    constraints: Option<string>,
    testing: Option<string>,
    successCriteria: Option<string>,
    createdAt: Option<Timestamp>,
    updatedAt: Option<Timestamp>)

  /** The fields of a record, named so that a merge can be stated field by field. */
  datatype Field =
    | Id | Title | Description | Objective | Structure | Features
    | Constraints | Testing | SuccessCriteria | CreatedAt | UpdatedAt

  datatype Value = Text(text: string) | Time(time: Timestamp)

  function Get(p: Project, f: Field): Value {
    match f
    case Id => Text(p.id)
    case Title => Text(p.title)
    case Description => Text(p.description)
    case Objective => Text(p.objective)
    case Structure => Text(p.structure)
    case Features => Text(p.features)
    case Constraints => Text(p.constraints)
    case Testing => Text(p.testing)
    case SuccessCriteria => Text(p.successCriteria)
    case CreatedAt => Time(p.createdAt)
    case UpdatedAt => Time(p.updatedAt)
  }

  function TextOf(o: Option<string>): Option<Value> {
    if o.Some? then Some(Text(o.value)) else None
  }

  function TimeOf(o: Option<Timestamp>): Option<Value> {
    if o.Some? then Some(Time(o.value)) else None
  }

  /** The value a patch supplies for a field, if it supplies one. */
  function Supplied(u: Patch, f: Field): Option<Value> {
    match f
    case Id => TextOf(u.id)
    case Title => TextOf(u.title)
    case Description => TextOf(u.description)
    case Objective => TextOf(u.objective)
    case Structure => TextOf(u.structure)
    case Features => TextOf(u.features)
    case Constraints => TextOf(u.constraints)
    case Testing => TextOf(u.testing)
    case SuccessCriteria => TextOf(u.successCriteria)
    case CreatedAt => TimeOf(u.createdAt)
    case UpdatedAt => TimeOf(u.updatedAt)
  }

  /** The caller-supplied part of a record. */
  function DraftOf(p: Project): Draft {
    Draft(p.title, p.description, p.objective, p.structure, p.features,
          p.constraints, p.testing, p.successCriteria)
  }

  /** The record `addProject` builds: the draft spread, then a fresh id and `now` twice. */
  function NewRecord(d: Draft, id: string, now: Timestamp): (p: Project)
    ensures DraftOf(p) == d
    ensures p.id == id && p.createdAt == now && p.updatedAt == now
  {
    Project(id, d.title, d.description, d.objective, d.structure, d.features,
            d.constraints, d.testing, d.successCriteria, now, now)
  }

  /** The patch a form submits when it edits a record: all eight caller fields, nothing else. */
  function EditOf(d: Draft): (u: Patch)
    ensures u.id.None? && u.createdAt.None? && u.updatedAt.None?
    ensures forall p: Project, now: Timestamp :: DraftOf(Merge(p, u, now)) == d
  {
    Patch(None, Some(d.title), Some(d.description), Some(d.objective),
          Some(d.structure), Some(d.features), Some(d.constraints),
          Some(d.testing), Some(d.successCriteria), None, None)
  }

  /**
   * `{ ...p, ...u, updated_at: now }`: a supplied field overrides, an absent
   * one keeps the old value, and `updated_at` is `now` whatever `u` says.
   */
  function Merge(p: Project, u: Patch, now: Timestamp): (r: Project)
    ensures forall f :: f != UpdatedAt ==>
      Get(r, f) == (if Supplied(u, f).Some? then Supplied(u, f).value else Get(p, f))
    ensures r.updatedAt == now
  {
    Project(u.id.GetOr(p.id), u.title.GetOr(p.title),
            u.description.GetOr(p.description), u.objective.GetOr(p.objective),
            u.structure.GetOr(p.structure), u.features.GetOr(p.features),
            u.constraints.GetOr(p.constraints), u.testing.GetOr(p.testing),
            u.successCriteria.GetOr(p.successCriteria),
            u.createdAt.GetOr(p.createdAt), now)
  }

  /** `{ ...u1, ...u2 }`: the later patch wins wherever it supplies a field. */
  function Over(u1: Patch, u2: Patch): Patch {
    Patch(if u2.id.Some? then u2.id else u1.id,
          if u2.title.Some? then u2.title else u1.title,
          if u2.description.Some? then u2.description else u1.description,
          if u2.objective.Some? then u2.objective else u1.objective,
          if u2.structure.Some? then u2.structure else u1.structure,
          if u2.features.Some? then u2.features else u1.features,
          if u2.constraints.Some? then u2.constraints else u1.constraints,
          if u2.testing.Some? then u2.testing else u1.testing,
          if u2.successCriteria.Some? then u2.successCriteria else u1.successCriteria,
          if u2.createdAt.Some? then u2.createdAt else u1.createdAt,
          if u2.updatedAt.Some? then u2.updatedAt else u1.updatedAt)
  }

  /** Two updates in a row leave the record as one update with both patches, the later winning. */
  lemma MergeTwice(p: Project, u1: Patch, u2: Patch, t1: Timestamp, t2: Timestamp)
    ensures Merge(Merge(p, u1, t1), u2, t2) == Merge(p, Over(u1, u2), t2)
  {
  }

  /** An empty patch only refreshes `updated_at`. */
  lemma MergeNothing(p: Project, u: Patch, now: Timestamp)
    requires forall f :: Supplied(u, f).None?
    ensures Merge(p, u, now) == p.(updatedAt := now)
  {
    assert Supplied(u, Id).None? && Supplied(u, Title).None? && Supplied(u, Description).None?;
    assert Supplied(u, Objective).None? && Supplied(u, Structure).None? && Supplied(u, Features).None?;
    assert Supplied(u, Constraints).None? && Supplied(u, Testing).None?;
    assert Supplied(u, SuccessCriteria).None? && Supplied(u, CreatedAt).None?;
  }

  // ---------------------------------------------------------------------
  // The array operations the store applies to the collection
  // ---------------------------------------------------------------------

  predicate HasId(ps: seq<Project>, id: string) {
    exists i :: 0 <= i < |ps| && ps[i].id == id
  }

  /** No two records share an id. */
  predicate UniqueIds(ps: seq<Project>) {
    forall i, j :: 0 <= i < j < |ps| ==> ps[i].id != ps[j].id
  }

  /** `ps.findIndex(p => p.id === id)`: the first position holding `id`, or -1. */
  function FindIndex(ps: seq<Project>, id: string): (r: int)
    ensures -1 <= r < |ps|
    ensures r == -1 <==> !HasId(ps, id)
    ensures r != -1 ==> ps[r].id == id && forall j :: 0 <= j < r ==> ps[j].id != id
  {
    if |ps| == 0 then -1
    else if ps[0].id == id then 0
    else
      var k := FindIndex(ps[1..], id);
      if k == -1 then
        assert forall i :: 1 <= i < |ps| ==> ps[i] == ps[1..][i - 1];
        -1
      else k + 1
  }

  /** `ps.find(p => p.id === id) || null`: the first record holding `id`, if any. */
  function Find(ps: seq<Project>, id: string): (r: Option<Project>)
    ensures r.None? <==> !HasId(ps, id)
    ensures r.Some? ==> r.value.id == id && r.value == ps[FindIndex(ps, id)]
  {
    var i := FindIndex(ps, id);
    if i == -1 then None else Some(ps[i])
  }

  /** `ps.filter(p => p.id !== id)`. */
  function WithoutId(ps: seq<Project>, id: string): (r: seq<Project>)
    ensures forall p: Project :: p in r <==> p in ps && p.id != id
    ensures !HasId(r, id)
    ensures |r| <= |ps|
    ensures |r| == |ps| <==> !HasId(ps, id)
    ensures !HasId(ps, id) ==> r == ps
  {
    if |ps| == 0 then []
    else
      var rest := WithoutId(ps[1..], id);
      assert ps == [ps[0]] + ps[1..];
      assert HasId(ps[1..], id) ==> HasId(ps, id) by {
        if HasId(ps[1..], id) {
          var i :| 0 <= i < |ps[1..]| && ps[1..][i].id == id;
          assert ps[i + 1].id == id;
        }
      }
      assert !HasId(ps[1..], id) && ps[0].id != id ==> !HasId(ps, id) by {
        if HasId(ps, id) && ps[0].id != id {
          var i :| 0 <= i < |ps| && ps[i].id == id;
          assert ps[1..][i - 1].id == id;
        }
      }
      if ps[0].id == id then rest else [ps[0]] + rest
  }

  /** Filtering keeps every record without the id exactly as often as it occurred. */
  lemma {:induction false} WithoutIdCounts(ps: seq<Project>, id: string, p: Project)
    requires p.id != id
    ensures multiset(WithoutId(ps, id))[p] == multiset(ps)[p]
  {
    if |ps| > 0 {
      assert ps == [ps[0]] + ps[1..];
      WithoutIdCounts(ps[1..], id, p);
    }
  }

  /** Filtering a concatenation filters each part and keeps them in order. */
  lemma {:induction false} WithoutIdAppend(a: seq<Project>, b: seq<Project>, id: string)
    ensures WithoutId(a + b, id) == WithoutId(a, id) + WithoutId(b, id)
  {
    if |a| == 0 {
      assert a + b == b;
    } else {
      assert (a + b)[0] == a[0];
      assert (a + b)[1..] == a[1..] + b;
      WithoutIdAppend(a[1..], b, id);
    }
  }

  /** Filtering out the id of the one record that has it cuts that record out and keeps the rest in order. */
  lemma WithoutIdSplice(before: seq<Project>, x: Project, after: seq<Project>)
    requires !HasId(before, x.id) && !HasId(after, x.id)
    ensures WithoutId(before + [x] + after, x.id) == before + after
  {
    var head := before + [x];
    WithoutIdAppend(head, after, x.id);
    WithoutIdAppend(before, [x], x.id);
    assert WithoutId([x], x.id) == [] by {
      assert [x][1..] == [];
    }
    assert WithoutId(head, x.id) == before;
    assert WithoutId(after, x.id) == after;
  }

  /** With unique ids, deleting a record's id removes exactly that record. */
  lemma WithoutIdAround(ps: seq<Project>, k: nat)
    requires k < |ps| && UniqueIds(ps)
    ensures WithoutId(ps, ps[k].id) == ps[..k] + ps[k + 1..]
  {
    var before, after := ps[..k], ps[k + 1..];
    assert !HasId(before, ps[k].id) by {
      forall i | 0 <= i < |before| ensures before[i].id != ps[k].id {
        assert before[i] == ps[i];
      }
    }
    assert !HasId(after, ps[k].id) by {
      forall i | 0 <= i < |after| ensures after[i].id != ps[k].id {
        assert after[i] == ps[k + 1 + i];
      }
    }
    assert ps == before + [ps[k]] + after;
    WithoutIdSplice(before, ps[k], after);
  }

  /** Filtering twice by the same id changes nothing more. */
  lemma WithoutIdIdempotent(ps: seq<Project>, id: string)
    ensures WithoutId(WithoutId(ps, id), id) == WithoutId(ps, id)
  {
  }

  /** Removing records keeps ids unique. */
  lemma {:induction false} WithoutIdKeepsUnique(ps: seq<Project>, id: string)
    requires UniqueIds(ps)
    ensures UniqueIds(WithoutId(ps, id))
  {
    if |ps| > 0 {
      var tail := ps[1..];
      UniqueTail(ps);
      WithoutIdKeepsUnique(tail, id);
      if ps[0].id != id {
        var rest := WithoutId(tail, id);
        UniqueCons(ps[0], rest);
      }
    }
  }

  lemma UniqueTail(ps: seq<Project>)
    requires |ps| > 0 && UniqueIds(ps)
    ensures UniqueIds(ps[1..]) && !HasId(ps[1..], ps[0].id)
  {
    var tail := ps[1..];
    forall i, j | 0 <= i < j < |tail| ensures tail[i].id != tail[j].id {
      assert tail[i] == ps[i + 1] && tail[j] == ps[j + 1];
    }
    forall i | 0 <= i < |tail| ensures tail[i].id != ps[0].id {
      assert tail[i] == ps[i + 1];
    }
  }

  lemma UniqueCons(x: Project, rest: seq<Project>)
    requires UniqueIds(rest) && !HasId(rest, x.id)
    ensures UniqueIds([x] + rest)
  {
    var r := [x] + rest;
    forall i, j | 0 <= i < j < |r| ensures r[i].id != r[j].id {
      if i == 0 {
        assert r[j] == rest[j - 1];
      } else {
        assert r[i] == rest[i - 1] && r[j] == rest[j - 1];
      }
    }
  }

  /** With unique ids, the first match is the only match. */
  lemma FindUnique(ps: seq<Project>, k: nat)
    requires k < |ps| && UniqueIds(ps)
    ensures Find(ps, ps[k].id) == Some(ps[k])
  {
  }

  /** A record appended under a fresh id is what a later lookup of that id returns. */
  lemma FindAppended(ps: seq<Project>, p: Project)
    requires !HasId(ps, p.id)
    ensures Find(ps + [p], p.id) == Some(p)
    ensures forall id :: id != p.id ==> Find(ps + [p], id) == Find(ps, id)
  {
    assert (ps + [p])[|ps|].id == p.id;
    forall id | id != p.id ensures Find(ps + [p], id) == Find(ps, id) {
      var i, j := FindIndex(ps + [p], id), FindIndex(ps, id);
      if j != -1 {
        assert (ps + [p])[j] == ps[j];
        assert i == j;
      }
    }
  }

  /** After the first match is replaced by a record with the same id, a lookup of that id returns the replacement. */
  lemma FindReplaced(ps: seq<Project>, id: string, q: Project)
    requires HasId(ps, id) && q.id == id
    ensures Find(ps[FindIndex(ps, id) := q], id) == Some(q)
  {
  }

  /** Replacing a record by one with the same id keeps ids unique. */
  lemma ReplaceKeepsUnique(ps: seq<Project>, i: nat, q: Project)
    requires i < |ps| && UniqueIds(ps) && q.id == ps[i].id
    ensures UniqueIds(ps[i := q])
  {
  }

  // ---------------------------------------------------------------------
  // The store
  // ---------------------------------------------------------------------

  /**
   * What browser storage holds under the key 'projects': nothing, a payload
   * that cannot be read or parsed, or a saved collection.
   */
  datatype Slot = Empty | Unreadable | Saved(records: seq<Project>)

  /** The collection `getProjects` reads out of a slot: the saved records, or `[]` for anything else. */
  function Decode(s: Slot): (r: seq<Project>)
    ensures s.Saved? ==> r == s.records
    ensures r != [] ==> s == Saved(r)
  {
    if s.Saved? then s.records else []
  }

  class ProjectStore {
    var slot: Slot

    constructor (initial: Slot)
      ensures slot == initial
    {
      slot := initial;
    }

    /** The collection every operation starts from. */
    ghost function Projects(): seq<Project>
      reads this
    {
      Decode(slot)
    }

    /** `getProjects`: the saved records, or `[]` when nothing is stored or the payload is unreadable; never fails. */
    method GetProjects() returns (ps: seq<Project>)
      ensures slot.Saved? ==> ps == slot.records
      ensures slot == Empty || slot == Unreadable ==> ps == []
    {
      match slot
      case Saved(records) => ps := records;
      case Empty => ps := [];
      case Unreadable => ps := [];
    }

    /**
     * `saveProjects`: overwrite the slot with `ps`. `writable` is whether
     * the storage write succeeds; a failed write is swallowed.
     */
    method SaveProjects(ps: seq<Project>, writable: bool)
      modifies this
      ensures slot == if writable then Saved(ps) else old(slot)
    {
      if writable {
        slot := Saved(ps);
      }
    }

    /**
     * `addProject`: append a record built from `d` with the id `freshId` and
     * both timestamps `now`, save, and return the record.
     */
    method AddProject(d: Draft, freshId: string, now: Timestamp, writable: bool) returns (p: Project)
      requires !HasId(Projects(), freshId)
      modifies this
      ensures DraftOf(p) == d && p.id == freshId && p.createdAt == now && p.updatedAt == now
      ensures slot == if writable then Saved(old(Projects()) + [p]) else old(slot)
      ensures old(UniqueIds(Projects())) ==> UniqueIds(Projects())
    {
      var projects := GetProjects();
      p := NewRecord(d, freshId, now);
      projects := projects + [p];
      SaveProjects(projects, writable);
    }

    /**
     * `updateProject`: merge `u` over the first record with `id`, stamp it
     * `now`, save, and return it; `None` and no save when no record has `id`.
     */
    method UpdateProject(id: string, u: Patch, now: Timestamp, writable: bool) returns (r: Option<Project>)
      modifies this
      ensures r.None? <==> !HasId(old(Projects()), id)
      ensures r.None? ==> slot == old(slot)
      ensures r.Some? ==>
        var i := FindIndex(old(Projects()), id);
        && r.value == Merge(old(Projects())[i], u, now)
        && slot == if writable then Saved(old(Projects())[i := r.value]) else old(slot)
      ensures old(UniqueIds(Projects())) && (u.id.None? || u.id == Some(id)) ==> UniqueIds(Projects())
    {
      var projects := GetProjects();
      var index := FindIndex(projects, id);
      if index == -1 {
        return None;
      }
      projects := projects[index := Merge(projects[index], u, now)];
      SaveProjects(projects, writable);
      r := Some(projects[index]);
      if writable && UniqueIds(old(Projects())) && (u.id.None? || u.id == Some(id)) {
        ReplaceKeepsUnique(old(Projects()), index, r.value);
      }
    }

    /**
     * `deleteProject`: drop every record with `id` and save; `true` iff
     * something was dropped. Nothing is saved when nothing was dropped.
     */
    method DeleteProject(id: string, writable: bool) returns (removed: bool)
      modifies this
      ensures removed == HasId(old(Projects()), id)
      ensures slot == if removed && writable then Saved(WithoutId(old(Projects()), id)) else old(slot)
      ensures writable ==> !HasId(Projects(), id)
      ensures old(UniqueIds(Projects())) ==> UniqueIds(Projects())
    {
      var projects := GetProjects();
      var filtered := WithoutId(projects, id);
      if |filtered| == |projects| {
        return false;
      }
      SaveProjects(filtered, writable);
      removed := true;
      if UniqueIds(projects) {
        WithoutIdKeepsUnique(projects, id);
      }
    }

    /** `getProjectById`: the first record with `id`, or `None`; the store is left as it was. */
    method GetProjectById(id: string) returns (r: Option<Project>)
      ensures r == Find(Projects(), id)
    {
      var projects := GetProjects();
      r := Find(projects, id);
    }
  }
}
