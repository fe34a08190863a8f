# Project-spec tracker: record store and app controller

A Dafny model of the core of a single-page "cahier des charges" manager. Users
create, list, view, edit and delete `Project` records: a title, a
description, six Markdown sections and two timestamps. Two parts are modelled:

- **`Storage`** (`storage.dfy`, from `src/lib/storage.ts`). This is the local record store.
  `ProjectStore` owns one slot of browser storage, the value under the key
  `'projects'`. The slot is empty, holds a payload that cannot be read, or holds
  a saved collection. Every operation reads the whole collection (`[]` unless
  a collection is saved). The mutating ones change it as an array (append,
  replace the first match, filter) and write it back whole. A failed write is
  swallowed, and the parameter `writable` says whether the write succeeds. The
  array library calls it uses are functions with contracts:
  `findIndex` → `FindIndex`, `find` → `Find`, `filter` → `WithoutId`, and the
  object spread of an update → `Merge`.
- **`Controller`** (`controller.dfy`, from `src/App.tsx`). This is the application
  state. `App` holds the view mode (`List | Form | View`), the displayed list,
  the selection and the loading flag, and calls the store. `loadProjects`
  sorts the loaded array in place, most recently updated first. JavaScript's
  sort is stable, so the result is fully determined. `SortByRecency`
  (an in-place insertion sort) is proved equal to the functional stable sort
  `RecencyOrder`. That function is then proved sorted, a permutation of its
  input, stable, and idempotent. The handlers are methods that keep the
  invariant under which the view screen renders: `'view'` only with a
  selected project.
- `wrappers.dfy` holds the `Option` type, which stands for `T | null` and for
  absent keys of a `Partial<Project>`.

`crypto.randomUUID()`, the clock and `window.confirm` are parameters
(`freshId`, `now`, `confirmed`). Timestamps are integers: the milliseconds
`Date.getTime()` yields for the stored ISO-8601 strings, which is what the sort compares.

Notes on the code:

- The store's read returns records in stored order. The controller, not the
  store, orders them by recency.
- `addProject` always returns the new record, even when the write fails.
- `src/lib/supabase.ts` only builds a client, and no remote store exists.

## Model

| member | source | states |
|---|---|---|
| Storage.NewRecord | src/lib/storage.ts:39-44 | the new record carries the caller's eight fields unchanged, the supplied id, and `created_at == updated_at == now` |
| Storage.Merge | src/lib/storage.ts:55-59 | each field the update supplies takes the supplied value and each absent one keeps the old value; `updated_at` is `now` even when the update supplies one |
| Storage.MergeTwice | src/lib/storage.ts:55-59 | two successive updates leave the record as one update whose later patch wins field by field (last write wins) |
| Storage.MergeNothing | src/lib/storage.ts:55-59 | an update that supplies no field only refreshes `updated_at` |
| Storage.EditOf | src/components/ProjectForm.tsx:25-45 | the patch the edit form submits supplies no id and no timestamp, and merging it leaves exactly the form's eight fields on the record |
| Storage.FindIndex | src/lib/storage.ts:52 | -1 exactly when no record has the id; otherwise a position holding the id with no earlier position holding it |
| Storage.Find | src/lib/storage.ts:74 | no result exactly when no record has the id; otherwise the record at the first position holding it |
| Storage.WithoutId | src/lib/storage.ts:66-67 | keeps exactly the records whose id differs and leaves none with the id; the length is unchanged exactly when no record had the id, and then the list is unchanged |
| Storage.WithoutIdCounts | src/lib/storage.ts:66 | every kept record occurs as many times as before |
| Storage.WithoutIdAppend | src/lib/storage.ts:66 | filtering a concatenation filters each part and keeps the parts in order: the remaining records keep their relative order |
| Storage.WithoutIdAround | src/lib/storage.ts:64-70 | with unique ids, deleting the id of the k-th record cuts out exactly that record |
| Storage.WithoutIdIdempotent | src/lib/storage.ts:66-67 | a second delete of the same id finds nothing more to remove |
| Storage.WithoutIdKeepsUnique | src/lib/storage.ts:66 | deleting keeps ids unique |
| Storage.FindUnique | src/lib/storage.ts:72-75 | with unique ids, a lookup of any record's id returns that record |
| Storage.FindAppended | src/lib/storage.ts:45-47 | after a record is appended under a fresh id, a lookup of that id returns it, and lookups of every other id are unchanged |
| Storage.FindReplaced | src/lib/storage.ts:55-61 | after the first match is replaced by a record with the same id, a lookup of that id returns the replacement |
| Storage.ReplaceKeepsUnique | src/lib/storage.ts:55-59 | replacing a record by one with the same id keeps ids unique |
| Storage.Decode | src/lib/storage.ts:20-25 | the collection a read yields: the saved records when a collection is saved, and records only then; `[]` for an empty slot or an unreadable payload |
| Storage.ProjectStore.constructor | src/lib/storage.ts:15 | the store starts from whatever the storage slot holds |
| Storage.ProjectStore.GetProjects | src/lib/storage.ts:18-26 | the saved records, and `[]` when nothing is stored or the payload is unreadable; it never fails |
| Storage.ProjectStore.SaveProjects | src/lib/storage.ts:28-34 | the slot holds the given collection after a successful write and is unchanged after a failed one |
| Storage.ProjectStore.AddProject | src/lib/storage.ts:36-48 | returns the record built from the caller's fields, the fresh id and `now`; a successful write stores the old collection with exactly that record appended; unique ids stay unique |
| Storage.ProjectStore.UpdateProject | src/lib/storage.ts:50-62 | no result exactly when no record has the id, and then the slot is untouched; otherwise returns the merge of the first match, and a successful write stores the collection with only that position replaced by the returned record |
| Storage.ProjectStore.DeleteProject | src/lib/storage.ts:64-70 | returns true exactly when some record had the id; only then is anything written, namely the filtered collection; after a successful write no record has the id |
| Storage.ProjectStore.GetProjectById | src/lib/storage.ts:72-75 | the first record with the id, or none; the slot is not changed |
| Controller.RecencyOrder | src/App.tsx:23-25 | the stable order `data.sort` produces, most recently updated first; it keeps the length, and its sortedness, permutation and stability are the lemmas below |
| Controller.RecencyOrderSorted | src/App.tsx:23-25 | the sorted list has `updated_at` non-increasing |
| Controller.RecencyOrderPermutes | src/App.tsx:22-26 | the sorted list is a permutation of what the store returned |
| Controller.RecencyOrderStable | src/App.tsx:23-25 | records with equal `updated_at` keep the order the store had them in |
| Controller.RecencyOrderOfSorted | src/App.tsx:23-25 | a list already in recency order is left as it is |
| Controller.RecencyOrderIdempotent | src/App.tsx:19-32 | sorting an already sorted list changes nothing |
| Controller.RecencyOrderKeepsIds | src/App.tsx:22-26 | sorting neither adds nor loses an id |
| Controller.InsertByRecencyPermutes | src/App.tsx:23-25 | one insertion step adds exactly the inserted record |
| Controller.SortByRecency | src/App.tsx:23 | the array afterwards is the stable recency order of its old contents |
| Controller.App.Valid | src/App.tsx:102 | the controller invariant: `'view'` only with a selected project, and the list in recency order; under it something always renders, and the view screen shows the selection |
| Controller.App.Render | src/App.tsx:82-112 | nothing renders exactly when the mode is `'view'` with no selection; the view screen shows the selected project |
| Controller.App.constructor | src/App.tsx:10-17 | starts on the list with no selection, then the mount effect loads the store's records in recency order and ends loading |
| Controller.App.LoadProjects | src/App.tsx:19-32 | the list becomes the stable recency order of the stored records: sorted, a permutation of them; `loading` ends false; mode and selection are unchanged |
| Controller.App.HandleNewProject | src/App.tsx:34-37 | clears the selection and enters `'form'` |
| Controller.App.HandleSelectProject | src/App.tsx:39-42 | selects the given project and enters `'view'` |
| Controller.App.HandleEditProject | src/App.tsx:44-46 | enters `'form'` and keeps the selection |
| Controller.App.HandleDeleteProject | src/App.tsx:48-61 | without a selection or without confirmation nothing changes; when confirmed, the selected id is deleted from the store, the list is reloaded (it no longer holds the id once the write succeeded), the mode is `'list'` and nothing is selected |
| Controller.App.HandleSaveProject | src/App.tsx:63-67 | reloads the list, enters `'list'` and clears the selection |
| Controller.App.HandleCancel | src/App.tsx:69-75 | enters `'view'` when a project is selected and `'list'` otherwise |
| Controller.App.HandleBackToList | src/App.tsx:77-80 | enters `'list'` and clears the selection |
| Controller.App.SubmitForm | src/components/ProjectForm.tsx:36-52 | with a selection, updates that record with the form's fields; otherwise appends a new record; then the save handler's reload and return to the list |

Every `App` handler requires and ensures `Valid()`: the view mode is `'view'` only
with a selected project (the condition under which the view renders,
`src/App.tsx:102`), and the displayed list is in recency order.

## Left out

- JSON encoding, and `localStorage.getItem`/`setItem` themselves, are not modelled. Storage is the `Slot` value. A payload that is not an array of project records (for example `null`, `[null, …]` or `[{}]`) is not modelled. On `null` or another non-array payload the array calls themselves (`sort`, `push`, `findIndex`, `filter`, `find`) throw. On `[null, …]` their callbacks throw while reading `p.id` or `updated_at`. An array of objects lacking the fields (`[{}]`) throws nowhere: such an element never matches an id, and the comparator's `NaN` sorts as a tie.
- `crypto.randomUUID()`, `new Date().toISOString()` and `window.confirm` are parameters. Timestamps are integers, so a timestamp that does not parse as a date (the sort would compare `NaN`) is not modelled.
- Storage.ProjectStore.AddProject: requires the new id to be absent from the collection. The source relies on `crypto.randomUUID()` not colliding.
- Storage.Merge: a key that is present in `updates` but set to `undefined` overrides the field in JavaScript. The model treats it as absent.
- No property claims that `updated_at` increases or stays at least `created_at`. The time comes from the clock, and an update may supply its own `created_at`. The code promises neither.
- `console.error` logging is not modelled. Neither are the `try`/`catch` blocks in `loadProjects` (`src/App.tsx:27-28`), `handleDeleteProject` (`src/App.tsx:57-58`) and the form's submit (`src/components/ProjectForm.tsx:47-48`). They fire only when a payload makes an array call or its callback throw, as described above. Then `loadProjects` would keep the old list, `handleDeleteProject` would stay on the view screen, and the form would skip `onSave` and stay open.
- React's `useState`/`useEffect` batching and the `async` form submit are not modelled. Each handler is one sequential state change. While `loadProjects` runs, `loading` is briefly true; the model shows only its final value.
- `src/utils/markdown.ts` (Markdown rendering and sanitising) is not modelled. It calls the `marked` parser and `DOMPurify`, whose behaviour is not part of this model.
- `src/lib/supabase.ts` is not modelled. It only builds a network client from configuration, and no remote CRUD or ordering code exists.
- The rendering of `ProjectList`, `ProjectView` and `ProjectForm` is not modelled. The form disables saving while the title is blank (`src/components/ProjectForm.tsx:130`). The store does not check this, so the model does not require it.
