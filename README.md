# To-do list store

This is a Dafny model of the state logic of the `App` component in a small React to-do list editor. The component has three state cells:

- `text`, the draft typed into the input;
- `todos`, the ordered list of to-dos, each with a `value`, an `id`, a `checked` flag and a `removed` (trash) flag;
- `filter`, the view selector: `all`, `checked`, `unchecked` or `removed`.

The event handlers replace these cells. There are handlers that type, submit the draft, edit a text, tick a box, move a to-do to the trash or restore it, pick a filter and empty the trash. The list that is rendered is derived from the list and the filter.

Everything is in `todo_app.dfy`, module `TodoApp`:

- `Todo`, `Filter` and `App` (the three cells as one value) are datatypes.
- Each handler is a pure transition function from the old `App` value to the new one (`Change`, `Submit`, `Edit`, `Check`, `Remove`, `SelectFilter`, `EmptyTrash`).
- The list's `filter` is `Select`: an order-preserving filter whose contract fixes its result exactly (a subsequence of the input; every kept element with its full multiplicity; nothing else).
- The list's `map` with the id test is `PatchById` over a `Patch` value that names the one field being overwritten.
- `Store` is a class with the three cells as fields. Each of its `Handle…` methods sets the fields as the handler does, and its `ensures` equates the new state with the transition function applied to the old state.
- Lemmas relate the operations to each other: unknown ids are no-ops, emptying the trash is idempotent and keeps the `all` view, the views partition the list, and ids stay unique given fresh ids.

In the source, the braces are misnested. The submit handler runs from src/App.tsx:27 to its closing brace at line 184, and line 185 closes `App`. The edit, check, remove, filter and empty-trash handlers, the derived list and the markup are all written inside the submit handler. So `App` as written has no `return` of its own and renders nothing, and none of its handlers can ever run. The model treats each handler as its own top-level operation, as the code evidently intends.

Ids are JavaScript numbers taken from the clock. Here they are `int`, and the fresh id is a parameter of `Submit`.

## Model

| member | source | states |
|---|---|---|
| TodoApp.Initial | src/App.tsx:18-20 | the component starts with an empty draft, an empty list and the `all` filter |
| TodoApp.Select | src/App.tsx:89-107 | the list filter: the result is a subsequence of the input, holds only elements that pass, and holds each passing element exactly as often as the input does |
| TodoApp.Apply | src/App.tsx:40 | the object spread `{ ...todo, field }`: the named field takes the new value, the id and the other two fields keep theirs |
| TodoApp.PatchById | src/App.tsx:38-43 | mapping with the id test keeps length and every id; a position whose id differs is unchanged; a position whose id matches gets the patch |
| TodoApp.PatchKeepsUniqueIds | src/App.tsx:38-43 | a patch never makes two to-dos share an id |
| TodoApp.FilteredTodos | src/App.tsx:89-107 | filtering by `Shows`, the switch at src/App.tsx:91-103 (`all`: not removed; `checked`: checked and not removed; `unchecked`: unchecked and not removed; `removed`: removed): the rendered list is an order-preserving sublist of the list, shows only to-dos the current filter accepts, and holds each of those exactly as often as the list does |
| TodoApp.ViewRemovedExact | src/App.tsx:101-103 | the `removed` view holds exactly the removed to-dos, in list order and with their multiplicity |
| TodoApp.ViewAllRemovedPartition | src/App.tsx:91-103 | the `all` and `removed` views together hold every to-do exactly once; their lengths sum to the list's length |
| TodoApp.ViewCheckedFiltersAll | src/App.tsx:92-97 | the `checked` view equals the checked to-dos of the `all` view, in the same order |
| TodoApp.ViewUncheckedFiltersAll | src/App.tsx:91-100 | the `unchecked` view equals the unchecked to-dos of the `all` view, in the same order |
| TodoApp.ViewCheckedUncheckedPartition | src/App.tsx:95-100 | the `checked` and `unchecked` views together hold the `all` view exactly; their lengths sum to its length |
| TodoApp.CanEmptyTrash | src/App.tsx:139 | the empty-trash button is enabled if and only if some to-do is removed |
| TodoApp.Change | src/App.tsx:22-24 | typing replaces the draft and nothing else |
| TodoApp.NewTodo | src/App.tsx:109-115 | a new to-do carries the draft as its value and the given id, and is neither checked nor removed |
| TodoApp.Submit | src/App.tsx:29-124 | with an empty draft nothing changes; otherwise the list grows by one, the new to-do is its head, the old list is its tail, the draft is cleared and the filter is kept |
| TodoApp.SubmitKeepsUniqueIds | src/App.tsx:109-122 | submitting with an id not yet in the list keeps ids unique |
| TodoApp.Edit | src/App.tsx:31-47 | draft, filter and length are kept; the to-do with the id gets the new value and keeps its other fields; every other to-do is unchanged |
| TodoApp.Check | src/App.tsx:50-61 | draft, filter and length are kept; the to-do with the id gets the new checked flag and keeps its other fields; every other to-do is unchanged |
| TodoApp.Remove | src/App.tsx:64-75 | draft, filter and length are kept; the to-do with the id gets the new removed flag and keeps its other fields; every other to-do is unchanged |
| TodoApp.UnknownIdIsNoOp | src/App.tsx:31-75 | edit, check and remove with an unknown id leave the whole state unchanged |
| TodoApp.RemoveToggleRestores | src/App.tsx:64-75 | with unique ids, passing the negated removed flag twice (delete, then restore) gives back the original state |
| TodoApp.SelectFilter | src/App.tsx:78-80 | choosing a filter sets the filter and leaves list and draft unchanged |
| TodoApp.WithoutRemoved | src/App.tsx:85 | emptying the trash keeps exactly the non-removed to-dos, in their order and with their multiplicity |
| TodoApp.EmptyTrash | src/App.tsx:83-86 | emptying the trash keeps draft and filter, and leaves an order-preserving sublist with no removed to-do that holds every non-removed to-do exactly as often as before |
| TodoApp.WithoutRemovedIsAllView | src/App.tsx:85 | the list left after emptying the trash equals the `all` view of the list before |
| TodoApp.EmptyTrashIdempotent | src/App.tsx:85 | emptying the trash twice gives the same state as emptying it once |
| TodoApp.EmptyTrashKeepsAllView | src/App.tsx:85 | emptying the trash does not change the `all` view |
| TodoApp.EmptyTrashClearsTrash | src/App.tsx:139 | after emptying the trash, the `removed` view is empty and the button is disabled |
| TodoApp.EmptyTrashKeepsUniqueIds | src/App.tsx:85 | emptying the trash never makes two to-dos share an id |
| TodoApp.BuyMilkSession | src/App.tsx:27-124 | a session: add "buy milk", tick it, the `unchecked` view is empty, trash it, the `removed` view shows exactly it, the button is enabled, emptying the trash leaves no to-do; `TodoApp.StoreSession` plays the same session on a `Store` through its handler methods |
| TodoApp.Store.constructor | src/App.tsx:18-20 | a new store holds the initial state |
| TodoApp.Store.HandleChange | src/App.tsx:22-24 | sets the draft as `Change` does |
| TodoApp.Store.HandleSubmit | src/App.tsx:27-124 | returns at once on an empty draft, otherwise prepends the new to-do and clears the draft, as `Submit` does |
| TodoApp.Store.HandleEdit | src/App.tsx:31-47 | replaces the list as `Edit` does |
| TodoApp.Store.HandleCheck | src/App.tsx:50-61 | replaces the list as `Check` does |
| TodoApp.Store.HandleRemove | src/App.tsx:64-75 | replaces the list as `Remove` does |
| TodoApp.Store.HandleFilter | src/App.tsx:78-80 | sets the filter as `SelectFilter` does |
| TodoApp.Store.HandleEmpty | src/App.tsx:83-86 | replaces the list as `EmptyTrash` does |
| TodoApp.Store.Visible | src/App.tsx:89-107 | returns `FilteredTodos` of the current state, so every promise of that function holds of the result, and changes nothing |
| TodoApp.Store.TrashButtonEnabled | src/App.tsx:139 | true if and only if some to-do in the store is removed |

## Left out

- Rendering: the markup and DOM attributes (src/App.tsx:128-183) are not modelled. This includes the other `disabled` conditions and the rule for which controls are shown under which filter. They are presentation and change no state.
- React's `useState`: its deferred and batched updates are not modelled. Each handler is one atomic step on the store. The event objects that carry input values (src/App.tsx:22-24, 130, 150, 174) are plain parameters.
- Id generation: `new Date().getTime()` (src/App.tsx:112) reads the clock. The id is a parameter of `Submit` and `HandleSubmit`. The source does not ensure ids are fresh, so the uniqueness lemmas take freshness as a precondition.
- Number type: ids are JavaScript floating-point numbers and are modelled as unbounded integers. Clock values are whole milliseconds, well inside the exactly representable range.
- The `default` branch of the filter switch (src/App.tsx:104-105) cannot be reached with a closed `Filter` datatype and is not modelled.
- The misnesting of the handlers inside the submit handler (src/App.tsx:27-184) is not modelled. As written, `App` returns nothing, so nothing is rendered and no handler is reachable.
- src/main.tsx only mounts the component into the page and is not part of this model.
