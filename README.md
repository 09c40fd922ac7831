# To-do list store: a Dafny model

This project models the logic inside the iOS to-do app's
`TodoListViewController`. That logic is the list of to-do items (`todoItems`),
sorted by due date, saved to `UserDefaults` under the fixed key `"todoItemsKey"`
and loaded back on launch. Items are added through two alerts: a title, then a
date picker. They are deleted with a swipe and shown one per table row.

Modules:

- `Wrappers`: `Option`, for the Swift optionals.
- `TodoItems`: the `TodoItem` record (a title and an optional due date).
  Also the sort comparator `Less`, its properties, and the row-text rule `CellText`.
- `Sorting`: the sort used by `sortTodoItems`, written as an insertion sort
  (`SortByDate`) over the same comparator, with its lemmas.
- `Persistence`: the stored data (`Blob`), the codec (`Encode`/`Decode`) and
  the key-value store (`Defaults`, a class with a `map` field).
- `TodoList`: the view controller as a class. It has a `seq<TodoItem>` field
  and methods for save, load, sort, the add path, swipe delete and the two
  table data-source answers. Beside it are the pure helpers those methods are
  specified with.

The comparator answers "not less" as soon as either item has no due date.
That makes it irreflexive and asymmetric, but it is not a strict weak ordering
(`LessNotStrictWeakOrder`). An undated item is incomparable to two dated items
that are themselves ordered. So the model claims ascending order only when
every item is dated (`SortOrdersDated`). `UndatedItemBlocksOrdering` shows a
three-item list where one undated item keeps two dated items in descending
order. The only add path always supplies the picker's date. So "all items
dated and ascending" holds after any add to a list whose items are all dated,
and after any delete when it held before. `SortTodoItems`, `DatePickerDone`
and `CommitEditing` carry this.

The storage key `"todoItemsKey"` is the module constant `TodoItemsKey`. It
also initialises the controller's field `todoItemsKey`. The constant exists
because `Launch` needs the key outside any controller.

Two behaviours of the code are worth stating plainly:

- A missing or undecodable slot leaves the list as it was. It is not reset to
  empty. (At launch the list is empty anyway, see `Launch`.)
- A swipe delete does not sort the list again.

## Model

| member | source | states |
|---|---|---|
| TodoItems.Less | ToDo/ViewController.swift:155-158 | the comparator closure: true only when both items have a due date and the first date is earlier; its contract states that it never holds unless both items are dated |
| TodoItems.LessCharacterised | ToDo/ViewController.swift:155-158 | the comparator is false when either item is undated; otherwise it is exactly "earlier date"; it is irreflexive and never true both ways |
| TodoItems.LessTransitive | ToDo/ViewController.swift:155-158 | the comparator is transitive |
| TodoItems.LessNotStrictWeakOrder | ToDo/ViewController.swift:155-158 | there are items a, u, b with a~u and u~b (incomparable) yet a before b, so the comparator is not a strict weak ordering |
| TodoItems.CellText | ToDo/ViewController.swift:173-177 | row text starts with the title; it equals the title exactly when the item is undated; otherwise the rest is " - " followed by the formatted date |
| Sorting.InsertFromBack | ToDo/ViewController.swift:155 | one insertion step of the sort: the new item is moved left while it is `Less` than the item just before it, stopping at the first item it is not `Less` than; the result is one item longer and contains the new item |
| Sorting.SortByDate | ToDo/ViewController.swift:154-159 | the list an insertion sort with the comparator produces, inserting from the first item to the last; the result has the same length as the input |
| Sorting.InsertPermutation | ToDo/ViewController.swift:155 | inserting one item into the sorted prefix adds exactly that item |
| Sorting.SortPermutation | ToDo/ViewController.swift:154-159 | the sorted list has the same items with the same multiplicities, and the same length |
| Sorting.InsertNoDescent | ToDo/ViewController.swift:155 | inserting keeps the property that no item is `Less` than its predecessor |
| Sorting.SortNoDescent | ToDo/ViewController.swift:154-159 | after sorting, no item is `Less` than the item before it |
| Sorting.SortKeepsNoDescent | ToDo/ViewController.swift:154-159 | a list with no item `Less` than its predecessor is left unchanged by the sort |
| Sorting.SortIdempotent | ToDo/ViewController.swift:154-159 | sorting twice gives the same list as sorting once |
| Sorting.DatedNoDescentIsOrdered | ToDo/ViewController.swift:155-158 | for fully dated lists, "no adjacent descent" is equivalent to non-decreasing due dates |
| Sorting.SortKeepsAllDated | ToDo/ViewController.swift:154-159 | sorting a fully dated list gives a fully dated list |
| Sorting.SortOrdersDated | ToDo/ViewController.swift:154-159 | if every item has a due date, the sorted list is in non-decreasing date order |
| Sorting.SortKeepsOrdered | ToDo/ViewController.swift:154-159 | sorting an already ascending, fully dated list changes nothing |
| Sorting.UndatedItemBlocksOrdering | ToDo/ViewController.swift:154-159 | [date 2, undated, date 1] is left as it is by the sort, so with undated items there is no date order |
| Persistence.Encode | ToDo/ViewController.swift:66 | `JSONEncoder().encode` of the list when it succeeds; what it produces always decodes |
| Persistence.Decode | ToDo/ViewController.swift:75 | decoding fails exactly on undecodable data |
| Persistence.DecodeEncode | ToDo/ViewController.swift:66-75 | decoding what was encoded gives the same list back |
| Persistence.Defaults.constructor | ToDo/ViewController.swift:73 | stands for the shared `UserDefaults.standard` as it is at launch: the store starts with the given contents |
| Persistence.Defaults.Data | ToDo/ViewController.swift:73 | the stored value is present exactly when the key was set, and then it is what was set |
| Persistence.Defaults.Set | ToDo/ViewController.swift:67 | setting a key replaces its value and leaves every other key alone |
| TodoList.TitleToAdd | ToDo/ViewController.swift:97-100 | a title goes on to the date picker exactly when the text field has non-empty text, and it is that text |
| TodoList.SavedItems | ToDo/ViewController.swift:73-77 | a stored list is found exactly when the key is present and its data decodes, and it is the encoded list |
| TodoList.RemoveAt | ToDo/ViewController.swift:185 | removing a row gives one item fewer; items before the row keep their index, later ones move up one; exactly that item leaves the multiset |
| TodoList.RemoveKeepsOrdered | ToDo/ViewController.swift:185 | removing any row from an ascending, fully dated list keeps it ascending |
| TodoList.AddKeepsOrdered | ToDo/ViewController.swift:132-134 | appending a dated item to a fully dated list and sorting gives an ascending list |
| TodoList.TodoListViewController.constructor | ToDo/ViewController.swift:17-20 | a new controller starts with an empty list, bound to the given storage |
| TodoList.TodoListViewController.SaveTodoItems | ToDo/ViewController.swift:64-69 | on successful encoding, the slot under the key becomes the encoded list and reads back as it, other keys unchanged; on failure, storage is unchanged |
| TodoList.TodoListViewController.LoadTodoItems | ToDo/ViewController.swift:72-79 | the list becomes the stored list when present and decodable, otherwise it is unchanged |
| TodoList.TodoListViewController.ViewDidLoad | ToDo/ViewController.swift:29-33 | on view load the stored list is loaded, as above |
| TodoList.TodoListViewController.SortTodoItems | ToDo/ViewController.swift:154-159 | the list is permuted, not changed in content or length; a fully dated list becomes ascending; an ascending list stays the same |
| TodoList.TodoListViewController.DatePickerDone | ToDo/ViewController.swift:131-137 | one new item with the given title and a present due date is added; the result is the sort of old list plus the new item; fully dated lists end ascending; the slot then holds the new list |
| TodoList.TodoListViewController.AddNewTodo | ToDo/ViewController.swift:96-137 | a missing or empty title, or a cancelled picker, changes neither the list nor storage; otherwise as DatePickerDone, with a non-empty title |
| TodoList.TodoListViewController.CommitEditing | ToDo/ViewController.swift:183-189 | a delete at row i in range gives `items[..i] + items[i+1..]` with no re-sort and keeps "ascending" if it held; the slot then holds the new list; other editing styles change nothing |
| TodoList.TodoListViewController.NumberOfRows | ToDo/ViewController.swift:162-164 | the row count is the number of items; an add raises it by one, a delete lowers it by one; every row below it has a cell |
| TodoList.TodoListViewController.CellTextForRow | ToDo/ViewController.swift:166-177 | a row's text is the row-text rule applied to the item at that row |
| TodoList.Launch | ToDo/ViewController.swift:29-33 | a new launch holds an empty list when nothing readable is stored, and otherwise the stored list |
| TodoList.SaveThenRelaunch | ToDo/ViewController.swift:64-79 | a successful save followed by loading into a new controller reproduces the same list in the same order |

## Left out

- All UIKit presentation: navigation bar, table set-up, add button, alert
  layout, date-picker constraints, colours and `reloadData`/`deleteRows`.
  These are framework calls with no logic of the list's own.
- `ToDo/AppDelegate.swift`: it only wires the window and navigation controller.
- `JSONEncoder`/`JSONDecoder`: the JSON text format is not modelled. Encoding is
  the abstract `Encode`, and whether it succeeds is the parameter
  `encodeSucceeds`. Data that does not decode is the `Undecodable` blob.
- DecodeEncode: the JSON round trip is assumed, not proved. `Encode` wraps the
  list and `Decode` unwraps it, so the lemma and `SaveThenRelaunch` hold by
  construction. Whether a `Date` survives its encoding as a floating-point
  number and a missing due date survives as an absent key is not checked.
- `UserDefaults`: modelled as an in-memory map (`Defaults`). Durability across
  processes is represented by handing the same object to a new controller.
- `DateFormatter`: its locale-dependent output is the function parameter `format`.
- `Date`: it is a floating-point timestamp in Swift. Here it is an abstract integer
  `Timestamp`. `datePicker.minimumDate = Date()` depends on the wall clock and is
  not modelled; the picked date is a parameter.
- User interaction: which alert button is tapped and what is typed become
  parameters of `AddNewTodo` and `CommitEditing`.
- Item identity: `TodoItem` is a Swift class, so items are references. They
  are never changed after creation, so the model uses values.
- SortTodoItems: Swift's `sort` algorithm is not modelled. With a comparator
  that is not a strict weak ordering, Swift promises only a permutation. The
  model uses its own insertion sort, so the position given to undated items,
  idempotence on lists with undated items (`SortIdempotent`) and the exact
  list `UndatedItemBlocksOrdering` computes are properties of that insertion
  sort, not of Swift's. The claims that hold for any correct sort are
  `SortPermutation` and `SortOrdersDated`. `SortKeepsOrdered` holds for
  Swift only under the stability Swift's current sort happens to have: an
  unstable sort may swap two items with the same date.
