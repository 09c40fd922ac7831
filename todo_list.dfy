/** `TodoListViewController` without its UIKit presentation: the in-memory
    list `todoItems`, the actions that change it (add through the two alerts,
    swipe delete), its sort, its saving to and loading from `UserDefaults`
    under one fixed key, and the two table data-source answers. */
module TodoList {
  import opened Wrappers
  import opened TodoItems
  import opened Sorting
  import opened Persistence

  /** The fixed key the whole list is stored under. */
  const TodoItemsKey: string := "todoItemsKey"

  /** `UITableViewCell.EditingStyle`. */
  datatype EditingStyle = NoEditing | Delete | Insert

  /** The guard of the "Next" action of the first alert: a title goes on to
      the date picker only when the text field exists, has text, and that
      text is not empty. */
  function TitleToAdd(fieldText: Option<string>): (title: Option<string>)
    ensures title.Some? <==> fieldText.Some? && fieldText.value != []
    ensures title.Some? ==> title.value == fieldText.value
  {
    match fieldText
    case Some(text) => if text == [] then None else Some(text)
    case None => None
  }

  /** The list stored under a key, if there is one and it decodes. */
  function SavedItems(stored: Option<Blob>): (items: Option<seq<TodoItem>>)
    ensures items.Some? <==> stored.Some? && stored.value.Encoded?
    ensures items.Some? ==> items.value == stored.value.items
  {
    match stored
    case Some(data) => Decode(data)
    case None => None
  }

  /** `remove(at:)`: the item at `row` is gone and the others keep their order. */
  function RemoveAt(s: seq<TodoItem>, row: nat): (r: seq<TodoItem>)
    requires row < |s|
    ensures |r| == |s| - 1
    ensures forall k :: 0 <= k < row ==> r[k] == s[k]
    ensures forall k :: row <= k < |r| ==> r[k] == s[k + 1]
    ensures multiset(r) + multiset{s[row]} == multiset(s)
  {
    assert s == s[..row] + [s[row]] + s[row + 1..];
    s[..row] + s[row + 1..]
  }

  /** Removing an item from an ascending list leaves it ascending. */
  lemma RemoveKeepsOrdered(s: seq<TodoItem>, row: nat)
    requires row < |s| && Ordered(s)
    ensures Ordered(RemoveAt(s, row))
  {
    var r := RemoveAt(s, row);
    forall i | 0 <= i < |r| ensures r[i].dueDate.Some? {
      assert r[i] == if i < row then s[i] else s[i + 1];
    }
    forall i, j | 0 <= i < j < |r| ensures r[i].dueDate.value <= r[j].dueDate.value {
      var i', j' := if i < row then i else i + 1, if j < row then j else j + 1;
      assert r[i] == s[i'] && r[j] == s[j'];
    }
  }

  /** Appending a dated item to a list of dated items and sorting gives an
      ascending list. */
  lemma AddKeepsOrdered(s: seq<TodoItem>, item: TodoItem)
    requires AllDated(s) && item.dueDate.Some?
    ensures Ordered(SortByDate(s + [item]))
  {
    var t := s + [item];
    assert AllDated(t) by {
      forall i | 0 <= i < |t| ensures t[i].dueDate.Some? {
        if i < |s| { assert t[i] == s[i]; }
      }
    }
    SortOrdersDated(t);
  }

  class TodoListViewController {
    /** The items in display order. */
    var todoItems: seq<TodoItem>
    const todoItemsKey: string := TodoItemsKey
    const defaults: Defaults

    /** The controller as created: an empty list, nothing loaded yet. */
    constructor (defaults: Defaults)
      ensures todoItems == [] && this.defaults == defaults
    {
      todoItems := [];
      this.defaults := defaults;
    }

    /** Every item has a due date and the list is ascending by date. */
    ghost predicate DatedAndSorted()
      reads this
    {
      Ordered(todoItems)
    }

    /** The stored slot holds exactly the current list. */
    ghost predicate Persisted()
      reads this, defaults
    {
      defaults.Data(todoItemsKey) == Some(Encode(todoItems))
    }

    /** `saveTodoItems`: the whole list overwrites the slot under the key;
        when encoding fails nothing is written. */
    method SaveTodoItems(encodeSucceeds: bool)
      modifies defaults
      ensures encodeSucceeds ==> defaults.data == old(defaults.data)[todoItemsKey := Encode(todoItems)]
      ensures encodeSucceeds ==> Persisted() && SavedItems(defaults.Data(todoItemsKey)) == Some(todoItems)
      ensures !encodeSucceeds ==> defaults.data == old(defaults.data)
    {
      if encodeSucceeds {
        defaults.Set(Encode(todoItems), todoItemsKey);
      }
    }

    /** `loadTodoItems`: the list becomes the stored one when the key holds
        decodable data; otherwise it stays as it was. */
    method LoadTodoItems()
      modifies this`todoItems
      ensures SavedItems(defaults.Data(todoItemsKey)).Some? ==>
                todoItems == SavedItems(defaults.Data(todoItemsKey)).value
      ensures SavedItems(defaults.Data(todoItemsKey)).None? ==> todoItems == old(todoItems)
    {
      var stored := defaults.Data(todoItemsKey);
      if stored.Some? {
        var decoded := Decode(stored.value);
        if decoded.Some? {
          todoItems := decoded.value;
        }
      }
    }

    /** `viewDidLoad`, without its UIKit set-up: the saved list is loaded. */
    method ViewDidLoad()
      modifies this`todoItems
      ensures SavedItems(defaults.Data(todoItemsKey)).Some? ==>
                todoItems == SavedItems(defaults.Data(todoItemsKey)).value
      ensures SavedItems(defaults.Data(todoItemsKey)).None? ==> todoItems == old(todoItems)
    {
      LoadTodoItems();
    }

    /** `sortTodoItems`: the list is reordered, never changed in content;
        when every item is dated it ends up ascending by date, and an
        ascending list is left as it is. */
    method SortTodoItems()
      modifies this`todoItems
      ensures todoItems == SortByDate(old(todoItems))
      ensures multiset(todoItems) == multiset(old(todoItems)) && |todoItems| == |old(todoItems)|
      ensures AllDated(old(todoItems)) ==> DatedAndSorted()
      ensures old(DatedAndSorted()) ==> todoItems == old(todoItems)
    {
      SortPermutation(todoItems);
      if AllDated(todoItems) {
        SortOrdersDated(todoItems);
      }
      if Ordered(todoItems) {
        SortKeepsOrdered(todoItems);
      }
      todoItems := SortByDate(todoItems);
    }

    /** The "Done" action of the date picker alert: a new item with the title
        and the picked date is appended, the list is sorted and then saved. */
    method DatePickerDone(newItemTitle: string, pickedDate: Timestamp, encodeSucceeds: bool)
      modifies this`todoItems, defaults
      ensures todoItems == SortByDate(old(todoItems) + [TodoItem(newItemTitle, Some(pickedDate))])
      ensures |todoItems| == |old(todoItems)| + 1 && NumberOfRows() == old(NumberOfRows()) + 1
      ensures multiset(todoItems) == multiset(old(todoItems)) + multiset{TodoItem(newItemTitle, Some(pickedDate))}
      ensures AllDated(old(todoItems)) ==> DatedAndSorted()
      ensures encodeSucceeds ==> defaults.data == old(defaults.data)[todoItemsKey := Encode(todoItems)]
      ensures !encodeSucceeds ==> defaults.data == old(defaults.data)
    {
      var newItem := TodoItem(newItemTitle, Some(pickedDate));
      if AllDated(todoItems) {
        AddKeepsOrdered(todoItems, newItem);
      }
      todoItems := todoItems + [newItem];
      SortTodoItems();
      SaveTodoItems(encodeSucceeds);
    }

    /** The whole add path: the text typed in the first alert, whether the
        date picker was confirmed with "Done" (rather than "Cancel"), and the
        date it showed. An empty or missing title, or a cancelled picker,
        changes neither the list nor the stored slot. */
    method AddNewTodo(fieldText: Option<string>, done: bool, pickedDate: Timestamp, encodeSucceeds: bool)
      modifies this`todoItems, defaults
      ensures TitleToAdd(fieldText).None? || !done ==>
                todoItems == old(todoItems) && defaults.data == old(defaults.data)
      ensures TitleToAdd(fieldText).Some? && done ==>
                var newItem := TodoItem(fieldText.value, Some(pickedDate));
                && newItem.title != []
                && todoItems == SortByDate(old(todoItems) + [newItem])
                && |todoItems| == |old(todoItems)| + 1 && NumberOfRows() == old(NumberOfRows()) + 1
                && multiset(todoItems) == multiset(old(todoItems)) + multiset{newItem}
                && (AllDated(old(todoItems)) ==> DatedAndSorted())
                && (encodeSucceeds ==> defaults.data == old(defaults.data)[todoItemsKey := Encode(todoItems)])
                && (!encodeSucceeds ==> defaults.data == old(defaults.data))
    {
      var title := TitleToAdd(fieldText);
      if title.Some? && done {
        DatePickerDone(title.value, pickedDate, encodeSucceeds);
      }
    }

    /** `tableView(_:commit:forRowAt:)`: a swipe delete removes the row's item
        and saves; the list is not sorted again. Other editing styles do
        nothing. */
    method CommitEditing(editingStyle: EditingStyle, row: nat, encodeSucceeds: bool)
      requires editingStyle == Delete ==> row < |todoItems|
      modifies this`todoItems, defaults
      ensures editingStyle != Delete ==>
                todoItems == old(todoItems) && defaults.data == old(defaults.data)
      ensures editingStyle == Delete ==>
                && todoItems == old(todoItems)[..row] + old(todoItems)[row + 1..]
                && |todoItems| == |old(todoItems)| - 1 && NumberOfRows() == old(NumberOfRows()) - 1
                && multiset(todoItems) + multiset{old(todoItems)[row]} == multiset(old(todoItems))
                && (old(DatedAndSorted()) ==> DatedAndSorted())
                && (encodeSucceeds ==> defaults.data == old(defaults.data)[todoItemsKey := Encode(todoItems)])
                && (!encodeSucceeds ==> defaults.data == old(defaults.data))
    {
      if editingStyle == Delete {
        if Ordered(todoItems) {
          RemoveKeepsOrdered(todoItems, row);
        }
        todoItems := RemoveAt(todoItems, row);
        SaveTodoItems(encodeSucceeds);
      }
    }

    /** `tableView(_:numberOfRowsInSection:)`: one row per item. */
    function NumberOfRows(): (rows: nat)
      reads this
    {
      |todoItems|
    }

    /** The text of the cell `tableView(_:cellForRowAt:)` shows for a row. */
    function CellTextForRow(row: nat, format: Timestamp -> string): (text: string)
      requires row < NumberOfRows()
      reads this
      ensures todoItems[row].title <= text
      ensures text == todoItems[row].title <==> todoItems[row].dueDate.None?
      ensures todoItems[row].dueDate.Some? ==>
                text[|todoItems[row].title|..] == " - " + format(todoItems[row].dueDate.value)
    {
      CellText(todoItems[row], format)
    }
  }

  /** A launch of the app: the controller is created with an empty list and
      loads what is stored; with nothing readable stored it stays empty. */
  method Launch(defaults: Defaults) returns (controller: TodoListViewController)
    ensures fresh(controller) && controller.defaults == defaults
    ensures SavedItems(defaults.Data(TodoItemsKey)).None? ==> controller.todoItems == []
    ensures SavedItems(defaults.Data(TodoItemsKey)).Some? ==>
              controller.todoItems == SavedItems(defaults.Data(TodoItemsKey)).value
  {
    controller := new TodoListViewController(defaults);
    controller.ViewDidLoad();
  }

  /** A successful save followed by a new launch on the same storage gives
      the new controller the same list, in the same order. */
  method SaveThenRelaunch(controller: TodoListViewController) returns (next: TodoListViewController)
    modifies controller.defaults
    ensures fresh(next) && next.todoItems == controller.todoItems
  {
    controller.SaveTodoItems(true);
    next := Launch(controller.defaults);
  }
}
