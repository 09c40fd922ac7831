/** The to-do item record, the due-date comparator used by the list's sort,
    and the rule that turns an item into the text of its table row. */
module TodoItems {
  import opened Wrappers

  /** A point in time. Swift's `Date` is a floating-point offset from a
      reference date; here it is an abstract, totally ordered timestamp. */
  type Timestamp = int

  /** `TodoItem`: a title and an optional due date. The Swift type is a
      class, but no instance is changed after `init`, so a value is enough. */
  datatype TodoItem = TodoItem(title: string, dueDate: Option<Timestamp>)

  /** The comparator closure given to `sort`: `item1` comes before `item2`
      only when both have a due date and the first date is earlier. */
  predicate Less(item1: TodoItem, item2: TodoItem)
    ensures Less(item1, item2) ==> item1.dueDate.Some? && item2.dueDate.Some?
  {
    match (item1.dueDate, item2.dueDate)
    case (Some(date1), Some(date2)) => date1 < date2
    case _ => false
  }

  /** Neither item is placed before the other by `Less`. */
  predicate Incomparable(a: TodoItem, b: TodoItem) {
    !Less(a, b) && !Less(b, a)
  }

  /** What the comparator answers: "not less" as soon as either side has no
      due date, otherwise exactly the order of the dates. Hence it is
      irreflexive and never holds in both directions. */
  lemma LessCharacterised(a: TodoItem, b: TodoItem)
    ensures (a.dueDate.None? || b.dueDate.None?) ==> !Less(a, b)
    ensures a.dueDate.Some? && b.dueDate.Some? ==> (Less(a, b) <==> a.dueDate.value < b.dueDate.value)
    ensures !Less(a, a)
    ensures Less(a, b) ==> !Less(b, a)
  {
  }

  /** On dated items the comparator is transitive. */
  lemma LessTransitive(a: TodoItem, b: TodoItem, c: TodoItem)
    requires Less(a, b) && Less(b, c)
    ensures Less(a, c)
  {
  }

  /** The comparator is not a strict weak ordering once dated and undated
      items are mixed: "incomparable" is not transitive, since an undated
      item is incomparable to both of two dated items that are ordered. */
  lemma LessNotStrictWeakOrder()
    ensures exists a: TodoItem, u: TodoItem, b: TodoItem ::
      Incomparable(a, u) && Incomparable(u, b) && Less(a, b)
  {
    var a := TodoItem("a", Some(1));
    var u := TodoItem("u", None);
    var b := TodoItem("b", Some(2));
    assert Incomparable(a, u) && Incomparable(u, b) && Less(a, b);
  }

  /** The text of an item's table row: the title alone when there is no due
      date, otherwise the title, `" - "` and the formatted date. `format`
      stands for the locale-dependent `DateFormatter` (medium date, short
      time). */
  function CellText(item: TodoItem, format: Timestamp -> string): (text: string)
    ensures item.title <= text
    ensures text == item.title <==> item.dueDate.None?
    ensures item.dueDate.Some? ==> text[|item.title|..] == " - " + format(item.dueDate.value)
  {
    match item.dueDate
    case None => item.title
    case Some(dueDate) => item.title + " - " + format(dueDate)
  }
}
