/** The storage the list is saved to: `UserDefaults.standard`, a key-value
    store, holding the list as data produced by `JSONEncoder`. The JSON text
    itself is not modelled; what is kept is that encoding then decoding gives
    the list back and that a slot may hold data that does not decode. */
module Persistence {
  import opened Wrappers
  import opened TodoItems

  /** The data stored under a key: an encoded list of items, or data that
      does not decode as `[TodoItem]` (written by some other version, or
      damaged). */
  datatype Blob = Encoded(items: seq<TodoItem>) | Undecodable

  /** `JSONEncoder().encode` of a list, when it succeeds. What it writes
      always decodes. */
  function Encode(items: seq<TodoItem>): (data: Blob)
    ensures Decode(data).Some?
  {
    Encoded(items)
  }

  /** `try? JSONDecoder().decode([TodoItem].self, from:)`: `None` when the
      data is not a list of items. */
  function Decode(data: Blob): (items: Option<seq<TodoItem>>)
    ensures items.None? <==> data.Undecodable?
  {
    match data
    case Encoded(items) => Some(items)
    case Undecodable => None
  }

  /** A list survives encoding and decoding unchanged, order included. */
  lemma DecodeEncode(items: seq<TodoItem>)
    ensures Decode(Encode(items)) == Some(items)
  {
  }

  /** The key-value store (`UserDefaults`). */
  class Defaults {
    var data: map<string, Blob>

    constructor (initial: map<string, Blob>)
      ensures data == initial
    {
      data := initial;
    }

    /** `data(forKey:)`: the stored value, or `None` if the key was never set. */
    function Data(forKey: string): (value: Option<Blob>)
      reads this
      ensures value.Some? <==> forKey in data
      ensures value.Some? ==> value.value == data[forKey]
    {
      if forKey in data then Some(data[forKey]) else None
    }

    /** `set(_:forKey:)`: replaces whatever was stored under the key. */
    method Set(value: Blob, forKey: string)
      modifies this
      ensures data == old(data)[forKey := value]
    {
      data := data[forKey := value];
    }
  }
}
