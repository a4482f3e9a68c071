/** The .NET list objects the later descriptors hold (`List<T>`,
    `Collection<T>`, and an `IEnumerable<T>` argument that is one of them). */
module Lists {

  class ItemList<T> {
    var items: seq<T>

    /** `new List<T>(source)`: a new list holding the same elements in the same order. */
    constructor Copy(source: seq<T>)
      ensures items == source
    {
      items := source;
    }

    /** `Add`: the element goes at the end. */
    method Add(item: T)
      modifies this
      ensures items == old(items) + [item]
    {
      items := items + [item];
    }
  }
}
