/** `History` (history/mod.rs): the log of actions played, which only grows.
    Actions are of an opaque type `A`. */
module Histories {

  class History<A> {
    var entries: seq<A>

    /** `History::default()`: the empty log. */
    constructor Default()
      ensures entries == []
    {
      entries := [];
    }

    /** `add(action)`: appends `action`; every earlier entry stays where it
        was. */
    method Add(action: A)
      modifies this
      ensures entries == old(entries) + [action]
      ensures |entries| == |old(entries)| + 1 && entries[|entries| - 1] == action
      ensures forall i :: 0 <= i < |old(entries)| ==> entries[i] == old(entries)[i]
    {
      entries := entries + [action];
    }

    /** Iterating over `&history`: the entries, oldest first, gathered one
        by one as a `for` loop over the log would. */
    method Iterate() returns (items: seq<A>)
      ensures items == entries
    {
      items := [];
      var i := 0;
      while i < |entries|
        invariant 0 <= i <= |entries|
        invariant items == entries[..i]
      {
        items := items + [entries[i]];
        i := i + 1;
      }
    }
  }
}
