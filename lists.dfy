/** The growable list the generators pass to the shared mesh utilities
    (System.Collections.Generic.List), reduced to the members they use. */
module Lists {

  class List<T> {
    /** The list's contents, in order. */
    var elems: seq<T>

    constructor (s: seq<T>)
      ensures elems == s
    {
      elems := s;
    }

    function Count(): nat
      reads this
    {
      |elems|
    }

    /** List.Add: append at the end. */
    method Add(x: T)
      modifies this
      ensures elems == old(elems) + [x]
    {
      elems := elems + [x];
    }

    /** List.AddRange: append a whole sequence at the end. */
    method AddRange(xs: seq<T>)
      modifies this
      ensures elems == old(elems) + xs
    {
      elems := elems + xs;
    }

    /** List.Insert: the new element takes index i, later ones move up by one. */
    method Insert(i: nat, x: T)
      requires i <= |elems|
      modifies this
      ensures elems == old(elems[..i]) + [x] + old(elems[i..])
    {
      elems := elems[..i] + [x] + elems[i..];
    }

    /** The indexer's setter, list[i] = x. */
    method Set(i: nat, x: T)
      requires i < |elems|
      modifies this
      ensures elems == old(elems)[i := x]
    {
      elems := elems[i := x];
    }
  }
}
