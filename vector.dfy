/** The growable output buffer the two routines append to: a `std::vector`
    passed by reference, of which only `push_back` is used. */
module Vectors {

  class Vector<T> {
    /** The elements, in order. */
    var elems: seq<T>

    /** An empty vector, as a default-constructed `std::vector`. */
    constructor ()
      ensures elems == []
    {
      elems := [];
    }

    /** `push_back`: appends one element at the end and changes nothing else. */
    method PushBack(x: T)
      modifies this
      ensures elems == old(elems) + [x]
    {
      elems := elems + [x];
    }
  }
}
