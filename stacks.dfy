/**
 * The stack the calculators take from `stack.h`, which is not part of this
 * model: a sequence whose last element is the top, with push and pop at the
 * end.
 */
module Stacks {

  class Stack<T> {
    var items: seq<T>

    /** `stackAlloc`: a new, empty stack. */
    constructor ()
      ensures items == []
    {
      items := [];
    }

    /** `isEmptyStack`. */
    function IsEmpty(): (empty: bool)
      reads this
      ensures empty <==> |items| == 0
    {
      items == []
    }

    /** The top element, without removing it. */
    function Top(): (x: T)
      requires items != []
      reads this
      ensures x in items
    {
      items[|items| - 1]
    }

    /** `push`: the argument becomes the new top. */
    method Push(x: T)
      modifies this
      ensures items == old(items) + [x]
    {
      items := items + [x];
    }

    /** `pop`: removes the top and hands it back. */
    method Pop() returns (x: T)
      requires items != []
      modifies this
      ensures old(items) == items + [x]
    {
      x := items[|items| - 1];
      items := items[..|items| - 1];
    }
  }
}
