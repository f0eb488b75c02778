/** The allocation-free containers every rendering stage uses (Array.h).
    `FixedArray` is the plain fixed-capacity array; `Buffer` adds a running
    size, reset each frame. Neither checks bounds, so the unchecked accesses of
    Array.h become preconditions here. */
module Arrays {

  /** Array<T>: `capacity` elements allocated once. */
  class FixedArray<T(0)> {
    const elements: array<T>

    function Capacity(): nat { elements.Length }

    constructor (capacity: nat)
      ensures Capacity() == capacity && fresh(elements)
    {
      elements := new T[capacity];
    }

    /** The initializer-list constructor: capacity is the list length, the
        elements are the list, in order. */
    constructor FromList(il: seq<T>)
      ensures Capacity() == |il| && elements[..] == il && fresh(elements)
    {
      elements := new T[|il|](i requires 0 <= i < |il| => il[i]);
    }

    /** operator[] read: unchecked, so the index must lie below the capacity. */
    function Get(index: nat): (r: T)
      requires index < Capacity()
      reads elements
      ensures r == elements[..][index]
    {
      elements[index]
    }

    /** operator[] write through the returned reference. */
    method Set(index: nat, x: T)
      requires index < Capacity()
      modifies elements
      ensures elements[..] == old(elements[..])[index := x]
    {
      elements[index] := x;
    }
  }

  /** Buffer<T>: an Array with a running size `index`. */
  class Buffer<T(0)> {
    const elements: array<T>
    var index: nat

    ghost predicate Valid()
      reads this
    {
      index <= elements.Length
    }

    function Capacity(): nat { elements.Length }

    function Size(): nat
      reads this
    {
      index
    }

    /** The elements pushed since the last clear, in push order. */
    ghost function Contents(): (s: seq<T>)
      requires Valid()
      reads this, elements
      ensures |s| == Size()
    {
      elements[..index]
    }

    constructor (capacity: nat)
      ensures Valid() && fresh(elements)
      ensures Capacity() == capacity && Contents() == []
    {
      elements := new T[capacity];
      index := 0;
    }

    /** operator[] read: unchecked below the capacity, meaningful below the size. */
    function Get(i: nat): (r: T)
      requires i < Capacity()
      reads elements
      ensures Valid() && i < Size() ==> r == Contents()[i]
    {
      elements[i]
    }

    /** operator[] write through the returned reference. */
    method Set(i: nat, x: T)
      requires Valid() && i < Size()
      modifies elements
      ensures Valid() && Size() == old(Size())
      ensures Contents() == old(Contents())[i := x]
    {
      elements[i] := x;
    }

    method Clear()
      requires Valid()
      modifies this`index
      ensures Valid() && Contents() == []
    {
      index := 0;
    }

    /** push: Array.h does not check the capacity, hence the precondition. */
    method Push(x: T)
      requires Valid() && Size() < Capacity()
      modifies this`index, elements
      ensures Valid() && Size() == old(Size()) + 1
      ensures Contents() == old(Contents()) + [x]
      ensures elements[old(Size())] == x
      ensures forall i :: 0 <= i < Capacity() && i != old(Size()) ==> elements[i] == old(elements[i])
      ensures GetLast() == x
    {
      elements[index] := x;
      index := index + 1;
    }

    /** getLast: the most recently pushed element. */
    function GetLast(): (r: T)
      requires Valid() && Size() > 0
      reads this, elements
      ensures r == Contents()[Size() - 1]
    {
      elements[index - 1]
    }
  }
}
