/** The doubling dynamic array of `darray.c`. */
module DynArray {

  /** The capacity `darray_append` grows a full array to. */
  function Grown(capacity: nat): (r: nat)
    ensures r > capacity
  {
    if capacity == 0 then 2 else 2 * capacity
  }

  class DArray<T> {
    /** `NULL` exactly while the capacity is 0. */
    var data: array?<T>
    var size: nat
    var capacity: nat
    /** The stored elements, in order. */
    ghost var elements: seq<T>

    ghost predicate Valid()
      reads this, data
    {
      && size <= capacity
      && (data == null <==> capacity == 0)
      && (data != null ==> data.Length == capacity && data[..size] == elements)
      && |elements| == size
    }

    /** A zero-initialised `darray_t`. */
    constructor ()
      ensures Valid() && elements == [] && capacity == 0
    {
      data := null;
      size := 0;
      capacity := 0;
      elements := [];
    }

    /** `darray_append`: grow a full array (to 2, or to twice its
        capacity) keeping its elements, then store `e` at index `size`. */
    method Append(e: T)
      requires Valid()
      modifies this, data
      ensures Valid() && elements == old(elements) + [e]
      ensures size == old(size) + 1
      ensures capacity == if old(size) == old(capacity) then Grown(old(capacity)) else old(capacity)
      ensures old(size) < old(capacity) ==> data == old(data)
      ensures old(size) == old(capacity) ==> fresh(data)
    {
      if size == capacity {
        var newCapacity := Grown(capacity);
        var a := new T[newCapacity](_ => e);
        if data != null {
          forall i | 0 <= i < size {
            a[i] := data[i];
          }
        }
        assert a[..size] == elements;
        data := a;
        capacity := newCapacity;
      }
      data[size] := e;
      assert data[..size + 1] == elements + [e];
      elements := elements + [e];
      size := size + 1;
    }

    /** `darray_free`: drop the storage and empty the array. */
    method Free()
      modifies this
      ensures Valid() && data == null && size == 0 && capacity == 0 && elements == []
    {
      data := null;
      size := 0;
      capacity := 0;
      elements := [];
    }
  }
}
