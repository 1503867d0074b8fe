/** The growable array of DynamicArray/DynamicArray.h. The state is the
    buffer `_data` points to, the number of elements in use and the capacity
    the array records; the elements are the first `size` cells of the
    buffer. Storage that `new T[n]` leaves unset is an unspecified value of
    T here. */
module DynamicArray {

  datatype DynArray<T> = DynArray(data: seq<T>, size: nat, capacity: nat)

  /** The elements fit in the recorded capacity, which fits in the buffer.
      After a move the buffer may be longer than the recorded capacity. */
  predicate Valid<T>(a: DynArray<T>) {
    a.size <= a.capacity <= |a.data|
  }

  /** The elements the array holds, in order. */
  function Elements<T>(a: DynArray<T>): seq<T>
    requires Valid(a)
  {
    a.data[..a.size]
  }

  /** The default constructor: no buffer, nothing held. */
  function Empty<T>(): (a: DynArray<T>)
    ensures Valid(a) && Elements(a) == [] && a.capacity == 0
  {
    DynArray([], 0, 0)
  }

  /** The sized constructor: isize fresh elements, each unset cell an
      arbitrary value of its own. */
  method New<T(0)>(isize: nat) returns (a: DynArray<T>)
    ensures Valid(a) && |a.data| == a.size == a.capacity == isize
  {
    var data: seq<T> := [];
    while |data| < isize
      invariant |data| <= isize
    {
      var unset: T := *;
      data := data + [unset];
    }
    a := DynArray(data, isize, isize);
  }

  /** The fill constructor: isize copies of t. */
  method Filled<T(0)>(isize: nat, t: T) returns (a: DynArray<T>)
    ensures Valid(a) && Elements(a) == seq(isize, _ => t) && a.capacity == isize
  {
    a := New(isize);
    var data := a.data;
    var i := 0;
    while i < isize
      invariant 0 <= i <= isize == |data|
      invariant forall k :: 0 <= k < i ==> data[k] == t
    {
      data := data[i := t];
      i := i + 1;
    }
    a := a.(data := data);
  }

  /** The copy constructor: a buffer exactly as long as the source's
      elements, holding them. */
  method CopyOf<T(0)>(src: DynArray<T>) returns (a: DynArray<T>)
    requires Valid(src)
    ensures Valid(a) && Elements(a) == Elements(src) && a.capacity == src.size
  {
    a := New(src.size);
    var data := a.data;
    var i := 0;
    while i < src.size
      invariant 0 <= i <= src.size == |data|
      invariant forall k :: 0 <= k < i ==> data[k] == src.data[k]
    {
      data := data[i := src.data[i]];
      i := i + 1;
    }
    a := a.(data := data);
  }

  /** The move constructor: the new array takes over the source's buffer
      but records its size as its capacity; the source is left empty. */
  function Move<T>(src: DynArray<T>): (r: (DynArray<T>, DynArray<T>))
    requires Valid(src)
    ensures Valid(r.0) && Elements(r.0) == Elements(src) && r.0.capacity == src.size
    ensures r.1 == Empty()
  {
    (DynArray(src.data, src.size, src.size), Empty())
  }

  /** The initializer-list constructor: the listed values, with capacity
      for exactly them. */
  method FromList<T(0)>(lst: seq<T>) returns (a: DynArray<T>)
    ensures Valid(a) && Elements(a) == lst && a.capacity == |lst|
  {
    a := New(|lst|);
    var data := a.data;
    var count := 0;
    while count < |lst|
      invariant 0 <= count <= |lst| == |data|
      invariant data[..count] == lst[..count]
    {
      data := data[count := lst[count]];
      count := count + 1;
    }
    a := a.(data := data);
  }

  /** The pointer constructor: the first sz values the pointer addresses,
      which the caller must provide. */
  method FromPointer<T(0)>(iarray: seq<T>, sz: nat) returns (a: DynArray<T>)
    requires sz <= |iarray|
    ensures Valid(a) && Elements(a) == iarray[..sz] && a.capacity == sz
  {
    a := New(sz);
    var data := a.data;
    var i := 0;
    while i < sz
      invariant 0 <= i <= sz == |data|
      invariant data[..i] == iarray[..i]
    {
      data := data[i := iarray[i]];
      i := i + 1;
    }
    a := a.(data := data);
  }

  /** size(): how many elements the array holds. */
  function Size<T>(a: DynArray<T>): (r: nat)
    requires Valid(a)
    ensures r == |Elements(a)|
  {
    a.size
  }

  /** operator[] read: the element at a position below the size, the only
      positions the source's assertion admits. */
  function At<T>(a: DynArray<T>, index: nat): (r: T)
    requires Valid(a) && index < a.size
    ensures r == Elements(a)[index]
  {
    a.data[index]
  }

  /** operator[] write: storing through the returned reference replaces that
      one element and changes neither the size nor the capacity. */
  function Store<T>(a: DynArray<T>, index: nat, x: T): (r: DynArray<T>)
    requires Valid(a) && index < a.size
    ensures Valid(r) && Elements(r) == Elements(a)[index := x]
    ensures r.size == a.size && r.capacity == a.capacity
  {
    a.(data := a.data[index := x])
  }

  /** ensure_capacity: when the capacity is short of newCapacity, move the
      elements to a fresh buffer of exactly newCapacity cells; otherwise
      leave everything as it is. The elements never change. */
  method EnsureCapacity<T(0)>(a: DynArray<T>, newCapacity: nat) returns (r: DynArray<T>)
    requires Valid(a)
    ensures Valid(r) && Elements(r) == Elements(a)
    ensures r.capacity == if a.capacity < newCapacity then newCapacity else a.capacity
    ensures a.capacity >= newCapacity ==> r == a
  {
    if a.capacity < newCapacity {
      var buffer := New(newCapacity);
      var data := buffer.data;
      var i := 0;
      while i < a.size
        invariant 0 <= i <= a.size <= |data| == newCapacity
        invariant data[..i] == a.data[..i]
      {
        data := data[i := a.data[i]];
        i := i + 1;
      }
      r := DynArray(data, a.size, newCapacity);
    } else {
      r := a;
    }
  }

  /** append of an initializer list: make room for the new size, then write
      the listed values after the current elements. The capacity grows to
      exactly the new size when it has to grow at all. */
  method AppendList<T(0)>(a: DynArray<T>, lst: seq<T>) returns (r: DynArray<T>)
    requires Valid(a)
    ensures Valid(r) && Elements(r) == Elements(a) + lst
    ensures r.capacity == if a.capacity < a.size + |lst| then a.size + |lst| else a.capacity
  {
    var newSize := a.size + |lst|;
    var room := EnsureCapacity(a, newSize);
    var data := room.data;
    var count := a.size;
    while count < newSize
      invariant a.size <= count <= newSize <= room.capacity <= |data|
      invariant forall k :: 0 <= k < a.size ==> data[k] == a.data[k]
      invariant forall k :: a.size <= k < count ==> data[k] == lst[k - a.size]
    {
      data := data[count := lst[count - a.size]];
      count := count + 1;
    }
    assert data[..newSize] == a.data[..a.size] + lst;
    r := DynArray(data, newSize, room.capacity);
  }

  /** append of another array, which the source takes by value: its
      elements, copied, after the current ones. */
  method AppendArray<T(0)>(a: DynArray<T>, other: DynArray<T>) returns (r: DynArray<T>)
    requires Valid(a) && Valid(other)
    ensures Valid(r) && Elements(r) == Elements(a) + Elements(other)
    ensures r.capacity == if a.capacity < a.size + other.size then a.size + other.size else a.capacity
  {
    var copy := CopyOf(other);
    r := AppendList(a, Elements(copy));
  }

  /** append of sz values a pointer addresses, which the caller must
      provide. The values are a sequence of their own, so the pointer is
      taken not to address this array's buffer: the source frees that
      buffer before reading the values when the capacity grows. */
  method AppendPointer<T(0)>(a: DynArray<T>, idata: seq<T>, sz: nat) returns (r: DynArray<T>)
    requires Valid(a) && sz <= |idata|
    ensures Valid(r) && Elements(r) == Elements(a) + idata[..sz]
    ensures r.capacity == if a.capacity < a.size + sz then a.size + sz else a.capacity
  {
    r := AppendList(a, idata[..sz]);
  }

  /** The assertions of test_dyn_array.cpp up to the renaming of the
      fourth name. */
  method Sample() returns (numbers: DynArray<int>, names: DynArray<string>)
    ensures Valid(numbers) && Size(numbers) == 4 && At(numbers, 0) == 1
    ensures Valid(names) && Elements(names) == ["Ramesh", "Kavitha", "Mahesh", "Robert"]
    ensures names.capacity == 4
  {
    numbers := FromList([1, 2, 3, 4]);
    names := FromList(["Ramesh"]);
    names := AppendList(names, ["Kavitha", "Mahesh"]);
    assert Size(names) == 3 && At(names, 2) == "Mahesh";
    names := AppendList(names, ["Tom"]);
    assert Size(names) == 4;
    names := Store(names, 3, "Robert");
  }
}
