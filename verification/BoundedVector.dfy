/**
`cl::vector` of CL/cl.hpp: a buffer of fixed capacity and a size, changed in place, and
the list it stands for.  Element types are plain values.
*/
module BoundedVector {
  import opened Common

  /** `CL_MEM_OBJECT_ALLOCATION_FAILURE`, which `errHandler` returns when exceptions are off. */
  const CAPACITY_ERR: int := -4

  /** A list that keeps its first `n` items. */
  function Capped<T>(s: seq<T>, n: nat): (r: seq<T>)
    ensures |r| <= n && r <= s && (|r| < n ==> r == s)
  {
    if |s| <= n then s else s[..n]
  }

  /** Capping as items arrive is the same as capping at the end. */
  lemma CappedTwice<T>(s: seq<T>, t: seq<T>, n: nat)
    ensures Capped(Capped(s, n) + t, n) == Capped(s + t, n)
  {
  }

  function Repeat<T>(x: T, n: nat): seq<T> {
    seq(n, _ => x)
  }

  /** `resize` on lists: refused beyond the capacity, else cut or filled. */
  function ResizedTo<T>(s: seq<T>, size: nat, fill: T, n: nat): (r: seq<T>)
    ensures |r| == if size > n then |s| else size
    ensures forall i :: 0 <= i < |r| && i < |s| ==> r[i] == s[i]
    ensures forall i :: |s| <= i < |r| ==> r[i] == fill
  {
    if size > n then s else if size <= |s| then s[..size] else s + Repeat(fill, size - |s|)
  }

  class Vector<T(0)> {
    const data: array<T>
    var size: nat

    predicate Valid()
      reads this
    {
      size <= data.Length
    }

    function Contents(): seq<T>
      requires Valid()
      reads this, data
    {
      data[..size]
    }

    constructor (capacity: nat)
      ensures Valid() && fresh(data) && data.Length == capacity && Contents() == []
    {
      data := new T[capacity];
      size := 0;
    }

    method PushBack(x: T) returns (err: int)
      requires Valid()
      modifies this, data
      ensures Valid() && Contents() == Capped(old(Contents()) + [x], data.Length)
      ensures err == CL_SUCCESS <==> old(size) < data.Length
    {
      if size < data.Length {
        data[size] := x;
        size := size + 1;
        err := CL_SUCCESS;
      } else {
        err := CAPACITY_ERR;
      }
    }

    method PopBack() returns (err: int)
      requires Valid()
      modifies this
      ensures Valid() && Contents() == old(if size == 0 then [] else Contents()[..size - 1])
      ensures err == CL_SUCCESS <==> old(size) != 0
    {
      if size != 0 {
        size := size - 1;
        err := CL_SUCCESS;
      } else {
        err := CAPACITY_ERR;
      }
    }

    method Clear()
      requires Valid()
      modifies this
      ensures Valid() && Contents() == []
    {
      while size != 0
        invariant Valid()
      {
        var _ := PopBack();
      }
    }

    /** `vector(size, val)` */
    constructor Fill(capacity: nat, n: nat, x: T)
      ensures Valid() && fresh(data) && data.Length == capacity
      ensures Contents() == Repeat(x, if n < capacity then n else capacity)
    {
      data := new T[capacity];
      size := 0;
      new;
      for i := 0 to n
        invariant Valid() && size == (if i < capacity then i else capacity) && Contents() == Repeat(x, size)
      {
        var _ := PushBack(x);
      }
    }

    method Resize(newSize: nat, fill: T) returns (err: int)
      requires Valid()
      modifies this, data
      ensures Valid() && Contents() == ResizedTo(old(Contents()), newSize, fill, data.Length)
      ensures err == CL_SUCCESS <==> newSize <= data.Length
    {
      if newSize > data.Length {
        return CAPACITY_ERR;
      }
      ghost var was := Contents();
      while size < newSize
        invariant Valid() && size <= (if newSize < |was| then |was| else newSize)
        invariant |was| <= size && Contents() == was + Repeat(fill, size - |was|)
      {
        data[size] := fill;
        size := size + 1;
      }
      ghost var filled := Contents();
      while size > newSize
        invariant Valid() && newSize <= size <= |filled| && Contents() == filled[..size]
      {
        size := size - 1;
      }
      err := CL_SUCCESS;
    }

    /** `assign` from a range: what fits of it replaces the contents. */
    method Assign(items: seq<T>)
      requires Valid()
      modifies this, data
      ensures Valid() && Contents() == Capped(items, data.Length)
    {
      Clear();
      for i := 0 to |items|
        invariant Valid() && Contents() == Capped(items[..i], data.Length)
      {
        CappedTwice(items[..i], [items[i]], data.Length);
        assert items[..i + 1] == items[..i] + [items[i]];
        var _ := PushBack(items[i]);
      }
      assert items[..|items|] == items;
    }

    /** The positions of `begin()` and `end()`: both -1 for an empty vector. */
    function Position(index: int): int
      reads this
    {
      if size != 0 then index else -1
    }

    /**
    Iteration from `begin()` to `end()`, into another vector as `assign` does it: it ends,
    never reads outside the contents, and appends exactly the contents.
    */
    method AppendTo(target: Vector<T>)
      requires Valid() && target.Valid() && target != this && target.data != data
      modifies target, target.data
      ensures target.Valid() && target.Contents() == Capped(old(target.Contents()) + Contents(), target.data.Length)
    {
      var start, end := Position(0), Position(size);
      ghost var k := 0;
      assert Contents()[..0] == [] && old(target.Contents()) + [] == old(target.Contents());
      while start != end
        invariant target.Valid() && 0 <= k <= size && start == Position(k)
        invariant target.Contents() == Capped(old(target.Contents()) + Contents()[..k], target.data.Length)
        invariant Contents() == old(Contents())
        decreases size - k
      {
        CappedTwice(old(target.Contents()) + Contents()[..k], [data[start]], target.data.Length);
        assert Contents()[..k + 1] == Contents()[..k] + [data[start]];
        assert old(target.Contents()) + Contents()[..k + 1] == old(target.Contents()) + Contents()[..k] + [data[start]];
        var _ := target.PushBack(data[start]);
        start := start + 1;
        k := k + 1;
      }
      assert Contents()[..size] == Contents();
    }

    /** Copying from another vector of the same capacity, itself included. */
    method CopyFrom(rhs: Vector<T>)
      requires Valid() && rhs.Valid() && rhs.data.Length == data.Length && (rhs == this <==> rhs.data == data)
      modifies this, data
      ensures Valid() && Contents() == old(rhs.Contents())
    {
      if this == rhs {
        return;
      }
      Clear();
      if rhs.size != 0 {
        rhs.AppendTo(this);
        assert [] + rhs.Contents() == rhs.Contents();
      }
    }

    /** The constant `back()`. */
    method Back() returns (x: T)
      requires Valid() && size != 0
      ensures x == Contents()[size - 1]
    {
      x := data[size - 1];
    }
  }

  method Equal<T(0, ==)>(v: Vector<T>, w: Vector<T>) returns (same: bool)
    requires v.Valid() && w.Valid()
    ensures same <==> v.Contents() == w.Contents()
  {
    if v.size != w.size {
      return false;
    }
    for i := 0 to v.size
      invariant v.Contents()[..i] == w.Contents()[..i]
    {
      if v.data[i] != w.data[i] {
        assert v.Contents()[i] != w.Contents()[i];
        return false;
      }
    }
    assert v.Contents()[..v.size] == v.Contents() && w.Contents()[..v.size] == w.Contents();
    return true;
  }
}
