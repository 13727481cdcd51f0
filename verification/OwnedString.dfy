/**
`cl::string` of CL/cl.hpp: a size and an owned, NUL-terminated buffer, both replaced in
place.  Memory allocation succeeds.
*/
module OwnedString {

  const NUL: char := '\0'

  /** `memcpy` */
  method CopyChars(src: array<char>, dst: array<char>, n: nat)
    requires n <= src.Length && n <= dst.Length && src != dst
    modifies dst
    ensures dst[..n] == src[..n] && dst[n..] == old(dst[n..])
  {
    for i := 0 to n
      invariant dst[..i] == src[..i] && dst[n..] == old(dst[n..])
    {
      dst[i] := src[i];
    }
  }

  /** `memset` with zero */
  method Zero(dst: array<char>, from: nat, n: nat)
    requires from + n <= dst.Length
    modifies dst
    ensures dst[..from] == old(dst[..from]) && dst[from + n..] == old(dst[from + n..])
    ensures forall i :: from <= i < from + n ==> dst[i] == NUL
  {
    for i := from to from + n
      invariant dst[..from] == old(dst[..from]) && dst[from + n..] == old(dst[from + n..])
      invariant forall j :: from <= j < i ==> dst[j] == NUL
    {
      dst[i] := NUL;
    }
  }

  /** The characters before the first NUL. */
  predicate Terminates(s: seq<char>, n: nat) {
    n < |s| && s[n] == NUL && NUL !in s[..n]
  }

  method StrLen(s: array<char>, ghost n: nat) returns (len: nat)
    requires Terminates(s[..], n)
    ensures len == n
  {
    assert forall i :: 0 <= i < n ==> s[i] == s[..][..n][i];
    len := 0;
    while s[len] != NUL
      invariant len <= n
      decreases n - len
    {
      len := len + 1;
    }
  }

  /** Cut to `n` characters, or filled up with NULs. */
  function Fitted(s: seq<char>, n: nat): (r: seq<char>)
    ensures |r| == n
    ensures forall i :: 0 <= i < n ==> r[i] == if i < |s| then s[i] else NUL
  {
    if n <= |s| then s[..n] else s + seq(n - |s|, _ => NUL)
  }

  /** The text the header promises for a pointer and a size. */
  function Described(s: array?<char>, n: nat): seq<char>
    requires s != null ==> n <= s.Length
    reads s
  {
    if s == null then [] else s[..n]
  }

  /** An input: a null pointer with a size of 1 is read from. */
  method NullWithSize() returns (readsNull: bool)
    ensures readsNull
  {
    var _, bad := String.FromChars(null, 1);
    readsNull := bad;
  }

  class String {
    var size: nat
    var str: array?<char>

    /** No buffer exactly if empty, else one with room for the terminator, which is there. */
    predicate Valid()
      reads this, str
    {
      && (str == null <==> size == 0)
      && (str != null ==> str.Length == size + 1 && str[size] == NUL)
    }

    function Text(): (s: seq<char>)
      requires Valid()
      reads this, str
      ensures |s| == size
    {
      if str == null then [] else str[..size]
    }

    constructor ()
      ensures Valid() && Text() == [] && str == null
    {
      size, str := 0, null;
    }

    /** `n` characters, NULs among them treated like any other, in an own buffer. */
    constructor Copied(s: array<char>, n: nat)
      requires n <= s.Length
      ensures Valid() && Text() == s[..n] && (str == null || fresh(str))
    {
      size, str := n, null;
      new;
      if n > 0 {
        str := new char[n + 1];
        CopyChars(s, str, n);
        str[n] := NUL;
      }
    }

    /**
    `string(str, size)`.  The copy is made whenever the size is positive, so a null pointer
    is then read from and there is no string to speak of; what the header says of it, that
    it is left empty, holds if and only if the pointer is not null or the size is 0.
    */
    static method FromChars(s: array?<char>, n: nat) returns (r: String?, readsNull: bool)
      requires s != null ==> n <= s.Length
      ensures readsNull <==> s == null && n > 0
      ensures r != null ==> fresh(r) && r.Valid() && (r.str == null || fresh(r.str))
      ensures (r != null && r.Text() == Described(s, n)) <==> s != null || n == 0
    {
      if s != null {
        r := new String.Copied(s, n);
        readsNull := false;
      } else if n > 0 {
        r, readsNull := null, true;
      } else {
        r := new String();
        readsNull := false;
      }
    }

    /** From a NUL-terminated text, or null. */
    constructor FromText(s: array?<char>, ghost n: nat)
      requires s != null ==> Terminates(s[..], n)
      ensures Valid() && Text() == (if s == null then [] else s[..n]) && (str == null || fresh(str))
    {
      size, str := 0, null;
      new;
      if s != null {
        size := StrLen(s, n);
      }
      if size > 0 {
        str := new char[size + 1];
        CopyChars(s, str, size + 1);
        assert str[..size + 1][size] == s[..size + 1][size];
        assert str[..size] == str[..size + 1][..size];
      }
    }

    method Resize(n: nat)
      requires Valid()
      modifies this
      ensures Valid() && Text() == Fitted(old(Text()), n)
      ensures str == old(str) || str == null || fresh(str)
    {
      if size == n {
        return;
      }
      if n == 0 {
        str, size := null, 0;
      } else {
        ghost var was := Text();
        var newString := new char[n + 1];
        var copySize := n;
        if size < n {
          copySize := size;
        }
        size := n;
        if str != null {
          CopyChars(str, newString, copySize + 1);
          assert newString[..copySize] == newString[..copySize + 1][..copySize] == was[..copySize];
        }
        assert newString[..copySize] == was[..copySize];
        if copySize < size {
          Zero(newString, copySize, size - copySize);
        }
        newString[size] := NUL;
        assert newString[..n] == Fitted(was, n) by {
          forall i | 0 <= i < n ensures newString[..n][i] == Fitted(was, n)[i] {
            assert i < copySize ==> newString[..copySize][i] == was[..copySize][i];
          }
        }
        str := newString;
      }
    }

    /** Assignment from another string, or from itself. */
    method Assign(rhs: String)
      requires Valid() && rhs.Valid()
      modifies this
      ensures Valid() && Text() == old(rhs.Text())
      ensures this != rhs ==> rhs.Valid() && rhs.Text() == old(rhs.Text()) && (str == null || fresh(str))
    {
      if this == rhs {
        return;
      }
      if str != null {
        str, size := null, 0;
      }
      if rhs.size != 0 && rhs.str != null {
        str := new char[rhs.size + 1];
        size := rhs.size;
        CopyChars(rhs.str, str, size + 1);
        assert str[..size + 1][size] == rhs.str[..size + 1][size];
        assert str[..size] == str[..size + 1][..size] == rhs.str[..size + 1][..size];
      }
    }

    constructor Copy(rhs: String)
      requires rhs.Valid()
      ensures Valid() && Text() == rhs.Text() && (str == null || fresh(str))
    {
      size, str := 0, null;
      new;
      Assign(rhs);
    }
  }
}
