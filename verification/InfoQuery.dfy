/**
`getInfoHelper` for vectors of reference-counted objects.  CL/cl.hpp overwrites the
caller's vector with the returned handles and only then retains them; CL/cl2.hpp
retains each handle before it lets go of the slot it replaces.

A vector is the sequence of the handles in its slots, and owns one reference of each.
*/
module InfoQuery {
  import opened Common
  import opened MapSums
  import opened Ownership

  /** What the two runtime queries, for the size and for the handles, came to. */
  datatype Reply = Failed(err: int) | Got(value: seq<Handle>)

  predicate Counts(h: Handle, counted: Handle -> bool) {
    h != NULL && counted(h)
  }

  /** How many slots hold `h`. */
  function Occ(v: seq<Handle>, h: Handle): nat {
    if v == [] then 0 else Occ(v[..|v| - 1], h) + (if v[|v| - 1] == h then 1 else 0)
  }

  /** Every slot of the vector owns a reference of its handle. */
  ghost predicate Owns(v: seq<Handle>, count: map<Handle, int>, counted: Handle -> bool) {
    forall h :: Counts(h, counted) ==> At(count, h) >= Occ(v, h)
  }

  /** The references of `h` that slots of the vector do not own. */
  ghost function Others(v: seq<Handle>, count: map<Handle, int>, h: Handle): int {
    At(count, h) - Occ(v, h)
  }

  lemma OneMore(v: seq<Handle>, i: nat, h: Handle)
    requires i < |v|
    ensures Occ(v[..i + 1], h) == Occ(v[..i], h) + (if v[i] == h then 1 else 0)
  {
    assert v[..i + 1][..i] == v[..i];
  }

  lemma {:induction false} Split(v: seq<Handle>, i: nat, h: Handle)
    requires i <= |v|
    ensures Occ(v, h) == Occ(v[..i], h) + Occ(v[i..], h)
    decreases |v|
  {
    if i == |v| {
      assert v[..i] == v && v[i..] == [];
    } else {
      var w := v[..|v| - 1];
      Split(w, i, h);
      assert w[..i] == v[..i] && v[i..][..|v| - 1 - i] == w[i..];
    }
  }

  lemma {:induction false} OccWhere(v: seq<Handle>, h: Handle)
    ensures Occ(v, h) >= 1 <==> h in v
  {
    if v == [] {
    } else {
      OccWhere(v[..|v| - 1], h);
      assert v == v[..|v| - 1] + [v[|v| - 1]];
    }
  }

  /** `count'` is `count` with `d` added for each of the first `k` slots. */
  ghost predicate Tally(count: map<Handle, int>, count': map<Handle, int>, v: seq<Handle>, k: nat, d: int,
                        counted: Handle -> bool)
    requires k <= |v|
  {
    forall h {:trigger At(count', h)} :: Counts(h, counted) ==> At(count', h) == At(count, h) + d * Occ(v[..k], h)
  }

  function Next(count: map<Handle, int>, h: Handle, d: int, counted: Handle -> bool): map<Handle, int> {
    if Counts(h, counted) then Bump(count, h, d) else count
  }

  lemma TallyNone(count: map<Handle, int>, v: seq<Handle>, d: int, counted: Handle -> bool)
    ensures Tally(count, count, v, 0, d, counted)
  {
    forall h ensures d * Occ(v[..0], h) == 0 {
      assert Occ(v[..0], h) == 0;
    }
  }

  lemma TallyStep(count: map<Handle, int>, count': map<Handle, int>, v: seq<Handle>, k: nat, d: int,
                  counted: Handle -> bool)
    requires k < |v| && Tally(count, count', v, k, d, counted)
    ensures Tally(count, Next(count', v[k], d, counted), v, k + 1, d, counted)
  {
    forall h | Counts(h, counted)
      ensures At(Next(count', v[k], d, counted), h) == At(count, h) + d * Occ(v[..k + 1], h)
    {
      OneMore(v, k, h);
      var n, one := Occ(v[..k], h), if v[k] == h then 1 else 0;
      assert d * (n + one) == d * n + d * one;
      assert At(count', h) == At(count, h) + d * n;
    }
  }

  /** The runtime is not asked about null or about handles it does not count. */
  ghost predicate Aside(count: map<Handle, int>, count': map<Handle, int>, counted: Handle -> bool) {
    forall h {:trigger At(count', h)} :: h == NULL || !counted(h) ==> At(count', h) == At(count, h)
  }

  lemma AsideStep(count: map<Handle, int>, count': map<Handle, int>, h: Handle, d: int, counted: Handle -> bool)
    requires Aside(count, count', counted)
    ensures Aside(count, Next(count', h, d, counted), counted)
  {
    forall g | g == NULL || !counted(g)
      ensures At(Next(count', h, d, counted), g) == At(count, g)
    {
      assert At(count', g) == At(count, g);
    }
  }

  /** One reference less for every slot, as when the slots are overwritten or destroyed. */
  method ReleaseAll(v: seq<Handle>, count: map<Handle, int>, counted: Handle -> bool)
    returns (count': map<Handle, int>)
    requires Owns(v, count, counted)
    ensures forall h {:trigger At(count', h)} :: Counts(h, counted) ==> At(count', h) == Others(v, count, h)
    ensures Aside(count, count', counted)
  {
    TallyNone(count, v, -1, counted);
    count' := count;
    for i := 0 to |v|
      invariant Tally(count, count', v, i, -1, counted) && Aside(count, count', counted)
    {
      TallyStep(count, count', v, i, -1, counted);
      AsideStep(count, count', v[i], -1, counted);
      if Counts(v[i], counted) {
        count' := Bump(count', v[i], -1);
      }
    }
    assert v[..|v|] == v;
  }

  // ------------------------------------------------- CL/cl.hpp: assign, then retain

  /** The first `k` handles each have a reference in `count`. */
  ghost predicate AllHeld(count: map<Handle, int>, v: seq<Handle>, k: nat, counted: Handle -> bool)
    requires k <= |v|
  {
    forall i :: 0 <= i < k && Counts(v[i], counted) ==> At(count, v[i]) >= 1
  }

  /** The next retain is safe too exactly if its handle was held to begin with: one seen before has been retained since. */
  lemma HeldStep(count: map<Handle, int>, count': map<Handle, int>, v: seq<Handle>, k: nat, counted: Handle -> bool)
    requires k < |v| && Tally(count, count', v, k, 1, counted)
    ensures AllHeld(count, v, k + 1, counted)
       <==> AllHeld(count, v, k, counted) && (Counts(v[k], counted) ==> At(count', v[k]) >= 1)
  {
    var h := v[k];
    if Counts(h, counted) {
      assert At(count', h) == At(count, h) + Occ(v[..k], h);
      OccWhere(v[..k], h);
      if Occ(v[..k], h) >= 1 {
        var j :| 0 <= j < k && v[..k][j] == h;
        assert v[j] == h;
      }
    }
  }

  /** The loop over the new slots: up to the end, or to the first retain that fails. */
  method RetainEach(v: seq<Handle>, rest: map<Handle, int>, counted: Handle -> bool, fails: nat -> int)
    returns (err: int, count: map<Handle, int>, asked: nat, safe: bool)
    ensures asked <= |v| && Tally(rest, count, v, asked, 1, counted) && Aside(rest, count, counted)
    ensures if asked == |v| then err == CL_SUCCESS else err == fails(asked) != CL_SUCCESS && Counts(v[asked], counted)
    ensures forall i :: 0 <= i < asked && Counts(v[i], counted) ==> fails(i) == CL_SUCCESS
    ensures safe <==> AllHeld(rest, v, if asked == |v| then asked else asked + 1, counted)
  {
    TallyNone(rest, v, 1, counted);
    count, err, asked, safe := rest, CL_SUCCESS, 0, true;
    while asked < |v|
      invariant asked <= |v| && err == CL_SUCCESS
      invariant forall i :: 0 <= i < asked && Counts(v[i], counted) ==> fails(i) == CL_SUCCESS
      invariant Tally(rest, count, v, asked, 1, counted) && Aside(rest, count, counted)
      invariant safe <==> AllHeld(rest, v, asked, counted)
    {
      TallyStep(rest, count, v, asked, 1, counted);
      AsideStep(rest, count, v[asked], 1, counted);
      HeldStep(rest, count, v, asked, counted);
      if Counts(v[asked], counted) {
        safe := safe && At(count, v[asked]) >= 1;
        err := fails(asked);
        if err != CL_SUCCESS {
          return;
        }
        count := Bump(count, v[asked], 1);
      }
      asked := asked + 1;
    }
  }

  /** Every handle the loop asked for has a reference that none of the old slots owns. */
  ghost predicate HeldOutside(param: seq<Handle>, count: map<Handle, int>, v: seq<Handle>, asked: nat, counted: Handle -> bool) {
    forall i :: 0 <= i < |v| && i <= asked && Counts(v[i], counted) ==> Others(param, count, v[i]) >= 1
  }

  /** What a caller can look at: every handle in the answer has a reference that the vector does not own. */
  ghost predicate SafeToAssign(param: seq<Handle>, value: seq<Handle>, count: map<Handle, int>, counted: Handle -> bool) {
    forall h :: h in value && Counts(h, counted) ==> Others(param, count, h) >= 1
  }

  /**
  The references outside the vector are the same before and after, but for an early
  return: then the slots from the failed retain on own nothing.  `safe` says that no
  retain was asked of a freed handle; that is so exactly if every handle retained had a
  reference besides the vector's old slots.
  */
  method AssignThenRetain(reply: Reply, param: seq<Handle>, count: map<Handle, int>,
                          counted: Handle -> bool, fails: nat -> int)
    returns (err: int, v: seq<Handle>, count': map<Handle, int>, asked: nat, safe: bool)
    requires Owns(param, count, counted)
    ensures reply.Failed? ==> err == reply.err && v == param && count' == count && safe
    ensures Aside(count, count', counted)
    ensures reply.Got? ==>
              && v == reply.value && asked <= |v|
              && (asked == |v| ==> err == CL_SUCCESS)
              && (asked < |v| ==> err == fails(asked) != CL_SUCCESS && Counts(v[asked], counted))
              && (forall i :: 0 <= i < asked && Counts(v[i], counted) ==> fails(i) == CL_SUCCESS)
              && (forall h {:trigger At(count', h)} :: Counts(h, counted) ==>
                   Others(v, count', h) == Others(param, count, h) - Occ(v[asked..], h))
              && (safe <==> HeldOutside(param, count, v, asked, counted))
    ensures reply.Got? && (forall i :: 0 <= i < |reply.value| && Counts(reply.value[i], counted) ==> fails(i) == CL_SUCCESS) ==>
              err == CL_SUCCESS && asked == |v| && (safe <==> SafeToAssign(param, reply.value, count, counted))
  {
    if reply.Failed? {
      return reply.err, param, count, 0, true;
    }
    v := reply.value;
    var rest := ReleaseAll(param, count, counted);
    err, count', asked, safe := RetainEach(v, rest, counted, fails);
    forall h | Counts(h, counted)
      ensures Others(v, count', h) == Others(param, count, h) - Occ(v[asked..], h)
    {
      Split(v, asked, h);
      assert At(rest, h) == Others(param, count, h);
    }
    assert AllHeld(rest, v, if asked == |v| then asked else asked + 1, counted)
      <==> HeldOutside(param, count, v, asked, counted);
  }

  // ------------------------------------------------ CL/cl2.hpp: retain, then replace

  /** `resize`: what it cuts off, and what it leaves, padded with empty wrappers. */
  function CutOff(v: seq<Handle>, n: nat): seq<Handle> {
    if n < |v| then v[n..] else []
  }

  function Resized(v: seq<Handle>, n: nat): (r: seq<Handle>)
    ensures |r| == n
  {
    if n < |v| then v[..n] else v + seq(n - |v|, _ => NULL)
  }

  lemma ResizedKeeps(v: seq<Handle>, n: nat, h: Handle)
    requires h != NULL
    ensures Occ(v, h) == Occ(Resized(v, n), h) + Occ(CutOff(v, n), h)
  {
    if n < |v| {
      Split(v, n, h);
    } else {
      var r := Resized(v, n);
      Split(r, |v|, h);
      assert r[..|v|] == v;
      OccWhere(r[|v|..], h);
    }
  }

  /** When slot `i` is due, its new handle still has a reference. */
  ghost predicate Kept(param: seq<Handle>, value: seq<Handle>, count: map<Handle, int>, counted: Handle -> bool, i: nat)
    requires i < |value|
  {
    var h := value[i];
    Counts(h, counted) ==>
      At(count, h) - Occ(CutOff(param, |value|), h)
        - Occ(Resized(param, |value|)[..i], h) + Occ(value[..i], h) >= 1
  }

  /** `count'` is `count` with the first `i` new handles retained and the first `i` old ones released. */
  ghost predicate Swapped(count: map<Handle, int>, count': map<Handle, int>, was: seq<Handle>, value: seq<Handle>, i: nat,
                          counted: Handle -> bool)
    requires i <= |was| == |value|
  {
    forall h {:trigger At(count', h)} :: Counts(h, counted) ==>
      At(count', h) == At(count, h) + Occ(value[..i], h) - Occ(was[..i], h)
  }

  lemma SwapStep(count: map<Handle, int>, count': map<Handle, int>, was: seq<Handle>, value: seq<Handle>, i: nat,
                 counted: Handle -> bool)
    requires i < |was| == |value| && Swapped(count, count', was, value, i, counted)
    requires forall h :: Counts(h, counted) ==> At(count, h) >= Occ(was, h)
    ensures Swapped(count, Next(Next(count', value[i], 1, counted), was[i], -1, counted), was, value, i + 1, counted)
    ensures Counts(was[i], counted) ==> At(Next(count', value[i], 1, counted), was[i]) >= 1
  {
    var c := Next(count', value[i], 1, counted);
    forall h | Counts(h, counted)
      ensures At(Next(c, was[i], -1, counted), h) == At(count, h) + Occ(value[..i + 1], h) - Occ(was[..i + 1], h)
    {
      OneMore(value, i, h);
      OneMore(was, i, h);
      assert At(count', h) == At(count, h) + Occ(value[..i], h) - Occ(was[..i], h);
    }
    var g := was[i];
    OneMore(was, i, g);
    Split(was, i + 1, g);
    assert Counts(g, counted) ==> At(count', g) == At(count, g) + Occ(value[..i], g) - Occ(was[..i], g);
  }

  /** Whether the retain for slot `i` finds its handle alive. */
  ghost predicate Due(base: map<Handle, int>, was: seq<Handle>, value: seq<Handle>, counted: Handle -> bool, i: nat)
    requires i < |was| == |value|
  {
    Counts(value[i], counted) ==>
      At(base, value[i]) + Occ(value[..i], value[i]) - Occ(was[..i], value[i]) >= 1
  }

  /** The loop over the slots. */
  method ReplaceEach(was: seq<Handle>, value: seq<Handle>, base: map<Handle, int>, counted: Handle -> bool)
    returns (v: seq<Handle>, count: map<Handle, int>, safe: bool)
    requires |was| == |value| && Owns(was, base, counted)
    ensures v == value && Swapped(base, count, was, value, |value|, counted) && Aside(base, count, counted)
    ensures safe <==> forall i :: 0 <= i < |value| ==> Due(base, was, value, counted, i)
  {
    assert was[..0] == [] && value[..0] == [];
    v, count, safe := was, base, true;
    for i := 0 to |value|
      invariant |v| == |value| && v[..i] == value[..i] && v[i..] == was[i..]
      invariant Swapped(base, count, was, value, i, counted) && Aside(base, count, counted)
      invariant safe <==> forall j :: 0 <= j < i ==> Due(base, was, value, counted, j)
    {
      SwapStep(base, count, was, value, i, counted);
      AsideStep(base, count, value[i], 1, counted);
      AsideStep(base, Next(count, value[i], 1, counted), was[i], -1, counted);
      assert v[i] == was[i];
      if Counts(value[i], counted) {
        assert At(count, value[i]) >= 1 <==> Due(base, was, value, counted, i);
        safe := safe && At(count, value[i]) >= 1;
        count := Bump(count, value[i], 1);
      }
      if Counts(v[i], counted) {
        assert At(count, v[i]) >= 1;
        count := Bump(count, v[i], -1);
      }
      v := v[i := value[i]];
    }
  }

  /**
  The references outside the vector are the same before and after.  No retain is asked
  of a freed handle exactly if every new handle is kept until its slot is due; no
  release ever is.
  */
  method RetainThenReplace(reply: Reply, param: seq<Handle>, count: map<Handle, int>, counted: Handle -> bool)
    returns (err: int, v: seq<Handle>, count': map<Handle, int>, safe: bool)
    requires Owns(param, count, counted)
    ensures reply.Failed? ==> err == reply.err && v == param && count' == count && safe
    ensures Aside(count, count', counted)
    ensures reply.Got? ==>
              && err == CL_SUCCESS && v == reply.value
              && (forall h {:trigger At(count', h)} :: Counts(h, counted) ==>
                   Others(v, count', h) == Others(param, count, h))
              && (safe <==> forall i :: 0 <= i < |v| ==> Kept(param, v, count, counted, i))
  {
    if reply.Failed? {
      return reply.err, param, count, true;
    }
    var value := reply.value;
    var was := Resized(param, |value|);
    forall h | Counts(h, counted)
      ensures At(count, h) - Occ(CutOff(param, |value|), h) >= Occ(was, h)
    {
      ResizedKeeps(param, |value|, h);
    }
    var base := ReleaseAll(CutOff(param, |value|), count, counted);
    v, count', safe := ReplaceEach(was, value, base, counted);
    assert was[..|was|] == was && value[..|value|] == value;
    forall h | Counts(h, counted) ensures Others(v, count', h) == Others(param, count, h) {
      ResizedKeeps(param, |value|, h);
      assert At(base, h) == Others(CutOff(param, |value|), count, h);
    }
    forall i | 0 <= i < |value|
      ensures Due(base, was, value, counted, i) <==> Kept(param, value, count, counted, i)
    {
      assert Counts(value[i], counted) ==> At(base, value[i]) == Others(CutOff(param, |value|), count, value[i]);
    }
    err := CL_SUCCESS;
  }

  /** Whenever assigning first is safe, so is retaining first. */
  lemma RetainFirstIsSafer(param: seq<Handle>, value: seq<Handle>, count: map<Handle, int>, counted: Handle -> bool, i: nat)
    requires i < |value| && (Counts(value[i], counted) ==> Others(param, count, value[i]) >= 1)
    ensures Kept(param, value, count, counted, i)
  {
    if value[i] != NULL {
      ResizedKeeps(param, |value|, value[i]);
      Split(Resized(param, |value|), i, value[i]);
    }
  }

  /** When the answer is what the vector already holds it is safe even with no reference outside the vector, where assigning first is not. */
  lemma AskingAgainIsSafe(param: seq<Handle>, count: map<Handle, int>, counted: Handle -> bool, i: nat)
    requires i < |param| && Owns(param, count, counted)
    ensures Kept(param, param, count, counted, i)
  {
    var h := param[i];
    OccWhere(param, h);
    assert Resized(param, |param|) == param;
    assert Counts(h, counted) ==> At(count, h) >= Occ(param, h);
  }

  /** One handle, of which the vector holds the only reference, and which is the answer: assigning first frees it. */
  lemma LastReferenceIsFreed(h: Handle, counted: Handle -> bool)
    requires Counts(h, counted)
    ensures Owns([h], map[h := 1], counted) && !SafeToAssign([h], [h], map[h := 1], counted)
    ensures Kept([h], [h], map[h := 1], counted, 0)
  {
    forall g ensures Occ([h], g) == if g == h then 1 else 0 { assert [h][..0] == []; }
    assert h in [h];
    AskingAgainIsSafe([h], map[h := 1], counted, 0);
  }

  /** The two loops agree: where no retain fails, they leave the same vector, the same status and the same counts. */
  method BothLoops(reply: Reply, param: seq<Handle>, count: map<Handle, int>, counted: Handle -> bool)
    returns (err1: int, err2: int, v1: seq<Handle>, v2: seq<Handle>,
             count1: map<Handle, int>, count2: map<Handle, int>, safe1: bool, safe2: bool)
    requires Owns(param, count, counted)
    ensures err1 == err2 && v1 == v2
    ensures forall h :: Counts(h, counted) ==> At(count1, h) == At(count2, h)
    ensures safe1 ==> safe2
  {
    var asked;
    err1, v1, count1, asked, safe1 := AssignThenRetain(reply, param, count, counted, _ => CL_SUCCESS);
    err2, v2, count2, safe2 := RetainThenReplace(reply, param, count, counted);
    if reply.Got? {
      forall h | Counts(h, counted)
        ensures At(count1, h) == At(count2, h)
      {
        assert v1[asked..] == [];
        assert Others(v1, count1, h) == Others(param, count, h) == Others(v2, count2, h);
      }
      if safe1 {
        forall i | 0 <= i < |v2|
          ensures Kept(param, v2, count, counted, i)
        {
          assert v2[i] in reply.value;
          RetainFirstIsSafer(param, v2, count, counted, i);
        }
      }
    }
  }
}
