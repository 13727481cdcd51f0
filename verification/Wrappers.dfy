/**
The wrapper objects of CL/cl.hpp and CL/cl2.hpp: a handle and a flag, updated in
place by copies, moves, assignments and destruction, each proved against the acts
that `Ownership` gives for it.
*/
module Wrappers {
  import opened Common
  import opened Ownership
  import opened MapSums

  /** The OpenCL runtime, as far as reference counts go, and the wrappers alive in it. */
  class Runtime {
    const counted: Handle -> bool
    var count: map<Handle, int>
    ghost var live: set<Wrapper>
    ghost var outside: map<Handle, int>
    ghost var taken: map<Handle, int>
    ghost var given: map<Handle, int>

    constructor (counted: Handle -> bool)
      ensures this.counted == counted && live == {} && count == map[]
      ensures Balanced(View(), counted)
    {
      this.counted := counted;
      count, live, outside, taken, given := map[], {}, map[], map[], map[];
      new;
      forall h ensures Exact(View(), h) {
        assert Holding(View(), h) == map[];
      }
    }

    ghost function View(): Books<Wrapper>
      reads this, live
    {
      Books(map w | w in live :: Cell(w.handle, w.countable), count, outside, taken, given)
    }

    /** `clRetain...` on a handle that is not freed. */
    method Retain(h: Handle)
      requires At(count, h) >= 1
      modifies this`count, this`taken
      ensures View() == Do(old(View()), Act.Retain(h))
    {
      count := Bump(count, h, 1);
      taken := Bump(taken, h, 1);
    }

    /** `clRelease...` on a handle that is not freed. */
    method Release(h: Handle)
      requires At(count, h) >= 1
      modifies this`count, this`given
      ensures View() == Do(old(View()), Act.Release(h))
    {
      count := Bump(count, h, -1);
      given := Bump(given, h, 1);
    }

    /** A call that creates an object, or retains one for the program: a reference held outside the wrappers. */
    method Obtain(h: Handle)
      requires Balanced(View(), counted)
      modifies this`count, this`outside
      ensures View() == After(old(View()), Op.Obtain(h), counted)
      ensures Balanced(View(), counted)
    {
      OutsideStep(View(), Op<Wrapper>.Obtain(h), counted);
      OpKeepsBalance(View(), Op<Wrapper>.Obtain(h), counted);
      count := Bump(count, h, 1);
      outside := Bump(outside, h, 1);
    }

    /** The program releases a reference it holds itself. */
    method Discard(h: Handle)
      requires Balanced(View(), counted) && (h != NULL && counted(h) ==> At(outside, h) >= 1)
      modifies this`count, this`outside
      ensures View() == After(old(View()), Op.Discard(h), counted)
      ensures Balanced(View(), counted)
    {
      OutsideStep(View(), Op<Wrapper>.Discard(h), counted);
      OpKeepsBalance(View(), Op<Wrapper>.Discard(h), counted);
      count := Bump(count, h, -1);
      outside := Bump(outside, h, -1);
    }

    /** A new wrapper, its fields set. */
    ghost method Enter(w: Wrapper)
      requires w !in live
      modifies this`live
      ensures live == old(live) + {w}
      ensures View() == Do(old(View()), Put(w, Cell(w.handle, w.countable)))
    {
      live := live + {w};
      assert View().holds == old(View()).holds[w := Cell(w.handle, w.countable)];
    }

    ghost method Leave(w: Wrapper)
      modifies this`live
      ensures live == old(live) - {w}
      ensures View() == Do(old(View()), Remove(w))
    {
      live := live - {w};
      assert View().holds == old(View()).holds - {w};
    }

    /** A reference the caller held belongs to a wrapper from now on; no runtime call is made. */
    ghost method TakeOver(h: Handle)
      modifies this`outside, this`taken
      ensures View() == HandOver(old(View()), h)
    {
      if h != NULL {
        outside := Bump(outside, h, -1);
        taken := Bump(taken, h, 1);
      }
    }
  }

  /** The stages of an assignment. */
  lemma AssigningStages<N>(b: Books<N>, op: Op<N>, counted: Handle -> bool)
    requires (op.CopyAssign? || op.MoveAssign? || op.RawAssign?) && !SelfAssign(op) && op.n in b.holds
    ensures var c := NewCell(b, op, counted);
            var w := Do(Maybe(b, ReleaseIf(b.holds[op.n])), Put(op.n, c));
            && w == Written(b, op, counted) && op.n in w.holds && w.holds[op.n] == c
            && (op.CopyAssign? ==> After(b, op, counted) == Maybe(w, RetainIf(c)))
            && (op.MoveAssign? ==> After(b, op, counted) == Do(w, Put(op.from, EMPTY)))
            && (op.RawAssign? ==> After(b, op, counted) == HandOver(w, TakesOver(op, counted)))
  {
    Stages(b, op, counted);
    assert Releases(b, op) == ReleaseIf(b.holds[op.n]);
  }

  /** And what each may count on; assignment to itself does nothing. */
  lemma Assigning<N>(b: Books<N>, op: Op<N>, counted: Handle -> bool)
    requires Balanced(b, counted) && Allowed(b, op, counted)
    requires op.CopyAssign? || op.MoveAssign? || op.RawAssign?
    ensures Alive(b, op.n) && Balanced(After(b, op, counted), counted)
    ensures SelfAssign(op) ==> After(b, op, counted) == b
    ensures !SelfAssign(op) ==>
              var c := NewCell(b, op, counted);
              var w := Do(Maybe(b, ReleaseIf(b.holds[op.n])), Put(op.n, c));
              && op.n in w.holds && w.holds[op.n] == c && Alive(w, op.n)
              && (op.CopyAssign? ==> After(b, op, counted) == Maybe(w, RetainIf(c)))
              && (op.MoveAssign? ==> After(b, op, counted) == Do(w, Put(op.from, EMPTY)))
              && (op.RawAssign? ==> After(b, op, counted) == HandOver(w, TakesOver(op, counted)))
  {
    OpKeepsBalance(b, op, counted);
    BalancedIsAlive(b, counted, op.n);
    if !SelfAssign(op) {
      AssigningStages(b, op, counted);
      AliveAfterWrite(b, op, counted, op.n);
    }
  }

  /** The stages of a constructor. */
  lemma CreatingStages<N>(b: Books<N>, op: Op<N>, counted: Handle -> bool)
    requires op.Default? || op.Adopt? || op.Copy? || op.Move?
    ensures var c := NewCell(b, op, counted);
            var w := Do(b, Put(op.n, c));
            && w == Written(b, op, counted)
            && (op.Default? ==> After(b, op, counted) == w)
            && (op.Adopt? && !op.retain ==> After(b, op, counted) == HandOver(w, TakesOver(op, counted)))
            && (op.Copy? || (op.Adopt? && op.retain) ==> After(b, op, counted) == Maybe(w, RetainIf(c)))
            && (op.Move? ==> After(b, op, counted) == Do(w, Put(op.from, EMPTY)))
  {
    Stages(b, op, counted);
    assert Releases(b, op) == [];
  }

  /** And what each may count on. */
  lemma Creating<N>(b: Books<N>, op: Op<N>, counted: Handle -> bool)
    requires Balanced(b, counted) && Allowed(b, op, counted)
    requires op.Default? || op.Adopt? || op.Copy? || op.Move?
    ensures Balanced(After(b, op, counted), counted)
    ensures var c := NewCell(b, op, counted);
            var w := Do(b, Put(op.n, c));
            && (w.holds[op.n] == c && Alive(w, op.n))
            && (op.Default? ==> After(b, op, counted) == w)
            && (op.Adopt? && !op.retain ==> After(b, op, counted) == HandOver(w, TakesOver(op, counted)))
            && (op.Copy? || (op.Adopt? && op.retain) ==> After(b, op, counted) == Maybe(w, RetainIf(c)))
            && (op.Move? ==> After(b, op, counted) == Do(w, Put(op.from, EMPTY)))
  {
    OpKeepsBalance(b, op, counted);
    CreatingStages(b, op, counted);
    AliveAfterWrite(b, op, counted, op.n);
  }

  /** The stages of the destructor. */
  lemma Destroying<N>(b: Books<N>, n: N, counted: Handle -> bool)
    requires Balanced(b, counted) && n in b.holds
    ensures Alive(b, n) && Balanced(After(b, Op.Destroy(n), counted), counted)
    ensures After(b, Op.Destroy(n), counted) == Do(Maybe(b, ReleaseIf(b.holds[n])), Remove(n))
  {
    OpKeepsBalance(b, Op.Destroy(n), counted);
    Stages(b, Op.Destroy(n), counted);
    BalancedIsAlive(b, counted, n);
  }

  class Wrapper {
    var handle: Handle
    var countable: bool

    /** `Wrapper()`: holds nothing. */
    constructor Default(rt: Runtime)
      requires Balanced(rt.View(), rt.counted)
      modifies rt`live
      ensures fresh(this) && rt.live == old(rt.live) + {this}
      ensures rt.View() == After(old(rt.View()), Op.Default(this), rt.counted)
      ensures handle == NULL && !countable
      ensures Balanced(rt.View(), rt.counted)
    {
      handle, countable := NULL, false;
      new;
      Creating(rt.View(), Op.Default(this), rt.counted);
      rt.Enter(this);
    }

    /** `Wrapper(obj)` and `Wrapper(obj, retainObject)`: takes over the caller's reference, or adds one. */
    constructor Adopt(rt: Runtime, h: Handle, retainObject: bool)
      requires Balanced(rt.View(), rt.counted)
      requires h != NULL && rt.counted(h) ==> At(if retainObject then rt.count else rt.outside, h) >= 1
      modifies rt
      ensures fresh(this) && rt.live == old(rt.live) + {this}
      ensures rt.View() == After(old(rt.View()), Op.Adopt(this, h, retainObject), rt.counted)
      ensures handle == h && countable == rt.counted(h)
      ensures Balanced(rt.View(), rt.counted)
    {
      handle, countable := h, rt.counted(h);
      new;
      Creating(rt.View(), Op.Adopt(this, h, retainObject), rt.counted);
      rt.Enter(this);
      if retainObject {
        RetainHandle(rt);
      } else {
        rt.TakeOver(if rt.counted(h) then h else NULL);
      }
    }

    /** Copying: the flag is computed anew and the handle retained. */
    constructor Copy(rt: Runtime, rhs: Wrapper)
      requires Balanced(rt.View(), rt.counted) && rhs in rt.live
      modifies rt
      ensures fresh(this) && rt.live == old(rt.live) + {this}
      ensures rt.View() == After(old(rt.View()), Op.Copy(this, rhs), rt.counted)
      ensures handle == rhs.handle == old(rhs.handle) && rhs.countable == old(rhs.countable)
      ensures Balanced(rt.View(), rt.counted)
    {
      handle, countable := rhs.handle, rt.counted(rhs.handle);
      new;
      Creating(rt.View(), Op.Copy(this, rhs), rt.counted);
      rt.Enter(this);
      RetainHandle(rt);
    }

    /** Moving: the fields change hands and the source is left empty. */
    constructor Move(rt: Runtime, rhs: Wrapper)
      requires Balanced(rt.View(), rt.counted) && rhs in rt.live
      modifies rt`live, rhs
      ensures fresh(this) && rt.live == old(rt.live) + {this}
      ensures rt.View() == After(old(rt.View()), Op.Move(this, rhs), rt.counted)
      ensures handle == old(rhs.handle) && countable == old(rhs.countable) && rhs.handle == NULL && !rhs.countable
      ensures Balanced(rt.View(), rt.counted)
    {
      handle, countable := rhs.handle, rhs.countable;
      new;
      Creating(rt.View(), Op.Move(this, rhs), rt.counted);
      rt.Enter(this);
      rhs.Set(rt, NULL, false);
    }

    /** `retain()`, with the null test its callers or it make. */
    method RetainHandle(rt: Runtime)
      requires handle != NULL && countable ==> At(rt.count, handle) >= 1
      modifies rt`count, rt`taken
      ensures rt.View() == Maybe(old(rt.View()), RetainIf(Cell(handle, countable)))
    {
      if handle != NULL && countable {
        rt.Retain(handle);
      }
    }

    /** `release()`, likewise. */
    method ReleaseHandle(rt: Runtime)
      requires handle != NULL && countable ==> At(rt.count, handle) >= 1
      modifies rt`count, rt`given
      ensures rt.View() == Maybe(old(rt.View()), ReleaseIf(Cell(handle, countable)))
    {
      if handle != NULL && countable {
        rt.Release(handle);
      }
    }

    /** A write to both fields. */
    method Set(rt: Runtime, h: Handle, flag: bool)
      requires this in rt.live
      modifies this
      ensures rt.View() == Do(old(rt.View()), Put(this, Cell(h, flag))) && handle == h && countable == flag
    {
      handle, countable := h, flag;
      assert rt.View().holds == old(rt.View()).holds[this := Cell(h, flag)];
    }

    /** Copy assignment: release, overwrite, retain; nothing if both are the same object. */
    method CopyAssign(rt: Runtime, rhs: Wrapper)
      requires Balanced(rt.View(), rt.counted) && this in rt.live && rhs in rt.live
      modifies rt`count, rt`taken, rt`given, this
      ensures rt.View() == After(old(rt.View()), Op.CopyAssign(this, rhs), rt.counted)
      ensures handle == old(rhs.handle) && rhs.handle == old(rhs.handle) && rhs.countable == old(rhs.countable)
      ensures Balanced(rt.View(), rt.counted)
    {
      ghost var b, op := rt.View(), Op.CopyAssign(this, rhs);
      Assigning(b, op, rt.counted);
      if this != rhs {
        ReleaseHandle(rt);
        Set(rt, rhs.handle, rhs.countable);
        RetainHandle(rt);
      }
    }

    /** Move assignment: release, overwrite, empty the source. */
    method MoveAssign(rt: Runtime, rhs: Wrapper)
      requires Balanced(rt.View(), rt.counted) && this in rt.live && rhs in rt.live
      modifies rt`count, rt`given, this, rhs
      ensures rt.View() == After(old(rt.View()), Op.MoveAssign(this, rhs), rt.counted)
      ensures handle == old(rhs.handle) && countable == old(rhs.countable)
      ensures rhs != this ==> rhs.handle == NULL && !rhs.countable
      ensures Balanced(rt.View(), rt.counted)
    {
      ghost var b, op := rt.View(), Op.MoveAssign(this, rhs);
      Assigning(b, op, rt.counted);
      if this != rhs {
        ReleaseHandle(rt);
        Set(rt, rhs.handle, rhs.countable);
        rhs.Set(rt, NULL, false);
      }
    }

    /** Assignment of a raw handle: release, and take over the caller's reference. */
    method RawAssign(rt: Runtime, h: Handle)
      requires Balanced(rt.View(), rt.counted) && this in rt.live
      requires h != NULL && rt.counted(h) ==> At(rt.outside, h) >= 1
      modifies rt`count, rt`given, rt`outside, rt`taken, this
      ensures rt.View() == After(old(rt.View()), Op.RawAssign(this, h), rt.counted)
      ensures handle == h && countable == rt.counted(h)
      ensures Balanced(rt.View(), rt.counted)
    {
      ghost var b, op := rt.View(), Op.RawAssign(this, h);
      Assigning(b, op, rt.counted);
      ReleaseHandle(rt);
      Set(rt, h, rt.counted(h));
      rt.TakeOver(if rt.counted(h) then h else NULL);
    }

    /** `~Wrapper()` */
    method Destroy(rt: Runtime)
      requires Balanced(rt.View(), rt.counted) && this in rt.live
      modifies rt`count, rt`given, rt`live
      ensures rt.live == old(rt.live) - {this}
      ensures rt.View() == After(old(rt.View()), Op.Destroy(this), rt.counted)
      ensures Balanced(rt.View(), rt.counted)
    {
      Destroying(rt.View(), this, rt.counted);
      ReleaseHandle(rt);
      rt.Leave(this);
    }
  }

  /** What the program obtained it may hand to a wrapper. */
  lemma ObtainedMayBeAdopted<N>(b: Books<N>, h: Handle, n: N, counted: Handle -> bool)
    requires Balanced(b, counted) && n !in b.holds
    ensures var b' := After(b, Op.Obtain(h), counted); Balanced(b', counted) && Allowed(b', Op.Adopt(n, h, false), counted)
    ensures At(After(b, Op.Obtain(h), counted).outside, h) == At(b.outside, h) + 1
  {
    OutsideStep(b, Op.Obtain(h), counted);
    OpKeepsBalance(b, Op.Obtain(h), counted);
    if h != NULL && counted(h) {
      assert Exact(b, h);
    }
  }

  /** An object is created and adopted: from a fresh runtime on, counted handles do get into wrappers. */
  method CreateAndAdopt(counted: Handle -> bool, h: Handle) returns (rt: Runtime, w: Wrapper)
    ensures fresh(rt) && fresh(w) && rt.counted == counted && w in rt.live && Balanced(rt.View(), counted)
    ensures rt.View().holds == map[w := Cell(h, counted(h))]
  {
    rt := new Runtime(counted);
    ghost var b := rt.View();
    rt.Obtain(h);
    OutsideStep(b, Op<Wrapper>.Obtain(h), counted);
    ghost var b' := rt.View();
    w := new Wrapper.Adopt(rt, h, false);
    OpHolds(b', Op.Adopt(w, h, false), counted);
  }
}
