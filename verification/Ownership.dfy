/**
Reference counting in `detail::Wrapper` of CL/cl.hpp and CL/cl2.hpp, on values: which
runtime calls and field writes each operation makes, in order, and what they keep.

A wrapper is a handle and the flag `referenceCountable_`.  Whether the runtime counts
references to a handle is a fixed property of the handle (`isReferenceCountable`);
the general template is the case where every handle is counted.
*/
module Ownership {
  import opened Common
  import opened MapSums

  /** The fields of a wrapper. */
  datatype Cell = Cell(handle: Handle, countable: bool)

  const EMPTY: Cell := Cell(NULL, false)

  /**
  The live wrappers, the runtime's counts, and the references held outside the
  wrappers.  `taken` and `given` are history: how many references of a handle the
  wrappers came to own, and how many they released.
  */
  datatype Books<N> = Books(holds: map<N, Cell>, count: map<Handle, int>, outside: map<Handle, int>,
                            taken: map<Handle, int>, given: map<Handle, int>)

  /** Adds `d` to an entry. */
  function Bump(m: map<Handle, int>, h: Handle, d: int): map<Handle, int> {
    m[h := At(m, h) + d]
  }

  // ------------------------------------------------------------- the operations

  /** One runtime call, one write to a wrapper, or a reference that code outside the wrappers gets or gives up. */
  datatype Act<N> =
    | Retain(h: Handle)
    | Release(h: Handle)
    | Put(name: N, cell: Cell)
    | Remove(name: N)
    | Obtained(h: Handle)
    | Dropped(h: Handle)

  datatype Op<N> =
    | Default(n: N)
    | Adopt(n: N, h: Handle, retain: bool)
    | Copy(n: N, from: N)
    | Move(n: N, from: N)
    | CopyAssign(n: N, from: N)
    | MoveAssign(n: N, from: N)
    | RawAssign(n: N, h: Handle)
    | Destroy(n: N)
    | Obtain(h: Handle)
    | Discard(h: Handle)

  /** Not an operation of a wrapper: a runtime call of the program hands out a reference, or the program releases one it holds. */
  predicate Outside<N>(op: Op<N>) {
    op.Obtain? || op.Discard?
  }

  /** `retain()`: skipped for null and for handles that are not counted. */
  function RetainIf<N>(c: Cell): seq<Act<N>> {
    if c.handle != NULL && c.countable then [Retain(c.handle)] else []
  }

  function ReleaseIf<N>(c: Cell): seq<Act<N>> {
    if c.handle != NULL && c.countable then [Release(c.handle)] else []
  }

  function CellOf<N>(b: Books<N>, n: N): Cell {
    if n in b.holds then b.holds[n] else EMPTY
  }

  /** First: assignments and the destructor release what the wrapper holds. */
  function Releases<N>(b: Books<N>, op: Op<N>): seq<Act<N>> {
    if op.CopyAssign? || op.MoveAssign? || op.RawAssign? || op.Destroy? then ReleaseIf(CellOf(b, op.n)) else []
  }

  /** What the wrapper then holds: copies and raw handles have their flag computed anew, the rest take it along. */
  function NewCell<N>(b: Books<N>, op: Op<N>, counted: Handle -> bool): Cell {
    match op
    case Default(_) => EMPTY
    case Adopt(_, h, _) => Cell(h, counted(h))
    case RawAssign(_, h) => Cell(h, counted(h))
    case Copy(_, m) => Cell(CellOf(b, m).handle, counted(CellOf(b, m).handle))
    case Move(_, m) => CellOf(b, m)
    case CopyAssign(_, m) => CellOf(b, m)
    case MoveAssign(_, m) => CellOf(b, m)
    case _ => EMPTY
  }

  /** Second: the write to the wrapper. */
  function Writes<N>(b: Books<N>, op: Op<N>, counted: Handle -> bool): Act<N>
    requires !Outside(op)
  {
    if op.Destroy? then Remove(op.n) else Put(op.n, NewCell(b, op, counted))
  }

  /** Last: copies retain, moves empty their source. */
  function Tail<N>(b: Books<N>, op: Op<N>, counted: Handle -> bool): seq<Act<N>> {
    if op.Copy? || op.CopyAssign? || (op.Adopt? && op.retain) then RetainIf(NewCell(b, op, counted))
    else if op.Move? || op.MoveAssign? then [Put(op.from, EMPTY)]
    else []
  }

  predicate SelfAssign<N(==)>(op: Op<N>) {
    (op.CopyAssign? || op.MoveAssign?) && op.n == op.from
  }

  /** The acts of an operation, in the order of the code; assignment to itself does nothing. */
  function Acts<N>(b: Books<N>, op: Op<N>, counted: Handle -> bool): seq<Act<N>> {
    if op.Obtain? then [Obtained(op.h)]
    else if op.Discard? then [Dropped(op.h)]
    else if SelfAssign(op) then []
    else Releases(b, op) + [Writes(b, op, counted)] + Tail(b, op, counted)
  }

  function Do<N>(b: Books<N>, act: Act<N>): Books<N> {
    match act
    case Retain(h) => b.(count := Bump(b.count, h, 1), taken := Bump(b.taken, h, 1))
    case Release(h) => b.(count := Bump(b.count, h, -1), given := Bump(b.given, h, 1))
    case Put(n, c) => b.(holds := b.holds[n := c])
    case Remove(n) => b.(holds := b.holds - {n})
    case Obtained(h) => b.(count := Bump(b.count, h, 1), outside := Bump(b.outside, h, 1))
    case Dropped(h) => b.(count := Bump(b.count, h, -1), outside := Bump(b.outside, h, -1))
  }

  function DoAll<N>(b: Books<N>, acts: seq<Act<N>>): Books<N> {
    if acts == [] then b else Do(DoAll(b, acts[..|acts| - 1]), acts[|acts| - 1])
  }

  /** The reference an operation takes over from its caller. */
  function TakesOver<N>(op: Op<N>, counted: Handle -> bool): Handle {
    match op
    case Adopt(_, h, retain) => if !retain && counted(h) then h else NULL
    case RawAssign(_, h) => if counted(h) then h else NULL
    case _ => NULL
  }

  /** The books after a whole operation. */
  function After<N>(b: Books<N>, op: Op<N>, counted: Handle -> bool): Books<N> {
    HandOver(DoAll(b, Acts(b, op, counted)), TakesOver(op, counted))
  }

  /** A reference held outside now belongs to a wrapper. */
  function HandOver<N>(b: Books<N>, h: Handle): Books<N> {
    if h == NULL then b else b.(outside := Bump(b.outside, h, -1), taken := Bump(b.taken, h, 1))
  }

  /** What the caller must see to: names exist or are new, and a reference handed over or given up is owned. */
  predicate Allowed<N>(b: Books<N>, op: Op<N>, counted: Handle -> bool) {
    if Outside(op) then op.Discard? && op.h != NULL && counted(op.h) ==> At(b.outside, op.h) >= 1 else
    && (op.Default? || op.Adopt? || op.Copy? || op.Move? <==> op.n !in b.holds)
    && (op.Copy? || op.Move? || op.CopyAssign? || op.MoveAssign? ==> op.from in b.holds)
    && (TakesOver(op, counted) != NULL ==> At(b.outside, TakesOver(op, counted)) >= 1)
    && (op.Adopt? && op.retain && op.h != NULL && counted(op.h) ==> At(b.count, op.h) >= 1)
  }

  // -------------------------------------------------------------- the invariant

  /** 1 for every live wrapper of the handle. */
  function Holding<N>(b: Books<N>, h: Handle): map<N, int> {
    map n | n in b.holds :: if b.holds[n].handle == h then 1 else 0
  }

  ghost function Holders<N>(b: Books<N>, h: Handle): int {
    Sum(Holding(b, h))
  }

  /** The handle's count is what wrappers and others hold; owned minus released is what is held. */
  ghost predicate Exact<N>(b: Books<N>, h: Handle) {
    && At(b.count, h) == Holders(b, h) + At(b.outside, h)
    && At(b.taken, h) == At(b.given, h) + Holders(b, h)
    && At(b.outside, h) >= 0
  }

  predicate FlagOk(c: Cell, counted: Handle -> bool) {
    c.handle != NULL ==> c.countable == counted(c.handle)
  }

  ghost predicate Balanced<N>(b: Books<N>, counted: Handle -> bool) {
    && (forall h :: h != NULL && counted(h) ==> Exact(b, h))
    && (forall n :: n in b.holds ==> FlagOk(b.holds[n], counted))
  }

  lemma HoldersPut<N>(b: Books<N>, n: N, c: Cell, h: Handle)
    ensures Holders(b.(holds := b.holds[n := c]), h)
         == Holders(b, h) - (if CellOf(b, n).handle == h && n in b.holds then 1 else 0) + (if c.handle == h then 1 else 0)
  {
    var one := if c.handle == h then 1 else 0;
    assert Holding(b.(holds := b.holds[n := c]), h) == Holding(b, h)[n := one];
    SumUpdate(Holding(b, h), n, one);
  }

  lemma HoldersRemove<N>(b: Books<N>, n: N, h: Handle)
    ensures Holders(b.(holds := b.holds - {n}), h)
         == Holders(b, h) - (if n in b.holds && b.holds[n].handle == h then 1 else 0)
  {
    assert Holding(b.(holds := b.holds - {n}), h) == Holding(b, h) - {n};
    SumDrop(Holding(b, h), n);
  }

  lemma HoldersBound<N>(b: Books<N>, n: N, h: Handle)
    ensures 0 <= Holders(b, h)
    ensures n in b.holds && b.holds[n].handle == h ==> 1 <= Holders(b, h)
  {
    SumBounds(Holding(b, h), n);
  }

  /** What one act does to a handle's numbers. */
  lemma DoNumbers<N>(b: Books<N>, act: Act<N>, h: Handle)
    ensures var b' := Do(b, act);
            var d := if act == Obtained(h) then 1 else if act == Dropped(h) then -1 else 0;
            && At(b'.outside, h) == At(b.outside, h) + d
            && At(b'.count, h) == At(b.count, h) + d + (if act == Retain(h) then 1 else if act == Release(h) then -1 else 0)
            && At(b'.taken, h) == At(b.taken, h) + (if act == Retain(h) then 1 else 0)
            && At(b'.given, h) == At(b.given, h) + (if act == Release(h) then 1 else 0)
            && Holders(b', h) == Holders(b, h) + HolderChange(b, act, h)
  {
    match act
    case Put(n, c) => HoldersPut(b, n, c, h);
    case Remove(n) => HoldersRemove(b, n, h);
    case _ => assert Holding(Do(b, act), h) == Holding(b, h);
  }

  function HolderChange<N>(b: Books<N>, act: Act<N>, h: Handle): int {
    match act
    case Put(n, c) =>
      (if c.handle == h then 1 else 0) - (if n in b.holds && b.holds[n].handle == h then 1 else 0)
    case Remove(n) => if n in b.holds && b.holds[n].handle == h then -1 else 0
    case _ => 0
  }

  // -------------------------------------------------- whole operations balance

  /** Zero or one act. */
  function Maybe<N>(b: Books<N>, acts: seq<Act<N>>): Books<N> {
    if acts == [] then b else Do(b, acts[0])
  }

  /** Every operation but a self-assignment releases at most once, writes, and then does at most one thing. */
  lemma DoThree<N>(b: Books<N>, r: seq<Act<N>>, w: Act<N>, t: seq<Act<N>>)
    requires |r| <= 1 && |t| <= 1
    ensures DoAll(b, r + [w] + t) == Maybe(Do(Maybe(b, r), w), t)
  {
    assert r == [] || r == [r[0]];
    assert (r + [w])[..|r|] == r;
    assert r != [] ==> r[..0] == [];
    assert DoAll(b, r) == Maybe(b, r);
    assert DoAll(b, r + [w]) == Do(Maybe(b, r), w);
    if t == [] {
      assert r + [w] + t == r + [w];
    } else {
      assert (r + [w] + t)[..|r| + 1] == r + [w];
    }
  }

  /** The three stages of an operation. */
  function Released<N>(b: Books<N>, op: Op<N>): Books<N> {
    Maybe(b, Releases(b, op))
  }

  function Written<N>(b: Books<N>, op: Op<N>, counted: Handle -> bool): Books<N>
    requires !Outside(op)
  {
    Do(Released(b, op), Writes(b, op, counted))
  }

  lemma Stages<N>(b: Books<N>, op: Op<N>, counted: Handle -> bool)
    requires !SelfAssign(op) && !Outside(op)
    ensures DoAll(b, Acts(b, op, counted)) == Maybe(Written(b, op, counted), Tail(b, op, counted))
  {
    DoThree(b, Releases(b, op), Writes(b, op, counted), Tail(b, op, counted));
  }

  /** What the three parts of an operation can be. */
  predicate Plan<N>(r: seq<Act<N>>, w: Act<N>, t: seq<Act<N>>) {
    && |r| <= 1 && (r != [] ==> r[0].Release?)
    && (w.Put? || w.Remove?)
    && |t| <= 1 && (t != [] ==> t[0].Retain? || (t[0].Put? && t[0].cell == EMPTY))
  }

  lemma OpPlan<N>(b: Books<N>, op: Op<N>, counted: Handle -> bool)
    requires !Outside(op)
    ensures Plan(Releases(b, op), Writes(b, op, counted), Tail(b, op, counted))
  {
  }

  /** The numbers of a handle after a release, a write and a last act. */
  lemma ThreeNumbers<N>(b: Books<N>, r: seq<Act<N>>, w: Act<N>, t: seq<Act<N>>, h: Handle)
    requires Plan(r, w, t)
    ensures var b2 := Do(Maybe(b, r), w);
            var b3 := Maybe(b2, t);
            && At(b3.outside, h) == At(b.outside, h)
            && At(b3.count, h) == At(b.count, h) + (if t == [Retain(h)] then 1 else 0) - (if r == [Release(h)] then 1 else 0)
            && At(b3.taken, h) == At(b.taken, h) + (if t == [Retain(h)] then 1 else 0)
            && At(b3.given, h) == At(b.given, h) + (if r == [Release(h)] then 1 else 0)
            && Holders(b3, h) == Holders(b, h) + HolderChange(b, w, h) + (if t == [] then 0 else HolderChange(b2, t[0], h))
  {
    if r != [] {
      DoNumbers(b, r[0], h);
    }
    var b1 := Maybe(b, r);
    DoNumbers(b1, w, h);
    if t != [] {
      DoNumbers(Do(b1, w), t[0], h);
    }
  }

  /** What the wrappers gain of `h` in a plan, less what is retained for it, plus what is released. */
  function Gain<N>(b: Books<N>, r: seq<Act<N>>, w: Act<N>, t: seq<Act<N>>, h: Handle): int
    requires Plan(r, w, t)
  {
    HolderChange(b, w, h) + (if t == [] then 0 else HolderChange(Do(Maybe(b, r), w), t[0], h))
    - (if t == [Retain(h)] then 1 else 0) + (if r == [Release(h)] then 1 else 0)
  }

  lemma PlanKeepsExact<N>(b: Books<N>, r: seq<Act<N>>, w: Act<N>, t: seq<Act<N>>, g: Handle, h: Handle)
    requires Plan(r, w, t) && h != NULL && Exact(b, h) && (g == h ==> At(b.outside, h) >= 1)
    requires Gain(b, r, w, t, h) == if g == h then 1 else 0
    ensures Exact(HandOver(Maybe(Do(Maybe(b, r), w), t), g), h)
  {
    ThreeNumbers(b, r, w, t, h);
    HandOverNumbers(Maybe(Do(Maybe(b, r), w), t), g, h);
  }

  lemma HandOverNumbers<N>(b: Books<N>, g: Handle, h: Handle)
    requires h != NULL
    ensures var b' := HandOver(b, g);
            var d := if g == h then 1 else 0;
            && At(b'.count, h) == At(b.count, h) && At(b'.given, h) == At(b.given, h)
            && At(b'.outside, h) == At(b.outside, h) - d && At(b'.taken, h) == At(b.taken, h) + d
            && Holders(b', h) == Holders(b, h)
  {
  }

  /** What the wrappers gain is retained or taken over from the caller, what they lose is released. */
  lemma OpGain<N>(b: Books<N>, op: Op<N>, counted: Handle -> bool, h: Handle)
    requires Balanced(b, counted) && Allowed(b, op, counted) && h != NULL && counted(h) && !SelfAssign(op) && !Outside(op)
    requires Plan(Releases(b, op), Writes(b, op, counted), Tail(b, op, counted))
    ensures Gain(b, Releases(b, op), Writes(b, op, counted), Tail(b, op, counted), h)
         == if TakesOver(op, counted) == h then 1 else 0
  {
  }

  /** Outside the wrappers one act is all there is. */
  lemma OutsideStep<N>(b: Books<N>, op: Op<N>, counted: Handle -> bool)
    requires Outside(op)
    ensures |Acts(b, op, counted)| == 1 && After(b, op, counted) == Do(b, Acts(b, op, counted)[0])
    ensures After(b, op, counted).holds == b.holds
  {
    var acts := Acts(b, op, counted);
    assert acts == [acts[0]] && acts[..0] == [];
    assert DoAll(b, acts) == Do(DoAll(b, acts[..0]), acts[0]);
    assert TakesOver(op, counted) == NULL;
  }

  /** Every allowed operation keeps every counted handle's books exact. */
  lemma OpKeepsExact<N>(b: Books<N>, op: Op<N>, counted: Handle -> bool, h: Handle)
    requires Balanced(b, counted) && Allowed(b, op, counted) && h != NULL && counted(h)
    ensures Exact(After(b, op, counted), h)
  {
    assert Exact(b, h);
    if Outside(op) {
      OutsideStep(b, op, counted);
      DoNumbers(b, Acts(b, op, counted)[0], h);
    } else if SelfAssign(op) {
      assert After(b, op, counted) == b;
    } else {
      var r, w, t := Releases(b, op), Writes(b, op, counted), Tail(b, op, counted);
      OpPlan(b, op, counted);
      OpGain(b, op, counted, h);
      DoThree(b, r, w, t);
      PlanKeepsExact(b, r, w, t, TakesOver(op, counted), h);
    }
  }

  /** Which wrappers an operation leaves behind. */
  function HoldsAfter<N>(b: Books<N>, op: Op<N>, counted: Handle -> bool): map<N, Cell> {
    if SelfAssign(op) || Outside(op) then b.holds
    else if op.Destroy? then b.holds - {op.n}
    else if op.Move? || op.MoveAssign? then b.holds[op.n := CellOf(b, op.from)][op.from := EMPTY]
    else b.holds[op.n := NewCell(b, op, counted)]
  }

  lemma PlanHolds<N>(b: Books<N>, r: seq<Act<N>>, w: Act<N>, t: seq<Act<N>>, g: Handle)
    requires Plan(r, w, t)
    ensures var holds := if w.Put? then b.holds[w.name := w.cell] else b.holds - {w.name};
            HandOver(Maybe(Do(Maybe(b, r), w), t), g).holds
              == if t != [] && t[0].Put? then holds[t[0].name := EMPTY] else holds
  {
    assert Maybe(b, r).holds == b.holds;
  }

  lemma HoldsOfPlan<N>(b: Books<N>, op: Op<N>, counted: Handle -> bool)
    requires !Outside(op) && !SelfAssign(op)
    ensures var w, t := Writes(b, op, counted), Tail(b, op, counted);
            var holds := if w.Put? then b.holds[w.name := w.cell] else b.holds - {w.name};
            HoldsAfter(b, op, counted) == if t != [] && t[0].Put? then holds[t[0].name := EMPTY] else holds
  {
  }

  lemma OpHolds<N>(b: Books<N>, op: Op<N>, counted: Handle -> bool)
    ensures After(b, op, counted).holds == HoldsAfter(b, op, counted)
  {
    if Outside(op) {
      OutsideStep(b, op, counted);
    } else if !SelfAssign(op) {
      OpPlan(b, op, counted);
      Stages(b, op, counted);
      HoldsOfPlan(b, op, counted);
      PlanHolds(b, Releases(b, op), Writes(b, op, counted), Tail(b, op, counted), TakesOver(op, counted));
    }
  }

  lemma OpKeepsFlags<N>(b: Books<N>, op: Op<N>, counted: Handle -> bool, n: N)
    requires Balanced(b, counted) && Allowed(b, op, counted) && n in HoldsAfter(b, op, counted)
    ensures FlagOk(HoldsAfter(b, op, counted)[n], counted)
  {
  }

  /** Conservation: no operation upsets the books or a flag. */
  lemma OpKeepsBalance<N>(b: Books<N>, op: Op<N>, counted: Handle -> bool)
    requires Balanced(b, counted) && Allowed(b, op, counted)
    ensures Balanced(After(b, op, counted), counted)
  {
    forall h | h != NULL && counted(h)
      ensures Exact(After(b, op, counted), h)
    {
      OpKeepsExact(b, op, counted, h);
    }
    OpHolds(b, op, counted);
    forall n | n in After(b, op, counted).holds
      ensures FlagOk(After(b, op, counted).holds[n], counted)
    {
      OpKeepsFlags(b, op, counted, n);
    }
  }

  // ------------------------------------------------- what each operation is for

  /** The wrapper an operation copies or moves from. */
  predicate HasSource<N>(op: Op<N>) {
    op.Copy? || op.Move? || op.CopyAssign? || op.MoveAssign?
  }

  /** What becomes of the wrappers an operation names. */
  predicate Done<N>(b: Books<N>, op: Op<N>, counted: Handle -> bool, e: Books<N>)
    requires HasSource(op) ==> op.from in b.holds
  {
    match op
    case Default(n) => n in e.holds && e.holds[n] == Cell(NULL, false)
    case Adopt(n, h, _) => n in e.holds && e.holds[n] == Cell(h, counted(h))
    case RawAssign(n, h) => n in e.holds && e.holds[n] == Cell(h, counted(h))
    case Copy(n, m) =>
      && n in e.holds && e.holds[n].handle == b.holds[m].handle
      && m in e.holds && e.holds[m] == b.holds[m]
    case CopyAssign(n, m) =>
      && n in e.holds && e.holds[n].handle == b.holds[m].handle
      && m in e.holds && e.holds[m] == b.holds[m]
    case Move(n, m) => n in e.holds && e.holds[n] == b.holds[m] && m in e.holds && e.holds[m] == Cell(NULL, false)
    case MoveAssign(n, m) =>
      && n in e.holds && e.holds[n] == b.holds[m]
      && m in e.holds && e.holds[m] == if n == m then b.holds[m] else Cell(NULL, false)
    case Destroy(n) => n !in e.holds
    case Obtain(_) => e.holds == b.holds
    case Discard(_) => e.holds == b.holds
  }

  predicate Names<N(==)>(op: Op<N>, m: N) {
    !Outside(op) && (m == op.n || (HasSource(op) && m == op.from))
  }

  /** The other wrappers are as they were. */
  ghost predicate OthersKept<N>(b: Books<N>, op: Op<N>, e: Books<N>) {
    && (forall m :: m in b.holds && !Names(op, m) ==> m in e.holds && e.holds[m] == b.holds[m])
    && (forall m :: m in e.holds && !Names(op, m) ==> m in b.holds)
  }

  /** The operation does what it is for, and to no other wrapper. */
  lemma OpDoes<N>(b: Books<N>, op: Op<N>, counted: Handle -> bool)
    requires Balanced(b, counted) && Allowed(b, op, counted)
    ensures HasSource(op) ==> op.from in b.holds
    ensures Done(b, op, counted, After(b, op, counted)) && OthersKept(b, op, After(b, op, counted))
  {
    OpHolds(b, op, counted);
  }

  /** The handle of a wrapper that lives, or null. */
  function HandleOf<N>(b: Books<N>, n: N): Handle {
    if n in b.holds then b.holds[n].handle else NULL
  }

  /** By how much the count of a counted handle rises: one for a new owner that retains, one less for an owner that lets go. */
  function CountChange<N>(b: Books<N>, op: Op<N>, h: Handle): int {
    match op
    case Adopt(_, g, retain) => if retain && g == h then 1 else 0
    case Copy(_, m) => if HandleOf(b, m) == h then 1 else 0
    case CopyAssign(n, m) => (if HandleOf(b, m) == h then 1 else 0) - (if HandleOf(b, n) == h then 1 else 0)
    case MoveAssign(n, m) => if n != m && HandleOf(b, n) == h then -1 else 0
    case RawAssign(n, _) => if HandleOf(b, n) == h then -1 else 0
    case Destroy(n) => if HandleOf(b, n) == h then -1 else 0
    case Obtain(g) => if g == h then 1 else 0
    case Discard(g) => if g == h then -1 else 0
    case _ => 0
  }

  /** The runtime counts just that. */
  lemma OpCounts<N>(b: Books<N>, op: Op<N>, counted: Handle -> bool, h: Handle)
    requires Balanced(b, counted) && Allowed(b, op, counted) && h != NULL && counted(h)
    ensures At(After(b, op, counted).count, h) == At(b.count, h) + CountChange(b, op, h)
  {
    if Outside(op) {
      OutsideStep(b, op, counted);
      DoNumbers(b, Acts(b, op, counted)[0], h);
    } else if SelfAssign(op) {
      assert After(b, op, counted) == b;
    } else {
      var r, w, t := Releases(b, op), Writes(b, op, counted), Tail(b, op, counted);
      OpPlan(b, op, counted);
      DoThree(b, r, w, t);
      ThreeNumbers(b, r, w, t, h);
      OpRuntimeCalls(b, op, counted, h);
    }
  }

  lemma OpSparesCalls<N>(b: Books<N>, op: Op<N>, counted: Handle -> bool, h: Handle)
    requires Balanced(b, counted) && Allowed(b, op, counted) && !Outside(op) && (h == NULL || !counted(h))
    ensures Tail(b, op, counted) != [Retain(h)] && Releases(b, op) != [Release(h)]
  {
    assert op.n in b.holds ==> FlagOk(b.holds[op.n], counted);
    if HasSource(op) {
      assert FlagOk(b.holds[op.from], counted);
    }
  }

  /** And is not asked by a wrapper about null, or about a handle it does not count. */
  lemma OpSpares<N>(b: Books<N>, op: Op<N>, counted: Handle -> bool, h: Handle)
    requires Balanced(b, counted) && Allowed(b, op, counted) && !Outside(op) && (h == NULL || !counted(h))
    ensures At(After(b, op, counted).count, h) == At(b.count, h)
  {
    if SelfAssign(op) {
      assert After(b, op, counted) == b;
    } else {
      var r, w, t := Releases(b, op), Writes(b, op, counted), Tail(b, op, counted);
      OpPlan(b, op, counted);
      OpSparesCalls(b, op, counted, h);
      DoThree(b, r, w, t);
      ThreeNumbers(b, r, w, t, h);
    }
  }

  /** Which runtime calls an operation makes on a counted handle. */
  lemma OpRuntimeCalls<N>(b: Books<N>, op: Op<N>, counted: Handle -> bool, h: Handle)
    requires Balanced(b, counted) && Allowed(b, op, counted) && h != NULL && counted(h) && !Outside(op) && !SelfAssign(op)
    ensures (if Tail(b, op, counted) == [Retain(h)] then 1 else 0) - (if Releases(b, op) == [Release(h)] then 1 else 0)
         == CountChange(b, op, h)
  {
    assert op.n in b.holds ==> FlagOk(b.holds[op.n], counted);
    if HasSource(op) {
      assert FlagOk(b.holds[op.from], counted);
    }
  }

  // ---------------------------------------------------------- no early free

  /** The wrapper is empty, holds an uncounted handle, or holds one that is not freed. */
  predicate Alive<N>(b: Books<N>, n: N)
    requires n in b.holds
  {
    b.holds[n].handle != NULL && b.holds[n].countable ==> At(b.count, b.holds[n].handle) >= 1
  }

  /** The states reached after part of a release, a write and a last act. */
  lemma PartOfThree<N>(b: Books<N>, r: seq<Act<N>>, w: Act<N>, t: seq<Act<N>>, k: nat)
    requires |r| <= 1 && |t| <= 1 && k <= |r| + 1 + |t|
    ensures DoAll(b, (r + [w] + t)[..k]) ==
              if k == 0 then b
              else if k == |r| then Maybe(b, r)
              else if k == |r| + 1 then Do(Maybe(b, r), w)
              else Maybe(Do(Maybe(b, r), w), t)
  {
    var acts := r + [w] + t;
    DoThree(b, r, w, t);
    DoThree(b, r, w, []);
    assert r + [w] + [] == r + [w];
    if k == 0 {
      assert acts[..k] == [];
    } else if k == |r| {
      assert acts[..k] == r && r[..0] == [];
    } else if k == |r| + 1 {
      assert acts[..k] == r + [w];
    } else {
      assert acts[..k] == acts;
    }
  }

  /** Two wrappers of one handle count twice. */
  lemma TwoHolders<N>(b: Books<N>, n: N, m: N, h: Handle)
    requires n != m && n in b.holds && m in b.holds && b.holds[n].handle == h && b.holds[m].handle == h
    ensures Holders(b, h) >= 2
  {
    HoldersRemove(b, n, h);
    HoldersBound(b.(holds := b.holds - {n}), m, h);
  }

  /** Between operations no live wrapper names a freed handle. */
  lemma BalancedIsAlive<N>(b: Books<N>, counted: Handle -> bool, n: N)
    requires Balanced(b, counted) && n in b.holds
    ensures Alive(b, n)
  {
    var h := b.holds[n].handle;
    assert FlagOk(b.holds[n], counted);
    assert h != NULL && counted(h) ==> Exact(b, h);
    HoldersBound(b, n, h);
  }

  /** The release lowers the count of what the target holds, and of nothing else. */
  lemma ReleasedCount<N>(b: Books<N>, op: Op<N>, h: Handle)
    ensures Released(b, op).holds == b.holds
    ensures At(Released(b, op).count, h) == At(b.count, h) - (if Releases(b, op) == [Release(h)] then 1 else 0)
  {
  }

  /** After the release in an operation, every other wrapper is still alive. */
  lemma OthersAliveAfterRelease<N>(b: Books<N>, op: Op<N>, counted: Handle -> bool, m: N)
    requires Balanced(b, counted) && Allowed(b, op, counted) && !Outside(op) && m in b.holds && m != op.n
    ensures Released(b, op).holds == b.holds && Alive(Released(b, op), m)
  {
    var h := b.holds[m].handle;
    BalancedIsAlive(b, counted, m);
    ReleasedCount(b, op, h);
    assert FlagOk(b.holds[m], counted);
    if Releases(b, op) == [Release(h)] {
      assert op.n in b.holds && b.holds[op.n].handle == h;
      TwoHolders(b, op.n, m, h);
      assert counted(h) ==> Exact(b, h);
    }
  }

  /** Once an operation has written its wrapper, nobody names a freed handle, retained yet or not. */
  lemma AliveAfterWrite<N>(b: Books<N>, op: Op<N>, counted: Handle -> bool, m: N)
    requires Balanced(b, counted) && Allowed(b, op, counted) && !SelfAssign(op) && !Outside(op)
    requires m in Written(b, op, counted).holds
    ensures Alive(Written(b, op, counted), m)
  {
    var c := NewCell(b, op, counted);
    if m != op.n {
      OthersAliveAfterRelease(b, op, counted, m);
    } else if op.Copy? || op.Move? || op.CopyAssign? || op.MoveAssign? {
      OthersAliveAfterRelease(b, op, counted, op.from);
      assert FlagOk(b.holds[op.from], counted);
    } else if op.RawAssign? && c.handle != NULL && c.countable {
      assert Exact(b, c.handle);
      HoldersBound(b, op.n, c.handle);
    } else if op.Adopt? && c.handle != NULL && c.countable {
      assert Exact(b, c.handle);
      HoldersBound(b, op.n, c.handle);
    }
  }

  lemma TailKeepsAlive<N>(s: Books<N>, act: Act<N>)
    requires (forall m :: m in s.holds ==> Alive(s, m)) && (act.Retain? || (act.Put? && act.cell == EMPTY))
    ensures forall m :: m in Do(s, act).holds ==> Alive(Do(s, act), m)
  {
  }

  /** Nobody but `n` names a freed handle. */
  ghost predicate OthersAlive<N>(s: Books<N>, n: N) {
    forall m :: m in s.holds && m != n ==> Alive(s, m)
  }

  lemma StartIsAlive<N>(b: Books<N>, op: Op<N>, counted: Handle -> bool)
    requires Balanced(b, counted) && !Outside(op)
    ensures OthersAlive(b, op.n) && (op.n in b.holds ==> Alive(b, op.n))
  {
    forall m | m in b.holds ensures Alive(b, m) { BalancedIsAlive(b, counted, m); }
  }

  lemma ReleasedIsAlive<N>(b: Books<N>, op: Op<N>, counted: Handle -> bool)
    requires Balanced(b, counted) && Allowed(b, op, counted) && !Outside(op) && |Releases(b, op)| == 1
    ensures var h := Releases(b, op)[0].h;
            && OthersAlive(Released(b, op), op.n) && op.n in Released(b, op).holds && At(b.count, h) >= 1
            && (!Alive(Released(b, op), op.n) <==> At(b.count, h) == 1)
  {
    forall m | m in b.holds && m != op.n
      ensures Alive(Released(b, op), m)
    {
      OthersAliveAfterRelease(b, op, counted, m);
    }
    BalancedIsAlive(b, counted, op.n);
  }

  lemma WrittenIsAlive<N>(b: Books<N>, op: Op<N>, counted: Handle -> bool)
    requires Balanced(b, counted) && Allowed(b, op, counted) && !SelfAssign(op) && !Outside(op)
    ensures var s, t := Written(b, op, counted), Tail(b, op, counted);
            && OthersAlive(s, op.n) && (op.n in s.holds ==> Alive(s, op.n))
            && OthersAlive(Maybe(s, t), op.n) && (op.n in Maybe(s, t).holds ==> Alive(Maybe(s, t), op.n))
            && (t != [] && t[0].Retain? ==> At(s.count, t[0].h) >= 1)
  {
    var s, t := Written(b, op, counted), Tail(b, op, counted);
    forall m | m in s.holds ensures Alive(s, m) { AliveAfterWrite(b, op, counted, m); }
    if t != [] {
      TailKeepsAlive(s, t[0]);
      assert t[0].Retain? ==> op.n in s.holds;
    }
  }

  /** What must hold before the `k`-th of some acts on wrapper `n`. */
  ghost predicate SafePoint<N>(b: Books<N>, acts: seq<Act<N>>, n: N, k: nat)
    requires k <= |acts|
  {
    var s := DoAll(b, acts[..k]);
    && (k < |acts| && (acts[k].Retain? || acts[k].Release?) ==> At(s.count, acts[k].h) >= 1)
    && OthersAlive(s, n)
    && (n in s.holds ==> (!Alive(s, n) <==> k == 1 && acts[0].Release? && At(b.count, acts[0].h) == 1))
  }

  lemma PlanIsSafe<N>(b: Books<N>, r: seq<Act<N>>, w: Act<N>, t: seq<Act<N>>, n: N, k: nat)
    requires Plan(r, w, t) && k <= |r| + 1 + |t|
    requires OthersAlive(b, n) && (n in b.holds ==> Alive(b, n))
    requires r != [] ==> && OthersAlive(Maybe(b, r), n) && n in Maybe(b, r).holds && At(b.count, r[0].h) >= 1
                         && (!Alive(Maybe(b, r), n) <==> At(b.count, r[0].h) == 1)
    requires var s := Do(Maybe(b, r), w);
             && OthersAlive(s, n) && (n in s.holds ==> Alive(s, n))
             && OthersAlive(Maybe(s, t), n) && (n in Maybe(s, t).holds ==> Alive(Maybe(s, t), n))
             && (t != [] && t[0].Retain? ==> At(s.count, t[0].h) >= 1)
    ensures SafePoint(b, r + [w] + t, n, k)
  {
    PartOfThree(b, r, w, t, k);
  }

  /** Nobody names a freed handle, and none is given up, before the `k`-th act. */
  ghost predicate SafeOutside<N>(b: Books<N>, acts: seq<Act<N>>, counted: Handle -> bool, k: nat)
    requires k <= |acts|
  {
    var s := DoAll(b, acts[..k]);
    && (forall m :: m in s.holds ==> Alive(s, m))
    && (k < |acts| && acts[k].Dropped? && acts[k].h != NULL && counted(acts[k].h) ==> At(s.count, acts[k].h) >= 1)
  }

  lemma OutsideIsSafe<N>(b: Books<N>, op: Op<N>, counted: Handle -> bool, k: nat)
    requires Balanced(b, counted) && Allowed(b, op, counted) && Outside(op) && k <= |Acts(b, op, counted)|
    ensures SafeOutside(b, Acts(b, op, counted), counted, k)
  {
    OutsideStep(b, op, counted);
    OpKeepsBalance(b, op, counted);
    var e := After(b, op, counted);
    forall m | m in b.holds ensures Alive(b, m) { BalancedIsAlive(b, counted, m); }
    forall m | m in e.holds ensures Alive(e, m) { BalancedIsAlive(e, counted, m); }
    assert DoAll(b, Acts(b, op, counted)[..k]) == if k == 0 then b else e by {
      assert Acts(b, op, counted)[..0] == [] && Acts(b, op, counted)[..1] == Acts(b, op, counted);
    }
    if op.Discard? && op.h != NULL && counted(op.h) {
      assert Exact(b, op.h);
      SumNonNegative(Holding(b, op.h));
    }
  }

  /**
  No early free, at every point inside every operation: the runtime is only ever
  asked to retain or release handles that are not freed, and no wrapper names a
  freed handle, but for the one being assigned or destroyed: it does exactly
  between the release and the write that follows, when it held the last reference.
  */
  lemma NoEarlyFree<N>(b: Books<N>, op: Op<N>, counted: Handle -> bool, k: nat)
    requires Balanced(b, counted) && Allowed(b, op, counted) && k <= |Acts(b, op, counted)|
    ensures if Outside(op) then SafeOutside(b, Acts(b, op, counted), counted, k)
            else SafePoint(b, Acts(b, op, counted), op.n, k)
  {
    if Outside(op) {
      OutsideIsSafe(b, op, counted, k);
    } else {
      StartIsAlive(b, op, counted);
      if SelfAssign(op) {
        assert Acts(b, op, counted)[..k] == [];
      } else {
        OpPlan(b, op, counted);
        WrittenIsAlive(b, op, counted);
        if |Releases(b, op)| == 1 {
          ReleasedIsAlive(b, op, counted);
        }
        PlanIsSafe(b, Releases(b, op), Writes(b, op, counted), Tail(b, op, counted), op.n, k);
      }
    }
  }

  // ------------------------------------------------------------- whole lifetimes

  function Run<N>(b: Books<N>, ops: seq<Op<N>>, counted: Handle -> bool): Books<N> {
    if ops == [] then b else After(Run(b, ops[..|ops| - 1], counted), ops[|ops| - 1], counted)
  }

  ghost predicate AllAllowed<N>(b: Books<N>, ops: seq<Op<N>>, counted: Handle -> bool) {
    ops == [] ||
    (&& AllAllowed(b, ops[..|ops| - 1], counted)
     && Allowed(Run(b, ops[..|ops| - 1], counted), ops[|ops| - 1], counted))
  }

  /** Any sequence of allowed operations conserves references and keeps the flags right. */
  lemma {:induction false} RunConserves<N>(b: Books<N>, ops: seq<Op<N>>, counted: Handle -> bool)
    requires Balanced(b, counted) && AllAllowed(b, ops, counted)
    ensures Balanced(Run(b, ops, counted), counted)
  {
    if ops == [] {
    } else {
      RunConserves(b, ops[..|ops| - 1], counted);
      OpKeepsBalance(Run(b, ops[..|ops| - 1], counted), ops[|ops| - 1], counted);
    }
  }

  /** Once all wrappers are gone, every reference they came to own has been released exactly once. */
  lemma AllReleasedInTheEnd<N>(b: Books<N>, ops: seq<Op<N>>, counted: Handle -> bool, h: Handle)
    requires Balanced(b, counted) && AllAllowed(b, ops, counted) && h != NULL && counted(h)
    requires Run(b, ops, counted).holds == map[]
    ensures var e := Run(b, ops, counted);
            At(e.given, h) == At(e.taken, h) && At(e.count, h) == At(e.outside, h)
  {
    RunConserves(b, ops, counted);
    var e := Run(b, ops, counted);
    assert Exact(e, h);
    assert Holding(e, h) == map[];
  }
}
