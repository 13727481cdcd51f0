/**
The four default slots of CL/cl2.hpp (Platform, Context, Device, CommandQueue), each
guarded by `std::call_once`, with `getDefault` and `setDefault` called from any number
of threads.  An initialiser asks other slots for their defaults while its own slot is
still active, so calls nest; a thread is a stack of calls.
*/
module OnceSlots {
  import opened Common

  datatype Name = Platform | Context | Device | Queue

  datatype Call = Get(n: Name) | Set(n: Name, v: Handle)

  /** Of a `once_flag`: not called yet, running in a thread, or completed. */
  datatype Status = Unset | Active(owner: nat) | Done

  /** What a slot's value was made from. */
  datatype Origin = Nowhere | Given | FromRuntime | FromPlatform(p: Handle) | FromContext(c: Handle) | FromBoth(c: Handle, d: Handle)

  /** `default_initialized_`, `default_` and `default_error_`; `wins` counts the initialisers that ran. */
  datatype Slot = Slot(status: Status, value: Handle, error: int, origin: Origin, wins: nat)

  const EMPTY: Slot := Slot(Unset, NULL, CL_SUCCESS, Nowhere, 0)

  /**
  Where a call is: about to enter `call_once`; about to ask the slot it needs; waiting for
  that; deciding on the answer (queue only); waiting for the device (queue only); about to
  write the slot; about to mark it complete; about to return.
  */
  datatype Pc = Enter | Ask | Await | Decide | AwaitDevice | Build | Publish | Leave

  /** A call in progress, with the answers it got: `a` and `e` from the slot it needs, `d` from the device. */
  datatype Frame = Frame(call: Call, pc: Pc, won: bool, a: Handle, e: int, d: Handle)

  datatype Result = Result(call: Call, value: Handle, error: int, won: bool)

  datatype Thread = Thread(todo: seq<Call>, stack: seq<Frame>, log: seq<Result>)

  datatype World = World(p: Slot, c: Slot, d: Slot, q: Slot, threads: seq<Thread>)

  /** What the runtime answers when it is asked to make something. */
  datatype Outcome = Outcome(value: Handle, error: int)

  function At(w: World, n: Name): Slot {
    match n
    case Platform => w.p
    case Context => w.c
    case Device => w.d
    case Queue => w.q
  }

  function Put(w: World, n: Name, s: Slot): World {
    match n
    case Platform => w.(p := s)
    case Context => w.(c := s)
    case Device => w.(d := s)
    case Queue => w.(q := s)
  }

  function PutThread(w: World, t: nat, th: Thread): World
    requires t < |w.threads|
  {
    w.(threads := w.threads[t := th])
  }

  // ------------------------------------------------------------------- the code

  /** The slot an initialiser asks first. */
  predicate HasNeed(n: Name) {
    n != Platform
  }

  function Need(n: Name): Name {
    if n == Context then Platform else Context
  }

  function NewFrame(call: Call): Frame {
    Frame(call, Enter, false, NULL, CL_SUCCESS, NULL)
  }

  /** The answer of an inner `getDefault`, taken up by the initialiser that waits for it. */
  function Deliver(f: Frame, value: Handle, error: int): Frame {
    if f.pc == AwaitDevice then f.(pc := Build, d := value)
    else f.(pc := if f.call.n == Queue then Decide else Build, a := value, e := error)
  }

  /** The write of an initialiser; `first` is the first device of a context, `o` the runtime's answer. */
  function Made(f: Frame, s: Slot, o: Outcome, first: Handle -> Handle): Slot {
    if f.call.Set? then s.(value := f.call.v, origin := Given)
    else match f.call.n
      case Platform =>
        if o.error != CL_SUCCESS then s.(error := o.error) else s.(value := o.value, origin := FromRuntime)
      case Context => s.(value := o.value, error := o.error, origin := FromPlatform(f.a))
      case Device =>
        if f.e != CL_SUCCESS then s.(error := f.e)
        else s.(value := first(f.a), error := CL_SUCCESS, origin := FromContext(f.a))
      case Queue => s.(value := o.value, error := o.error, origin := FromBoth(f.a, f.d))
  }

  function Top(th: Thread): Frame
    requires th.stack != []
  {
    th.stack[|th.stack| - 1]
  }

  /** The stack with another top, and with more on top of that. */
  function Retop(th: Thread, f: Frame, more: seq<Frame>): Thread
    requires th.stack != []
  {
    th.(stack := th.stack[..|th.stack| - 1] + [f] + more)
  }

  /** A thread can go on unless it has nothing left to do or waits at `call_once` for another. */
  predicate CanStep(w: World, t: nat) {
    t < |w.threads| &&
    var th := w.threads[t];
    if th.stack == [] then th.todo != []
    else !(Top(th).pc == Enter && At(w, Top(th).call.n).status.Active?)
  }

  /** The part of a step that touches the slot of the running call. */
  function NewSlot(f: Frame, s: Slot, t: nat, o: Outcome, first: Handle -> Handle): Slot {
    match f.pc
    case Enter => if s.status.Unset? then s.(status := Active(t), wins := s.wins + 1) else s
    case Decide => if f.e != CL_SUCCESS then s.(error := f.e) else s
    case Build => Made(f, s, o, first)
    case Publish => s.(status := Done)
    case _ => s
  }

  /** The running call after a step that does not return. */
  function NewTop(f: Frame, s: Slot): Frame {
    match f.pc
    case Enter =>
      if s.status.Unset? then f.(pc := if f.call.Get? && HasNeed(f.call.n) then Ask else Build, won := true)
      else f.(pc := Leave)
    case Ask => f.(pc := Await)
    case Decide => f.(pc := if f.e != CL_SUCCESS then Publish else AwaitDevice)
    case Build => f.(pc := Publish)
    case Publish => f.(pc := Leave)
    case _ => f
  }

  /** The call it makes in that step, if any. */
  function Inner(f: Frame): seq<Frame> {
    if f.pc == Ask then [NewFrame(Get(Need(f.call.n)))]
    else if f.pc == Decide && f.e == CL_SUCCESS then [NewFrame(Get(Device))]
    else []
  }

  /** The part that touches the stack. */
  function NewThread(th: Thread, s: Slot): Thread
    requires th.stack != []
  {
    if Top(th).pc == Leave then Returned(th, s) else Retop(th, NewTop(Top(th), s), Inner(Top(th)))
  }

  /** Return from the top call, to the initialiser below it or to the program. */
  function Returned(th: Thread, s: Slot): Thread
    requires th.stack != []
  {
    var rest := th.stack[..|th.stack| - 1];
    if rest == [] then
      th.(stack := [], log := th.log + [Result(Top(th).call, s.value, s.error, Top(th).won)])
    else
      th.(stack := rest[|rest| - 1 := Deliver(rest[|rest| - 1], s.value, s.error)])
  }

  function Step(w: World, t: nat, o: Outcome, first: Handle -> Handle): World
    requires CanStep(w, t)
  {
    var th := w.threads[t];
    if th.stack == [] then PutThread(w, t, th.(todo := th.todo[1..], stack := [NewFrame(th.todo[0])]))
    else
      var n := Top(th).call.n;
      PutThread(Put(w, n, NewSlot(Top(th), At(w, n), t, o, first)), t, NewThread(th, At(w, n)))
  }

  // -------------------------------------------------------------- the invariant

  /** The initialiser of the slot is running. */
  predicate Inside(pc: Pc) {
    pc != Enter && pc != Leave
  }

  predicate Waiting(pc: Pc) {
    pc == Await || pc == AwaitDevice
  }

  predicate Untouched(s: Slot) {
    s.value == NULL && s.error == CL_SUCCESS && s.origin == Nowhere
  }

  /** What an initialiser that ran to its end has left in slot `n`. */
  predicate WellMade(w: World, n: Name, first: Handle -> Handle) {
    var s := At(w, n);
    (s.origin == Given && s.error == CL_SUCCESS) ||
    match n
    case Platform =>
      if s.error != CL_SUCCESS then s.value == NULL && s.origin == Nowhere else s.origin == FromRuntime
    case Context => w.p.status.Done? && s.origin == FromPlatform(w.p.value)
    case Device =>
      && w.c.status.Done? && s.error == w.c.error
      && (if s.error != CL_SUCCESS then s.value == NULL && s.origin == Nowhere
          else s.value == first(w.c.value) && s.origin == FromContext(w.c.value))
    case Queue =>
      && w.c.status.Done?
      && (if w.c.error != CL_SUCCESS then s.error == w.c.error && s.value == NULL && s.origin == Nowhere
          else w.d.status.Done? && w.d.error == CL_SUCCESS && s.origin == FromBoth(w.c.value, w.d.value))
  }

  predicate SlotOk(w: World, n: Name, first: Handle -> Handle) {
    var s := At(w, n);
    && (s.status.Unset? ==> Untouched(s))
    && (s.status.Done? ==> WellMade(w, n, first))
    && s.wins == if s.status.Unset? then 0 else 1
  }

  /** The answers a call holds are those of completed slots. */
  predicate AnswersOk(w: World, f: Frame) {
    match f.pc
    case Ask => f.call.Get? && HasNeed(f.call.n)
    case Await => f.call.Get? && HasNeed(f.call.n)
    case Decide => f.call == Get(Queue) && w.c.status.Done? && f.a == w.c.value && f.e == w.c.error
    case AwaitDevice => f.call == Get(Queue) && w.c.status.Done? && f.a == w.c.value && w.c.error == CL_SUCCESS
    case Build =>
      f.call.Get? && HasNeed(f.call.n) ==>
        && At(w, Need(f.call.n)).status.Done? && f.a == At(w, Need(f.call.n)).value
        && (f.call.n == Device ==> f.e == w.c.error)
        && (f.call.n == Queue ==> w.c.error == CL_SUCCESS && w.d.status.Done? && f.d == w.d.value)
    case _ => true
  }

  predicate FrameOk(w: World, t: nat, f: Frame, first: Handle -> Handle) {
    var s := At(w, f.call.n);
    && AnswersOk(w, f)
    && (Inside(f.pc) ==> s.status == Active(t) && f.won)
    && (f.pc == Enter ==> !f.won)
    && (Inside(f.pc) && f.pc != Publish ==> Untouched(s))
    && (f.pc == Publish ==> WellMade(w, f.call.n, first))
    && (f.pc == Leave ==> s.status.Done?)
    && (f.call.Set? && f.won && (f.pc == Publish || f.pc == Leave) ==>
         s.origin == Given && s.value == f.call.v && s.error == CL_SUCCESS)
  }

  /** The call above is the one the call below waits for. */
  predicate Linked(f: Frame, g: Frame) {
    (f.pc == Await && g.call == Get(Need(f.call.n))) || (f.pc == AwaitDevice && g.call == Get(Device))
  }

  predicate LinkAt(stack: seq<Frame>, i: nat)
    requires i < |stack| - 1
  {
    Linked(stack[i], stack[i + 1])
  }

  predicate ResultOk(w: World, r: Result) {
    var s := At(w, r.call.n);
    && s.status.Done? && r.value == s.value && r.error == s.error
    && (r.call.Set? && r.won ==> r.value == r.call.v && r.error == CL_SUCCESS && s.origin == Given)
  }

  predicate StackOk(w: World, t: nat, stack: seq<Frame>, first: Handle -> Handle) {
    && (forall i {:trigger FrameOk(w, t, stack[i], first)} :: 0 <= i < |stack| ==> FrameOk(w, t, stack[i], first))
    && (forall i {:trigger LinkAt(stack, i)} :: 0 <= i < |stack| - 1 ==> LinkAt(stack, i))
    && (stack != [] ==> !Waiting(stack[|stack| - 1].pc))
  }

  predicate LogOk(w: World, log: seq<Result>) {
    forall i {:trigger log[i]} :: 0 <= i < |log| ==> ResultOk(w, log[i])
  }

  /** A running initialiser is a call on its thread's stack. */
  predicate Owned(w: World, n: Name) {
    var s := At(w, n).status;
    s.Active? ==>
      && s.owner < |w.threads|
      && exists i :: 0 <= i < |w.threads[s.owner].stack| && Runs(w.threads[s.owner].stack[i], n)
  }

  predicate Runs(f: Frame, n: Name) {
    f.call.n == n && Inside(f.pc)
  }

  predicate ThreadOk(w: World, t: nat, first: Handle -> Handle)
    requires t < |w.threads|
  {
    StackOk(w, t, w.threads[t].stack, first) && LogOk(w, w.threads[t].log)
  }

  ghost predicate Inv(w: World, first: Handle -> Handle) {
    && (forall n {:trigger At(w, n)} :: SlotOk(w, n, first) && Owned(w, n))
    && (forall t {:trigger w.threads[t]} :: 0 <= t < |w.threads| ==> ThreadOk(w, t, first))
  }

  // ------------------------------------------------------ every step keeps it

  /** What thread `t` leaves alone: completed slots, and slots other threads are initialising. */
  predicate Kept(s: Slot, s': Slot, t: nat) {
    s.status.Done? || (s.status.Active? && s.status.owner != t) ==> s' == s
  }

  predicate Later(w: World, w': World, t: nat) {
    Kept(w.p, w'.p, t) && Kept(w.c, w'.c, t) && Kept(w.d, w'.d, t) && Kept(w.q, w'.q, t)
  }

  lemma WellMadeLater(w: World, w': World, t: nat, n: Name, first: Handle -> Handle)
    requires Later(w, w', t) && WellMade(w, n, first) && At(w', n) == At(w, n)
    ensures WellMade(w', n, first)
  {
  }

  lemma FrameLater(w: World, w': World, t: nat, u: nat, f: Frame, first: Handle -> Handle)
    requires Later(w, w', t) && FrameOk(w, u, f, first) && (u != t || At(w', f.call.n) == At(w, f.call.n))
    ensures FrameOk(w', u, f, first)
  {
  }

  lemma OthersLater(w: World, w': World, t: nat, u: nat, first: Handle -> Handle)
    requires Later(w, w', t) && u != t && u < |w.threads| == |w'.threads| && w'.threads[u] == w.threads[u]
    requires ThreadOk(w, u, first)
    ensures ThreadOk(w', u, first)
  {
    forall f | f in w.threads[u].stack
      ensures FrameOk(w', u, f, first)
    {
      FrameLater(w, w', t, u, f, first);
    }
  }

  /** A step of a call in progress touches its own slot only, and that only if the slot is unset or its own. */
  lemma StepIsLater(w: World, t: nat, o: Outcome, first: Handle -> Handle)
    requires CanStep(w, t) && w.threads[t].stack != [] && FrameOk(w, t, Top(w.threads[t]), first)
    ensures Later(w, Step(w, t, o, first), t)
    ensures forall n :: n != Top(w.threads[t]).call.n ==> At(Step(w, t, o, first), n) == At(w, n)
  {
  }

  function Rank(n: Name): nat {
    match n
    case Platform => 0
    case Context => 1
    case Device => 2
    case Queue => 3
  }

  /** Calls further up the stack are for slots of lower rank: no initialiser ever comes back to its own slot. */
  lemma {:induction false} RanksDescend(w: World, t: nat, stack: seq<Frame>, first: Handle -> Handle, i: nat, j: nat)
    requires StackOk(w, t, stack, first) && i < j < |stack|
    ensures Rank(stack[j].call.n) < Rank(stack[i].call.n)
    decreases j - i
  {
    var f := stack[j - 1];
    assert FrameOk(w, t, f, first) && LinkAt(stack, j - 1);
    if i < j - 1 {
      RanksDescend(w, t, stack, first, i, j - 1);
    }
  }

  /** The calls below the top are as good as they were. */
  lemma LowerLater(w: World, t: nat, o: Outcome, first: Handle -> Handle, i: nat)
    requires CanStep(w, t) && ThreadOk(w, t, first) && i < |w.threads[t].stack| - 1
    ensures FrameOk(Step(w, t, o, first), t, w.threads[t].stack[i], first)
  {
    var stack := w.threads[t].stack;
    RanksDescend(w, t, stack, first, i, |stack| - 1);
    StepIsLater(w, t, o, first);
    FrameLater(w, Step(w, t, o, first), t, t, stack[i], first);
  }

  lemma NewTopOk(w: World, t: nat, o: Outcome, first: Handle -> Handle)
    requires CanStep(w, t) && w.threads[t].stack != [] && FrameOk(w, t, Top(w.threads[t]), first)
    requires SlotOk(w, Device, first) && SlotOk(w, Top(w.threads[t]).call.n, first)
    requires Top(w.threads[t]).pc != Leave
    ensures FrameOk(Step(w, t, o, first), t, NewTop(Top(w.threads[t]), At(w, Top(w.threads[t]).call.n)), first)
  {
  }

  lemma RetopOk(w: World, t: nat, th: Thread, f: Frame, more: seq<Frame>, first: Handle -> Handle)
    requires th.stack != [] && f.call == Top(th).call && FrameOk(w, t, f, first)
    requires forall i :: 0 <= i < |th.stack| - 1 ==> FrameOk(w, t, th.stack[i], first) && LinkAt(th.stack, i)
    requires if more == [] then !Waiting(f.pc) else |more| == 1 && more[0].pc == Enter && !more[0].won && Linked(f, more[0])
    ensures StackOk(w, t, Retop(th, f, more).stack, first)
  {
  }

  /** A return hands on the answer of a completed slot. */
  lemma ReturnedOk(w: World, t: nat, th: Thread, first: Handle -> Handle)
    requires StackOk(w, t, th.stack, first) && LogOk(w, th.log) && th.stack != [] && Top(th).pc == Leave
    ensures var th' := Returned(th, At(w, Top(th).call.n)); StackOk(w, t, th'.stack, first) && LogOk(w, th'.log)
  {
    var s := At(w, Top(th).call.n);
    var stack, k := Returned(th, s).stack, |th.stack| - 1;
    assert FrameOk(w, t, Top(th), first);
    if k > 0 {
      var f := th.stack[k - 1];
      assert FrameOk(w, t, f, first) && LinkAt(th.stack, k - 1);
      assert stack[k - 1] == Deliver(f, s.value, s.error) && FrameOk(w, t, stack[k - 1], first);
      forall i | 0 <= i < |stack| ensures FrameOk(w, t, stack[i], first) {
        assert i < k - 1 ==> stack[i] == th.stack[i];
      }
      forall i | 0 <= i < |stack| - 1 ensures LinkAt(stack, i) {
        assert LinkAt(th.stack, i) && stack[i] == th.stack[i] && stack[i + 1].call == th.stack[i + 1].call;
      }
    }
  }

  lemma ReturnKeepsThread(w: World, t: nat, o: Outcome, first: Handle -> Handle)
    requires CanStep(w, t) && w.threads[t].stack != [] && ThreadOk(w, t, first) && Top(w.threads[t]).pc == Leave
    ensures ThreadOk(Step(w, t, o, first), t, first)
  {
    var th, w' := w.threads[t], Step(w, t, o, first);
    var k := |th.stack| - 1;
    assert FrameOk(w, t, th.stack[k], first);
    StepIsLater(w, t, o, first);
    FrameLater(w, w', t, t, th.stack[k], first);
    forall i | 0 <= i < |th.stack| ensures FrameOk(w', t, th.stack[i], first) {
      if i < k { LowerLater(w, t, o, first, i); }
    }
    ReturnedOk(w', t, th, first);
  }

  /** The thread that takes the step stays in order. */
  lemma OwnThreadOk(w: World, t: nat, o: Outcome, first: Handle -> Handle)
    requires CanStep(w, t) && w.threads[t].stack != [] && ThreadOk(w, t, first)
    requires SlotOk(w, Device, first) && SlotOk(w, Top(w.threads[t]).call.n, first)
    ensures ThreadOk(Step(w, t, o, first), t, first)
  {
    if Top(w.threads[t]).pc == Leave {
      ReturnKeepsThread(w, t, o, first);
    } else {
      var th, w' := w.threads[t], Step(w, t, o, first);
      assert FrameOk(w, t, th.stack[|th.stack| - 1], first);
      StepIsLater(w, t, o, first);
      NewTopOk(w, t, o, first);
      forall i | 0 <= i < |th.stack| - 1 ensures FrameOk(w', t, th.stack[i], first) && LinkAt(th.stack, i) {
        LowerLater(w, t, o, first, i);
      }
      RetopOk(w', t, th, NewTop(Top(th), At(w, Top(th).call.n)), Inner(Top(th)), first);
    }
  }

  lemma StillRuns(th: Thread, s: Slot, n: Name, i: nat)
    requires i < |th.stack| && Runs(th.stack[i], n) && (i == |th.stack| - 1 ==> th.stack[i].pc != Publish)
    ensures i < |NewThread(th, s).stack| && Runs(NewThread(th, s).stack[i], n)
  {
  }

  /** A running initialiser is still on its stack after a step. */
  lemma StillOwned(w: World, t: nat, o: Outcome, first: Handle -> Handle, n: Name)
    requires CanStep(w, t) && w.threads[t].stack != [] && FrameOk(w, t, Top(w.threads[t]), first) && Owned(w, n)
    ensures Owned(Step(w, t, o, first), n)
  {
    var th, w' := w.threads[t], Step(w, t, o, first);
    StepIsLater(w, t, o, first);
    if At(w', n).status.Active? {
      var u := At(w', n).status.owner;
      if At(w, n).status.Unset? {
        assert Top(th).call.n == n && u == t;
        assert Runs(w'.threads[t].stack[|th.stack| - 1], n);
      } else {
        assert At(w, n).status == At(w', n).status;
        var i :| 0 <= i < |w.threads[u].stack| && Runs(w.threads[u].stack[i], n);
        if u == t {
          StillRuns(th, At(w, Top(th).call.n), n, i);
        }
        assert Runs(w'.threads[u].stack[i], n);
      }
    }
  }

  lemma BeginKeepsInv(w: World, t: nat, o: Outcome, first: Handle -> Handle)
    requires Inv(w, first) && CanStep(w, t) && w.threads[t].stack == []
    ensures Inv(Step(w, t, o, first), first)
  {
    var w' := Step(w, t, o, first);
    assert ThreadOk(w, t, first);
    forall n ensures SlotOk(w', n, first) && Owned(w', n) {
      assert At(w', n) == At(w, n) && Owned(w, n);
      if At(w, n).status.Active? {
        var u := At(w, n).status.owner;
        var i :| 0 <= i < |w.threads[u].stack| && Runs(w.threads[u].stack[i], n);
        assert Runs(w'.threads[u].stack[i], n);
      }
    }
    forall u | 0 <= u < |w'.threads| ensures ThreadOk(w', u, first) {
      assert ThreadOk(w, u, first);
      if u != t { OthersLater(w, w', t, u, first); }
    }
  }

  /** Every step of every thread keeps the invariant. */
  lemma StepKeepsInv(w: World, t: nat, o: Outcome, first: Handle -> Handle)
    requires Inv(w, first) && CanStep(w, t)
    ensures Inv(Step(w, t, o, first), first)
  {
    if w.threads[t].stack == [] {
      BeginKeepsInv(w, t, o, first);
    } else {
      var w', n := Step(w, t, o, first), Top(w.threads[t]).call.n;
      assert ThreadOk(w, t, first) && SlotOk(w, n, first) && SlotOk(w, Device, first);
      assert FrameOk(w, t, Top(w.threads[t]), first);
      StepIsLater(w, t, o, first);
      OwnThreadOk(w, t, o, first);
      forall m ensures SlotOk(w', m, first) && Owned(w', m) {
        assert SlotOk(w, m, first) && Owned(w, m);
        StillOwned(w, t, o, first, m);
        if m != n && At(w, m).status.Done? { WellMadeLater(w, w', t, m, first); }
      }
      forall u | 0 <= u < |w'.threads| ensures ThreadOk(w', u, first) {
        if u != t {
          assert ThreadOk(w, u, first);
          OthersLater(w, w', t, u, first);
        }
      }
    }
  }

  // ------------------------------------------------------------- over whole runs

  /** No default exists yet and every thread has its program before it. */
  function Start(programs: seq<seq<Call>>): World {
    World(EMPTY, EMPTY, EMPTY, EMPTY, seq(|programs|, t requires 0 <= t < |programs| => Thread(programs[t], [], [])))
  }

  datatype Move = Move(t: nat, o: Outcome)

  /** Some interleaving: each move is by a thread that can go on. */
  predicate Goes(w: World, moves: seq<Move>, first: Handle -> Handle)
    decreases |moves|
  {
    moves != [] ==> CanStep(w, moves[0].t) && Goes(Step(w, moves[0].t, moves[0].o, first), moves[1..], first)
  }

  function Run(w: World, moves: seq<Move>, first: Handle -> Handle): World
    requires Goes(w, moves, first)
    decreases |moves|
  {
    if moves == [] then w else Run(Step(w, moves[0].t, moves[0].o, first), moves[1..], first)
  }

  lemma StartInv(programs: seq<seq<Call>>, first: Handle -> Handle)
    ensures Inv(Start(programs), first)
  {
    var w := Start(programs);
    forall n ensures SlotOk(w, n, first) && Owned(w, n) {
      assert At(w, n) == EMPTY;
    }
    forall t | 0 <= t < |w.threads| ensures ThreadOk(w, t, first) {
      assert w.threads[t] == Thread(programs[t], [], []);
    }
  }

  lemma {:induction false} RunKeepsInv(w: World, moves: seq<Move>, first: Handle -> Handle)
    requires Inv(w, first) && Goes(w, moves, first)
    ensures Inv(Run(w, moves, first), first)
    decreases |moves|
  {
    if moves == [] {
    } else {
      StepKeepsInv(w, moves[0].t, moves[0].o, first);
      RunKeepsInv(Step(w, moves[0].t, moves[0].o, first), moves[1..], first);
    }
  }

  /** A slot only ever moves forward, and the thread that initialises it is the one that completes it. */
  predicate Forward(s: Slot, s': Slot) {
    && (s.status.Done? ==> s' == s)
    && (s.status.Active? ==> s'.status == s.status || s'.status.Done?)
  }

  lemma StepIsForward(w: World, t: nat, o: Outcome, first: Handle -> Handle, n: Name)
    requires Inv(w, first) && CanStep(w, t)
    ensures Forward(At(w, n), At(Step(w, t, o, first), n))
  {
    assert ThreadOk(w, t, first);
    if w.threads[t].stack != [] {
      assert FrameOk(w, t, Top(w.threads[t]), first);
      StepIsLater(w, t, o, first);
    }
  }

  /** Once a slot is complete, nothing changes it again in any continuation. */
  lemma {:induction false} CompletedIsFinal(w: World, moves: seq<Move>, first: Handle -> Handle, n: Name)
    requires Inv(w, first) && Goes(w, moves, first)
    ensures Forward(At(w, n), At(Run(w, moves, first), n))
    decreases |moves|
  {
    if moves == [] {
    } else {
      StepIsForward(w, moves[0].t, moves[0].o, first, n);
      StepKeepsInv(w, moves[0].t, moves[0].o, first);
      CompletedIsFinal(Step(w, moves[0].t, moves[0].o, first), moves[1..], first, n);
    }
  }

  /** In any interleaving of any programs, each slot's initialiser runs at most once and it runs only if the slot leaves `Unset`. */
  lemma InitialisedAtMostOnce(programs: seq<seq<Call>>, moves: seq<Move>, first: Handle -> Handle, n: Name)
    requires Goes(Start(programs), moves, first)
    ensures var s := At(Run(Start(programs), moves, first), n);
            s.wins <= 1 && (s.wins == 0 <==> s.status.Unset?) && (s.wins == 0 ==> Untouched(s))
  {
    StartInv(programs, first);
    RunKeepsInv(Start(programs), moves, first);
    assert SlotOk(Run(Start(programs), moves, first), n, first);
  }

  /** All calls on a slot, `getDefault` or `setDefault`, of whichever thread, return the same value and error. */
  lemma AllCallsAgree(programs: seq<seq<Call>>, moves: seq<Move>, first: Handle -> Handle, t: nat, i: nat, u: nat, j: nat)
    requires Goes(Start(programs), moves, first)
    requires var w := Run(Start(programs), moves, first);
             && t < |w.threads| && i < |w.threads[t].log| && u < |w.threads| && j < |w.threads[u].log|
             && w.threads[t].log[i].call.n == w.threads[u].log[j].call.n
    ensures var w := Run(Start(programs), moves, first);
            && w.threads[t].log[i].value == w.threads[u].log[j].value
            && w.threads[t].log[i].error == w.threads[u].log[j].error
  {
    StartInv(programs, first);
    RunKeepsInv(Start(programs), moves, first);
    var w := Run(Start(programs), moves, first);
    assert ThreadOk(w, t, first) && ThreadOk(w, u, first);
    assert ResultOk(w, w.threads[t].log[i]) && ResultOk(w, w.threads[u].log[j]);
  }

  /** The `setDefault` whose value was taken gets that value back, and no error. */
  lemma WinnerGetsItsValueBack(programs: seq<seq<Call>>, moves: seq<Move>, first: Handle -> Handle, t: nat, i: nat)
    requires Goes(Start(programs), moves, first)
    requires var w := Run(Start(programs), moves, first);
             t < |w.threads| && i < |w.threads[t].log| && w.threads[t].log[i].call.Set? && w.threads[t].log[i].won
    ensures var r := Run(Start(programs), moves, first).threads[t].log[i]; r.value == r.call.v && r.error == CL_SUCCESS
  {
    StartInv(programs, first);
    RunKeepsInv(Start(programs), moves, first);
    var w := Run(Start(programs), moves, first);
    assert ThreadOk(w, t, first);
    assert ResultOk(w, w.threads[t].log[i]);
  }

  /**
  What a completed queue was made from, unless it was given: its context slot's error, or
  the completed context and device slots.  The initialiser does not look at the device's
  error, and need not: a device made or given beside a good context has none.
  */
  lemma QueueComesFromDefaults(programs: seq<seq<Call>>, moves: seq<Move>, first: Handle -> Handle)
    requires Goes(Start(programs), moves, first)
    requires Run(Start(programs), moves, first).q.status.Done? && Run(Start(programs), moves, first).q.origin != Given
    ensures var w := Run(Start(programs), moves, first);
            && w.c.status.Done?
            && (w.c.error != CL_SUCCESS ==> w.q.error == w.c.error && w.q.value == NULL)
            && (w.c.error == CL_SUCCESS ==>
                 w.d.status.Done? && w.d.error == CL_SUCCESS && w.q.origin == FromBoth(w.c.value, w.d.value)
                 && (w.d.origin != Given ==> w.d.value == first(w.c.value)))
  {
    StartInv(programs, first);
    RunKeepsInv(Start(programs), moves, first);
    var w := Run(Start(programs), moves, first);
    assert SlotOk(w, Queue, first) && SlotOk(w, Device, first);
  }

  /** A device made by default has the context's error, or is its first device; a platform's error is not passed on, only its null handle. */
  lemma ErrorsPassedOn(programs: seq<seq<Call>>, moves: seq<Move>, first: Handle -> Handle)
    requires Goes(Start(programs), moves, first)
    ensures var w := Run(Start(programs), moves, first);
            && (w.d.status.Done? && w.d.origin != Given ==>
                 && w.c.status.Done? && w.d.error == w.c.error
                 && (w.d.error == CL_SUCCESS ==> w.d.value == first(w.c.value)))
            && (w.c.status.Done? && w.c.origin != Given ==>
                 w.p.status.Done? && w.c.origin == FromPlatform(w.p.value) && (w.p.error != CL_SUCCESS ==> w.p.value == NULL))
  {
    StartInv(programs, first);
    RunKeepsInv(Start(programs), moves, first);
    var w := Run(Start(programs), moves, first);
    assert SlotOk(w, Queue, first) && SlotOk(w, Device, first) && SlotOk(w, Context, first) && SlotOk(w, Platform, first);
  }

  // --------------------------------------------------- no deadlock, and an end

  /** A call about to enter is for a slot none of the calls below it initialises. */
  lemma EntersAnotherSlot(w: World, t: nat, stack: seq<Frame>, first: Handle -> Handle, i: nat)
    requires StackOk(w, t, stack, first) && i < |stack| && stack[|stack| - 1].pc == Enter
    ensures !Runs(stack[i], stack[|stack| - 1].call.n)
  {
    if i < |stack| - 1 {
      RanksDescend(w, t, stack, first, i, |stack| - 1);
    }
  }

  /** No thread waits for an initialiser of its own. */
  lemma NeverWaitsForItself(w: World, t: nat, first: Handle -> Handle)
    requires Inv(w, first) && t < |w.threads| && w.threads[t].stack != [] && Top(w.threads[t]).pc == Enter
    ensures At(w, Top(w.threads[t]).call.n).status != Active(t)
  {
    var n, stack := Top(w.threads[t]).call.n, w.threads[t].stack;
    assert ThreadOk(w, t, first);
    forall i | 0 <= i < |stack| ensures !Runs(stack[i], n) {
      EntersAnotherSlot(w, t, stack, first, i);
    }
    assert Owned(w, n);
  }

  /** If some initialiser is running, some thread can go on: the one that runs it, or one that runs a slot of lower rank. */
  lemma {:induction false} RunnerGoesOn(w: World, n: Name, first: Handle -> Handle) returns (t: nat)
    requires Inv(w, first) && At(w, n).status.Active?
    ensures CanStep(w, t)
    decreases Rank(n)
  {
    t := At(w, n).status.owner;
    assert Owned(w, n);
    assert ThreadOk(w, t, first);
    var stack := w.threads[t].stack;
    var i :| 0 <= i < |stack| && Runs(stack[i], n);
    if !CanStep(w, t) {
      RanksDescend(w, t, stack, first, i, |stack| - 1);
      t := RunnerGoesOn(w, Top(w.threads[t]).call.n, first);
    }
  }

  predicate Finished(th: Thread) {
    th.stack == [] && th.todo == []
  }

  /** Until every thread has finished its program, some thread can go on. */
  lemma NoDeadlock(w: World, u: nat, first: Handle -> Handle) returns (t: nat)
    requires Inv(w, first) && u < |w.threads| && !Finished(w.threads[u])
    ensures CanStep(w, t)
  {
    t := u;
    if !CanStep(w, u) {
      t := RunnerGoesOn(w, Top(w.threads[u]).call.n, first);
    }
  }

  /** How many steps a call on a slot takes at most, with the calls it makes. */
  function Length(call: Call): nat {
    if call.Set? then 4 else
    match call.n
    case Platform => 4
    case Context => 9
    case Device => 14
    case Queue => 29
  }

  /** The steps left of a call, not counting those of a call it waits for. */
  function Left(f: Frame): nat {
    match f.pc
    case Leave => 1
    case Publish => 2
    case Build => 3
    case AwaitDevice => 3
    case Decide => 18
    case Await => if f.call.n == Queue then 18 else 3
    case Ask => Length(f.call) - 1
    case Enter => Length(f.call)
  }

  function StackLeft(stack: seq<Frame>): nat {
    if stack == [] then 0 else StackLeft(stack[..|stack| - 1]) + Left(stack[|stack| - 1])
  }

  function TodoLeft(todo: seq<Call>): nat {
    if todo == [] then 0 else 1 + Length(todo[0]) + TodoLeft(todo[1..])
  }

  function ThreadLeft(th: Thread): nat {
    StackLeft(th.stack) + TodoLeft(th.todo)
  }

  function AllLeft(threads: seq<Thread>): nat {
    if threads == [] then 0 else ThreadLeft(threads[0]) + AllLeft(threads[1..])
  }

  lemma {:induction false} AllLeftUpdate(threads: seq<Thread>, t: nat, th: Thread)
    requires t < |threads|
    ensures AllLeft(threads[t := th]) == AllLeft(threads) - ThreadLeft(threads[t]) + ThreadLeft(th)
  {
    if t == 0 {
      assert threads[t := th][1..] == threads[1..];
    } else {
      AllLeftUpdate(threads[1..], t - 1, th);
      assert threads[t := th][1..] == threads[1..][t - 1 := th];
    }
  }

  lemma RetopLeft(th: Thread, f: Frame, more: seq<Frame>)
    requires th.stack != [] && |more| <= 1
    ensures StackLeft(Retop(th, f, more).stack)
         == StackLeft(th.stack) - Left(Top(th)) + Left(f) + (if more == [] then 0 else Left(more[0]))
  {
    var base := th.stack[..|th.stack| - 1];
    assert (base + [f])[..|base|] == base;
    if more == [] {
      assert base + [f] + more == base + [f];
    } else {
      assert (base + [f] + more)[..|base| + 1] == base + [f];
    }
  }

  lemma TopUsesUp(f: Frame, s: Slot)
    requires f.pc != Leave && !Waiting(f.pc) && !(f.pc == Enter && s.status.Active?)
    requires f.pc == Ask ==> f.call.Get? && HasNeed(f.call.n)
    ensures Left(NewTop(f, s)) + (if Inner(f) == [] then 0 else Left(Inner(f)[0])) < Left(f)
  {
  }

  /** Every step of a call uses up some of what is left of its thread. */
  lemma CallUsesUp(w: World, t: nat, th: Thread, s: Slot, first: Handle -> Handle)
    requires th.stack != [] && StackOk(w, t, th.stack, first) && !(Top(th).pc == Enter && s.status.Active?)
    ensures StackLeft(NewThread(th, s).stack) < StackLeft(th.stack)
  {
    assert FrameOk(w, t, Top(th), first);
    if Top(th).pc == Leave {
      if |th.stack| >= 2 {
        assert LinkAt(th.stack, |th.stack| - 2);
        assert FrameOk(w, t, th.stack[|th.stack| - 2], first);
      }
    } else {
      TopUsesUp(Top(th), s);
      RetopLeft(th, NewTop(Top(th), s), Inner(Top(th)));
    }
  }

  lemma StepUsesUp(w: World, t: nat, o: Outcome, first: Handle -> Handle)
    requires Inv(w, first) && CanStep(w, t)
    ensures AllLeft(Step(w, t, o, first).threads) < AllLeft(w.threads)
  {
    var th, th' := w.threads[t], Step(w, t, o, first).threads[t];
    assert ThreadOk(w, t, first);
    AllLeftUpdate(w.threads, t, th');
    if th.stack == [] {
      assert th'.stack[..0] == [];
    } else {
      CallUsesUp(w, t, th, At(w, Top(th).call.n), first);
    }
  }

  /** No run is longer than what the programs have to do. */
  lemma {:induction false} RunsAreBounded(w: World, moves: seq<Move>, first: Handle -> Handle)
    requires Inv(w, first) && Goes(w, moves, first)
    ensures |moves| + AllLeft(Run(w, moves, first).threads) <= AllLeft(w.threads)
    decreases |moves|
  {
    if moves == [] {
    } else {
      StepUsesUp(w, moves[0].t, moves[0].o, first);
      StepKeepsInv(w, moves[0].t, moves[0].o, first);
      RunsAreBounded(Step(w, moves[0].t, moves[0].o, first), moves[1..], first);
    }
  }

  /**
  Every call returns: however the threads are interleaved, a run ends after at most as
  many steps as the programs allow, and it can only end with every program finished.
  */
  lemma EveryCallReturns(programs: seq<seq<Call>>, moves: seq<Move>, first: Handle -> Handle)
    requires Goes(Start(programs), moves, first)
    ensures |moves| <= AllLeft(Start(programs).threads)
    ensures var w := Run(Start(programs), moves, first);
            (forall t :: !CanStep(w, t)) <==> (forall u :: 0 <= u < |w.threads| ==> Finished(w.threads[u]))
  {
    StartInv(programs, first);
    RunKeepsInv(Start(programs), moves, first);
    RunsAreBounded(Start(programs), moves, first);
    var w := Run(Start(programs), moves, first);
    if u :| 0 <= u < |w.threads| && !Finished(w.threads[u]) {
      var t := NoDeadlock(w, u, first);
    }
  }
}
