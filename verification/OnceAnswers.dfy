/**
Where the defaults of `OnceSlots` come from and who gets them: what is stored is what the
runtime answered, or what a `setDefault` passed, and every call of every program is answered
in order.
*/
module OnceAnswers {
  import opened Common
  import opened OnceSlots

  // ---------------------------------------------------------- the step that wrote

  /** The call thread `t` is in. */
  predicate Busy(w: World, t: nat) {
    t < |w.threads| && w.threads[t].stack != []
  }

  /** A slot that has been written keeps its value and error. */
  lemma WrittenStays(w: World, t: nat, o: Outcome, first: Handle -> Handle, n: Name)
    requires Inv(w, first) && CanStep(w, t) && !Untouched(At(w, n))
    ensures var s, s' := At(w, n), At(Step(w, t, o, first), n);
            s'.value == s.value && s'.error == s.error && s'.origin == s.origin
  {
    assert ThreadOk(w, t, first);
    if w.threads[t].stack != [] {
      assert FrameOk(w, t, Top(w.threads[t]), first);
    }
  }

  lemma {:induction false} WrittenIsFinal(w: World, moves: seq<Move>, first: Handle -> Handle, n: Name)
    requires Inv(w, first) && Goes(w, moves, first) && !Untouched(At(w, n))
    ensures var s, s' := At(w, n), At(Run(w, moves, first), n);
            s'.value == s.value && s'.error == s.error && s'.origin == s.origin
    decreases |moves|
  {
    if moves == [] {
    } else {
      WrittenStays(w, moves[0].t, moves[0].o, first, n);
      StepKeepsInv(w, moves[0].t, moves[0].o, first);
      WrittenIsFinal(Step(w, moves[0].t, moves[0].o, first), moves[1..], first, n);
    }
  }

  /** A run in two parts. */
  lemma {:induction false} Parts(w: World, xs: seq<Move>, ys: seq<Move>, first: Handle -> Handle)
    requires Goes(w, xs + ys, first)
    ensures Goes(w, xs, first) && Goes(Run(w, xs, first), ys, first)
    ensures Run(Run(w, xs, first), ys, first) == Run(w, xs + ys, first)
    decreases |xs|
  {
    if xs == [] {
      assert xs + ys == ys;
    } else {
      var w' := Step(w, xs[0].t, xs[0].o, first);
      assert (xs + ys)[1..] == xs[1..] + ys && (xs + ys)[0] == xs[0];
      Parts(w', xs[1..], ys, first);
    }
  }

  /** A run cut after `k` moves. */
  lemma Cut(w: World, moves: seq<Move>, first: Handle -> Handle, k: nat)
    requires Goes(w, moves, first) && k <= |moves|
    ensures Goes(w, moves[..k], first) && Goes(Run(w, moves[..k], first), moves[k..], first)
    ensures Run(Run(w, moves[..k], first), moves[k..], first) == Run(w, moves, first)
    ensures k < |moves| ==> CanStep(Run(w, moves[..k], first), moves[k].t)
  {
    assert moves == moves[..k] + moves[k..];
    Parts(w, moves[..k], moves[k..], first);
  }

  /**
  Move `k` of the run wrote slot `n`: it found the slot untouched, was made by a thread at the
  writing point of a call on that slot, and left what the slot has held ever since.
  */
  ghost predicate WroteAt(w: World, moves: seq<Move>, first: Handle -> Handle, n: Name, k: nat)
    requires Goes(w, moves, first)
  {
    && k < |moves| && Goes(w, moves[..k], first)
    && var u := Run(w, moves[..k], first);
    && CanStep(u, moves[k].t) && Busy(u, moves[k].t) && Inv(u, first) && Untouched(At(u, n))
    && var f := Top(u.threads[moves[k].t]);
    && f.call.n == n && (f.pc == Build || f.pc == Decide)
    && var s, s' := At(Run(w, moves, first), n), At(Step(u, moves[k].t, moves[k].o, first), n);
    && !Untouched(s') && s'.value == s.value && s'.error == s.error && s'.origin == s.origin
  }

  lemma WriterIsAtWork(w: World, t: nat, o: Outcome, first: Handle -> Handle, n: Name)
    requires Inv(w, first) && CanStep(w, t) && Untouched(At(w, n)) && !Untouched(At(Step(w, t, o, first), n))
    ensures Busy(w, t) && Top(w.threads[t]).call.n == n
    ensures Top(w.threads[t]).pc == Build || Top(w.threads[t]).pc == Decide
  {
    assert ThreadOk(w, t, first);
  }

  lemma {:induction false} FindWrite(w: World, moves: seq<Move>, first: Handle -> Handle, n: Name) returns (k: nat)
    requires Inv(w, first) && Goes(w, moves, first)
    requires Untouched(At(w, n)) && !Untouched(At(Run(w, moves, first), n))
    ensures WroteAt(w, moves, first, n, k)
    decreases |moves|
  {
    var w', rest := Step(w, moves[0].t, moves[0].o, first), moves[1..];
    StepKeepsInv(w, moves[0].t, moves[0].o, first);
    if Untouched(At(w', n)) {
      var j := FindWrite(w', rest, first, n);
      k := j + 1;
      Cut(w, moves, first, k);
      assert moves[..k][1..] == rest[..j] && moves[..k][0] == moves[0];
      assert Run(w, moves[..k], first) == Run(w', rest[..j], first);
    } else {
      k := 0;
      WriterIsAtWork(w, moves[0].t, moves[0].o, first, n);
      WrittenIsFinal(w', rest, first, n);
      assert moves[..0] == [];
    }
  }

  lemma FindWriteFromStart(programs: seq<seq<Call>>, moves: seq<Move>, first: Handle -> Handle, n: Name) returns (k: nat)
    requires Goes(Start(programs), moves, first) && At(Run(Start(programs), moves, first), n).status.Done?
    ensures WroteAt(Start(programs), moves, first, n, k)
  {
    StartInv(programs, first);
    RunKeepsInv(Start(programs), moves, first);
    var w := Run(Start(programs), moves, first);
    assert SlotOk(w, n, first);
    k := FindWrite(Start(programs), moves, first, n);
  }

  // ------------------------------------------------------ what the runtime said

  /** In world `w`, thread `t` is about to ask the runtime for the default of `n`, with what its initialiser was given. */
  predicate Asking(w: World, t: nat, n: Name) {
    && Busy(w, t)
    && var f := Top(w.threads[t]);
    && f.call == Get(n) && f.pc == Build
    && (n == Context ==> w.p.status.Done? && f.a == w.p.value)
    && (n == Queue ==> && w.c.status.Done? && w.c.error == CL_SUCCESS && f.a == w.c.value
                       && w.d.status.Done? && w.d.error == CL_SUCCESS && f.d == w.d.value)
  }

  /** What the runtime's answer makes of a slot: a failed query for platforms leaves it null. */
  predicate Holds(s: Slot, n: Name, o: Outcome) {
    if n == Platform then s.error == o.error && s.value == (if o.error == CL_SUCCESS then o.value else NULL)
    else o == Outcome(s.value, s.error)
  }

  lemma WriteIsTheAnswer(w: World, t: nat, o: Outcome, first: Handle -> Handle, n: Name)
    requires Inv(w, first) && CanStep(w, t) && Busy(w, t) && Untouched(At(w, n)) && n != Device
    requires var f := Top(w.threads[t]); f.call.n == n && (f.pc == Build || f.pc == Decide)
    requires var s' := At(Step(w, t, o, first), n); !Untouched(s') && s'.origin != Given
    requires n == Queue ==> w.c.error == CL_SUCCESS
    ensures Asking(w, t, n) && Holds(At(Step(w, t, o, first), n), n, o)
  {
    assert ThreadOk(w, t, first);
    assert FrameOk(w, t, Top(w.threads[t]), first);
    assert SlotOk(w, Device, first);
  }

  /** A queue that has been written was written beside a completed context. */
  lemma ContextKeepsItsError(w: World, moves: seq<Move>, first: Handle -> Handle, k: nat)
    requires Goes(w, moves, first) && WroteAt(w, moves, first, Queue, k) && Inv(w, first)
    requires At(Run(w, moves, first), Queue).origin != Given
    ensures Run(w, moves[..k], first).c.error == Run(w, moves, first).c.error
  {
    var u, t, o := Run(w, moves[..k], first), moves[k].t, moves[k].o;
    assert ThreadOk(u, t, first);
    assert FrameOk(u, t, Top(u.threads[t]), first);
    Cut(w, moves, first, k);
    CompletedIsFinal(u, moves[k..], first, Context);
  }

  /**
  A completed platform, context or queue that nobody provided holds the runtime's answer: some
  move was by a thread asking the runtime for this very slot, with the platform, or with the
  good context and device, that the slots hold, and was answered just that.  A queue beside a
  failed context is the one case in which the runtime is not asked.
  */
  lemma {:induction false} StoredIsTheAnswer(programs: seq<seq<Call>>, moves: seq<Move>, first: Handle -> Handle, n: Name) returns (k: nat)
    requires Goes(Start(programs), moves, first) && n != Device
    requires var w := Run(Start(programs), moves, first);
             && At(w, n).status.Done? && At(w, n).origin != Given
             && (n == Queue ==> w.c.error == CL_SUCCESS)
    ensures k < |moves| && Goes(Start(programs), moves[..k], first)
    ensures Asking(Run(Start(programs), moves[..k], first), moves[k].t, n)
    ensures Holds(At(Run(Start(programs), moves, first), n), n, moves[k].o)
  {
    k := FindWriteFromStart(programs, moves, first, n);
    if n == Queue {
      StartInv(programs, first);
      ContextKeepsItsError(Start(programs), moves, first, k);
    }
    WriteIsTheAnswer(Run(Start(programs), moves[..k], first), moves[k].t, moves[k].o, first, n);
  }

  /** A provided default is what some `setDefault` passed, and has no error. */
  lemma {:induction false} GivenWasPassed(programs: seq<seq<Call>>, moves: seq<Move>, first: Handle -> Handle, n: Name) returns (k: nat)
    requires Goes(Start(programs), moves, first)
    requires var s := At(Run(Start(programs), moves, first), n); s.status.Done? && s.origin == Given
    ensures k < |moves| && Goes(Start(programs), moves[..k], first)
    ensures var u, s := Run(Start(programs), moves[..k], first), At(Run(Start(programs), moves, first), n);
            Busy(u, moves[k].t) && Top(u.threads[moves[k].t]).call == Set(n, s.value) && s.error == CL_SUCCESS
  {
    k := FindWriteFromStart(programs, moves, first, n);
  }

  // ------------------------------------------------------------- who is answered

  function Outermost(th: Thread): seq<Call> {
    if th.stack == [] then [] else [th.stack[0].call]
  }

  /** The thread has answered the first calls of its program, is at the next, and has the rest before it. */
  predicate KeepsTo(th: Thread, program: seq<Call>) {
    var n := |th.log|;
    && n <= |program| && program[n..] == Outermost(th) + th.todo
    && forall i :: 0 <= i < n ==> th.log[i].call == program[i]
  }

  ghost predicate AllKeepTo(w: World, programs: seq<seq<Call>>) {
    |w.threads| == |programs| && forall t :: 0 <= t < |programs| ==> KeepsTo(w.threads[t], programs[t])
  }

  lemma CallKeepsTo(th: Thread, s: Slot, program: seq<Call>)
    requires th.stack != [] && KeepsTo(th, program)
    ensures KeepsTo(NewThread(th, s), program)
  {
    var n := |th.log|;
    assert program[n] == th.stack[0].call && program[n + 1..] == program[n..][1..] == th.todo;
  }

  lemma StepKeepsAll(w: World, t: nat, o: Outcome, first: Handle -> Handle, programs: seq<seq<Call>>)
    requires CanStep(w, t) && AllKeepTo(w, programs)
    ensures AllKeepTo(Step(w, t, o, first), programs)
  {
    var th := w.threads[t];
    assert KeepsTo(th, programs[t]);
    if th.stack == [] {
      assert th.todo == [th.todo[0]] + th.todo[1..];
    } else {
      CallKeepsTo(th, At(w, Top(th).call.n), programs[t]);
    }
  }

  lemma {:induction false} RunKeepsAll(w: World, moves: seq<Move>, first: Handle -> Handle, programs: seq<seq<Call>>)
    requires Goes(w, moves, first) && AllKeepTo(w, programs)
    ensures AllKeepTo(Run(w, moves, first), programs)
    decreases |moves|
  {
    if moves == [] {
    } else {
      StepKeepsAll(w, moves[0].t, moves[0].o, first, programs);
      RunKeepsAll(Step(w, moves[0].t, moves[0].o, first), moves[1..], first, programs);
    }
  }

  /** In every run the results of a thread answer the calls of its program in order, and all of them once nobody can go on. */
  lemma EveryCallAnswered(programs: seq<seq<Call>>, moves: seq<Move>, first: Handle -> Handle, t: nat)
    requires Goes(Start(programs), moves, first) && t < |programs|
    ensures var w := Run(Start(programs), moves, first);
            && |w.threads| == |programs| && |w.threads[t].log| <= |programs[t]|
            && (forall i :: 0 <= i < |w.threads[t].log| ==> w.threads[t].log[i].call == programs[t][i])
            && ((forall u :: !CanStep(w, u)) ==> |w.threads[t].log| == |programs[t]|)
  {
    RunKeepsAll(Start(programs), moves, first, programs);
    EveryCallReturns(programs, moves, first);
    var w := Run(Start(programs), moves, first);
    assert KeepsTo(w.threads[t], programs[t]);
  }
}
