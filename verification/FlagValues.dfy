/**
With which initial values of the two flags the protocol of `DefaultInit` works.  The
plain definitions in CL/cl.hpp start both at 1; the definitions for C++11 atomics give
them no value.
*/
module FlagValues {
  import opened Common
  import opened DefaultInit
  import opened DefaultLiveness

  /** What the protocol promises of one singleton in a state. */
  ghost predicate Promise(s: State, w: Which) {
    && |s.At(w).winners| <= 1 && s.At(w).stores <= 1
    && forall t, i :: 0 <= t < |s.threads| && 0 <= i < |s.threads[t].returned| ==>
         ReturnBuilt(s, s.threads[t].returned[i], w)
  }

  /** A call on the singleton returned what its initialiser built. */
  predicate ReturnBuilt(s: State, r: Returned, w: Which) {
    r.which == w ==> |s.At(w).built| == 1 && r.value == s.At(w).built[0].value
  }

  ghost predicate Live(s: State) {
    AllFinished(s) || exists u :: Advances(s, u)
  }

  /** The promise for both singletons, over all runs of a program image with the given flags. */
  ghost predicate Works(contextFlag: int, queueFlag: int) {
    forall programs: seq<seq<Call>>, schedule: seq<Choice> ::
      var s := Exec(Start(contextFlag, queueFlag, programs), schedule);
      Promise(s, Context) && Promise(s, Queue) && Live(s)
  }

  lemma PromiseKept(programs: seq<seq<Call>>, schedule: seq<Choice>, w: Which)
    ensures Promise(Run(programs, schedule), w)
  {
    var s := Run(programs, schedule);
    InitialisedAtMostOnce(programs, schedule, w);
    forall t, i | 0 <= t < |s.threads| && 0 <= i < |s.threads[t].returned|
      ensures ReturnBuilt(s, s.threads[t].returned[i], w)
    {
      ReturnsWhatTheWinnerBuilt(programs, schedule, t, i);
    }
  }

  lemma WorksFromOne()
    ensures Works(DEFAULT_NOT_INITIALIZED, DEFAULT_NOT_INITIALIZED)
  {
    forall programs: seq<seq<Call>>, schedule: seq<Choice>
      ensures var s := Exec(Start(DEFAULT_NOT_INITIALIZED, DEFAULT_NOT_INITIALIZED, programs), schedule);
              Promise(s, Context) && Promise(s, Queue) && Live(s)
    {
      var s := Run(programs, schedule);
      PromiseKept(programs, schedule, Context);
      PromiseKept(programs, schedule, Queue);
      RunKeepsInv(programs, schedule);
      if !AllFinished(s) {
        var t: nat :| t < |s.threads| && !Finished(s.threads[t]);
        var u := SomebodyAdvances(s, t);
      }
    }
  }

  /** The flag of singleton `w` in an image. */
  function FlagOf(contextFlag: int, queueFlag: int, w: Which): int {
    if w.Context? then contextFlag else queueFlag
  }

  /** One thread that makes one call, after its first step and its swap. */
  lemma AfterSwap(contextFlag: int, queueFlag: int, w: Which, c: Choice)
    requires c.thread == 0 && FlagOf(contextFlag, queueFlag, w) != DEFAULT_NOT_INITIALIZED
    requires HasBit(FlagOf(contextFlag, queueFlag, w), DEFAULT_INITIALIZED)
          || HasBit(FlagOf(contextFlag, queueFlag, w), DEFAULT_BEING_INITIALIZED)
    ensures var flag := FlagOf(contextFlag, queueFlag, w);
            var s := Exec(Start(contextFlag, queueFlag, [[Call(w, false)]]), [c, c]);
            && s.context == FreshSlot(contextFlag) && s.queue == FreshSlot(queueFlag)
            && s.threads == [Thread([], Running(Call(w, false),
                                                if HasBit(flag, DEFAULT_INITIALIZED) then LoadValue(None) else Spin), [])]
  {
    var s := Start(contextFlag, queueFlag, [[Call(w, false)]]);
    assert [] + [c] == [c] && [c] + [c] == [c, c];
    assert [Call(w, false)][1..] == [];
    assert Exec(s, [c]).threads == [Thread([], Running(Call(w, false), Swap), [])];
  }

  /** A flag that starts with the 4 bit set makes a call return something nobody built. */
  lemma BreaksWithInitializedBit(contextFlag: int, queueFlag: int, w: Which)
    requires HasBit(FlagOf(contextFlag, queueFlag, w), DEFAULT_INITIALIZED)
    ensures !Works(contextFlag, queueFlag)
  {
    var c := Choice(0, Outcome(NULL, CL_SUCCESS));
    var s := Start(contextFlag, queueFlag, [[Call(w, false)]]);
    AfterSwap(contextFlag, queueFlag, w, c);
    var s3 := Exec(s, [c, c] + [c]);
    assert s3.threads[0].returned == [Returned(w, NULL, None)];
    assert !ReturnBuilt(s3, s3.threads[0].returned[0], w);
    assert !Promise(s3, w);
  }

  /** A flag that starts with the 2 bit but not the 4 bit makes every caller wait for ever. */
  lemma BreaksWithBeingInitializedBit(contextFlag: int, queueFlag: int, w: Which)
    requires HasBit(FlagOf(contextFlag, queueFlag, w), DEFAULT_BEING_INITIALIZED)
    requires !HasBit(FlagOf(contextFlag, queueFlag, w), DEFAULT_INITIALIZED)
    ensures !Works(contextFlag, queueFlag)
  {
    var c := Choice(0, Outcome(NULL, CL_SUCCESS));
    AfterSwap(contextFlag, queueFlag, w, c);
    var s2 := Exec(Start(contextFlag, queueFlag, [[Call(w, false)]]), [c, c]);
    assert s2.At(w).flag != DEFAULT_INITIALIZED;
    assert !Finished(s2.threads[0]) && forall u :: !Advances(s2, u);
    assert !Live(s2);
  }

  /** Where a caller is once it has entered the initialising path of `w`. */
  function Entered(w: Which): Activity {
    if w.Context? then Running(Call(w, false), BuildContext) else Nested(Call(w, false), Swap)
  }

  /** Two threads that make one call each on `w`. */
  function TwoCallers(w: Which): seq<seq<Call>> {
    [[Call(w, false)], [Call(w, false)]]
  }

  /** A caller whose swap fails on a flag with neither bit enters the initialising path. */
  lemma FallsThrough(s: State, t: nat, w: Which, o: Outcome, o': Outcome)
    requires t < |s.threads| && s.threads[t] == Thread([Call(w, false)], Idle, [])
    requires !HasBit(s.At(w).flag, DEFAULT_BEING_INITIALIZED) && !HasBit(s.At(w).flag, DEFAULT_INITIALIZED)
    requires s.At(w).flag != DEFAULT_NOT_INITIALIZED
    ensures Step(Step(s, t, o), t, o')
         == s.With(w, s.At(w).(winners := s.At(w).winners + [t])).WithThread(t, Thread([], Entered(w), []))
  {
    var s1 := Step(s, t, o);
    assert [Call(w, false)][1..] == [];
    assert s1 == s.WithThread(t, Thread([], Running(Call(w, false), Swap), []));
    assert s1.threads[t := Thread([], Entered(w), [])] == s.threads[t := Thread([], Entered(w), [])];
  }

  /** Any other start value than 1 with neither bit, 0 say, lets two threads enter. */
  lemma TwoEnter(contextFlag: int, queueFlag: int, w: Which, a: Choice, b: Choice)
    requires !HasBit(FlagOf(contextFlag, queueFlag, w), DEFAULT_BEING_INITIALIZED)
    requires !HasBit(FlagOf(contextFlag, queueFlag, w), DEFAULT_INITIALIZED)
    requires FlagOf(contextFlag, queueFlag, w) != DEFAULT_NOT_INITIALIZED && a.thread == 0 && b.thread == 1
    ensures var s := Exec(Start(contextFlag, queueFlag, TwoCallers(w)), [a, a, b, b]);
            && s.At(w) == FreshSlot(FlagOf(contextFlag, queueFlag, w)).(winners := [0, 1])
            && s.threads == [Thread([], Entered(w), []), Thread([], Entered(w), [])]
  {
    var s := Start(contextFlag, queueFlag, TwoCallers(w));
    var s2 := Exec(s, [a, a]);
    ExecTwo(s, [], a);
    ExecTwo(s, [a, a], b);
    assert [] + [a, a] == [a, a] && [a, a] + [b, b] == [a, a, b, b];
    assert Exec(s, []) == s;
    FallsThrough(s, 0, w, a.outcome, a.outcome);
    FallsThrough(s2, 1, w, b.outcome, b.outcome);
  }

  lemma ExecTwo(s: State, schedule: seq<Choice>, c: Choice)
    ensures Exec(s, schedule + [c, c]) == Step(Step(Exec(s, schedule), c.thread, c.outcome), c.thread, c.outcome)
  {
    assert schedule + [c] + [c] == schedule + [c, c];
  }

  /** An initialiser past the swap builds and stores, whatever the flag says. */
  lemma BuildAndStore(s: State, t: nat, c: Choice) returns (s': State)
    requires t < |s.threads| && c.thread == t
    requires s.threads[t].activity == Running(Call(Context, false), BuildContext)
    ensures s' == Step(Step(s, t, c.outcome), t, c.outcome)
    ensures s'.context == s.context.(built := s.context.built + [c.outcome], value := c.outcome.value,
                                     stores := s.context.stores + 1)
    ensures |s'.threads| == |s.threads| && forall u :: 0 <= u < |s.threads| && u != t ==> s'.threads[u] == s.threads[u]
  {
    s' := Step(Step(s, t, c.outcome), t, c.outcome);
  }

  /**
  So an image with a context flag of 0, whatever its queue flag, has runs that build two
  contexts and assign the default twice.
  */
  lemma BreaksWithNeitherBit(contextFlag: int, queueFlag: int, v0: Handle, v1: Handle)
    returns (programs: seq<seq<Call>>, schedule: seq<Choice>)
    requires !HasBit(contextFlag, DEFAULT_BEING_INITIALIZED) && !HasBit(contextFlag, DEFAULT_INITIALIZED)
    requires contextFlag != DEFAULT_NOT_INITIALIZED
    ensures var slot := Exec(Start(contextFlag, queueFlag, programs), schedule).context;
            && slot.stores == 2 && slot.winners == [0, 1]
            && slot.built == [Outcome(v0, CL_SUCCESS), Outcome(v1, CL_SUCCESS)]
  {
    var a := Choice(0, Outcome(v0, CL_SUCCESS));
    var b := Choice(1, Outcome(v1, CL_SUCCESS));
    programs := TwoCallers(Context);
    var s := Start(contextFlag, queueFlag, programs);
    var entered := [a, a, b, b];
    TwoEnter(contextFlag, queueFlag, Context, a, b);
    var s6 := BuildAndStore(Exec(s, entered), 0, a);
    var s8 := BuildAndStore(s6, 1, b);
    ExecTwo(s, entered, a);
    ExecTwo(s, entered + [a, a], b);
    schedule := entered + [a, a] + [b, b];
  }

  /** Whichever singleton's flag does not start at 1 breaks the promise. */
  lemma BreaksUnlessOne(contextFlag: int, queueFlag: int, w: Which)
    requires FlagOf(contextFlag, queueFlag, w) != DEFAULT_NOT_INITIALIZED
    ensures !Works(contextFlag, queueFlag)
  {
    if HasBit(FlagOf(contextFlag, queueFlag, w), DEFAULT_INITIALIZED) {
      BreaksWithInitializedBit(contextFlag, queueFlag, w);
    } else if HasBit(FlagOf(contextFlag, queueFlag, w), DEFAULT_BEING_INITIALIZED) {
      BreaksWithBeingInitializedBit(contextFlag, queueFlag, w);
    } else {
      var a, b := Choice(0, Outcome(NULL, CL_SUCCESS)), Choice(1, Outcome(NULL, CL_SUCCESS));
      TwoEnter(contextFlag, queueFlag, w, a, b);
      assert !Promise(Exec(Start(contextFlag, queueFlag, TwoCallers(w)), [a, a, b, b]), w);
    }
  }

  /** The protocol keeps its promise exactly for images in which both flags start at NOT_INITIALIZED. */
  lemma WorksOnlyFromNotInitialized(contextFlag: int, queueFlag: int)
    ensures Works(contextFlag, queueFlag)
       <==> contextFlag == DEFAULT_NOT_INITIALIZED && queueFlag == DEFAULT_NOT_INITIALIZED
  {
    if contextFlag != DEFAULT_NOT_INITIALIZED {
      BreaksUnlessOne(contextFlag, queueFlag, Context);
    } else if queueFlag != DEFAULT_NOT_INITIALIZED {
      BreaksUnlessOne(contextFlag, queueFlag, Queue);
    } else {
      WorksFromOne();
    }
  }
}
