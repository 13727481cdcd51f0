/**
Where the defaults of `DefaultInit` come from and who gets them: what is stored is the
runtime's answer to the one build call, and every call of every program is answered, in
order, with an error exactly if it asks for one.
*/
module DefaultAnswers {
  import opened Common
  import opened DefaultInit
  import opened DefaultLiveness

  // ------------------------------------------------------- what the runtime said

  /** Thread `t` is about to ask the runtime for singleton `w`; for the queue, with a published, good context in hand. */
  predicate Building(s: State, t: nat, w: Which) {
    t < |s.threads| &&
    match s.threads[t].activity
    case Idle => false
    case Running(call, p) =>
      if w.Context? then call.which.Context? && p.BuildContext?
      else call.which.Queue? && s.context.flag == DEFAULT_INITIALIZED && p == BuildQueue(Outcome(s.context.value, CL_SUCCESS))
    case Nested(_, p) => w.Context? && p.BuildContext?
  }

  /** A step that adds to what was built is the build call, made by the only winner, and adds the runtime's answer. */
  lemma BuiltByStep(s: State, t: nat, o: Outcome, w: Which)
    requires Inv(s) && t < |s.threads| && Step(s, t, o).At(w).built != s.At(w).built
    requires w.Queue? ==> s.context.error == CL_SUCCESS
    ensures Building(s, t, w) && Step(s, t, o).At(w).built == [o] && Step(s, t, o).At(w).winners == [t]
  {
    assert ThreadOk(s, t);
  }

  /** What was built stays built. */
  lemma BuiltStays(s: State, t: nat, o: Outcome, w: Which)
    requires Inv(s) && s.At(w).built != []
    ensures Step(s, t, o).At(w).built == s.At(w).built && Step(s, t, o).At(w).winners == s.At(w).winners
    ensures w.Queue? ==> Step(s, t, o).context == s.context
  {
    if t < |s.threads| {
      assert ThreadOk(s, t) && SlotOk(s, w);
    }
  }

  lemma {:induction false} BuildStep(programs: seq<seq<Call>>, schedule: seq<Choice>, w: Which) returns (k: nat)
    requires Run(programs, schedule).At(w).built != []
    requires w.Queue? ==> Run(programs, schedule).context.error == CL_SUCCESS
    ensures k < |schedule| && Building(Run(programs, schedule[..k]), schedule[k].thread, w)
    ensures Run(programs, schedule).At(w).built == [schedule[k].outcome]
    ensures Run(programs, schedule).At(w).winners == [schedule[k].thread]
    decreases |schedule|
  {
    var init := schedule[..|schedule| - 1];
    var s, c := Run(programs, init), schedule[|schedule| - 1];
    RunKeepsInv(programs, init);
    if s.At(w).built == [] {
      k := |init|;
      if w.Queue? {
        QueueBuildLeavesContext(s, c.thread, c.outcome);
      }
      BuiltByStep(s, c.thread, c.outcome, w);
    } else {
      BuiltStays(s, c.thread, c.outcome, w);
      k := BuildStep(programs, init, w);
      assert init[..k] == schedule[..k];
    }
  }

  lemma QueueBuildLeavesContext(s: State, t: nat, o: Outcome)
    requires Inv(s) && Step(s, t, o).queue.built != s.queue.built
    ensures Step(s, t, o).context == s.context
  {
  }

  /**
  The published pair is the runtime's answer: some step of the winner asked the runtime for
  this very singleton, for the queue with the published context, and was told just that.
  A queue on a failed context is the one case in which the runtime is not asked.
  */
  lemma StoredIsTheAnswer(programs: seq<seq<Call>>, schedule: seq<Choice>, w: Which) returns (k: nat)
    requires Run(programs, schedule).At(w).flag == DEFAULT_INITIALIZED
    requires w.Queue? ==> Run(programs, schedule).context.error == CL_SUCCESS
    ensures k < |schedule| && Building(Run(programs, schedule[..k]), schedule[k].thread, w)
    ensures var slot := Run(programs, schedule).At(w);
            slot.winners == [schedule[k].thread] && schedule[k].outcome == Outcome(slot.value, slot.error)
  {
    InitialisedAtMostOnce(programs, schedule, w);
    k := BuildStep(programs, schedule, w);
  }

  // ------------------------------------------------------------- who is answered

  /** A returned result answers a call: on that singleton, with an error if asked for. */
  predicate Answers(r: Returned, call: Call) {
    r.which == call.which && (r.error.Some? <==> call.wantsError)
  }

  function CallOf(a: Activity): seq<Call> {
    match a
    case Idle => []
    case Running(call, _) => [call]
    case Nested(outer, _) => [outer]
  }

  predicate LoadsWhatIsWanted(a: Activity) {
    a.Running? ==>
      && (a.phase.LoadError? ==> a.call.wantsError)
      && (a.phase.LoadValue? ==> (a.phase.loaded.Some? <==> a.call.wantsError))
  }

  /** The thread has answered the first calls of its program, is at the next, and has the rest before it. */
  predicate KeepsTo(thread: Thread, program: seq<Call>) {
    var n := |thread.returned|;
    && n <= |program| && program[n..] == CallOf(thread.activity) + thread.todo
    && (forall i :: 0 <= i < n ==> Answers(thread.returned[i], program[i]))
    && LoadsWhatIsWanted(thread.activity)
  }

  /** A thread that begins its next call, goes on with one, or returns from it, keeps to its program. */
  lemma KeepsOn(thread: Thread, thread': Thread, program: seq<Call>)
    requires KeepsTo(thread, program) && LoadsWhatIsWanted(thread'.activity)
    requires
      || (thread'.returned == thread.returned && CallOf(thread'.activity) + thread'.todo == CallOf(thread.activity) + thread.todo)
      || (&& thread'.todo == thread.todo && CallOf(thread'.activity) == [] && |CallOf(thread.activity)| == 1
          && exists r :: thread'.returned == thread.returned + [r] && Answers(r, CallOf(thread.activity)[0]))
    ensures KeepsTo(thread', program)
  {
    var n := |thread.returned|;
    if thread'.returned != thread.returned {
      assert program[n] == program[n..][0] == CallOf(thread.activity)[0];
      assert program[n + 1..] == program[n..][1..] == thread.todo;
    }
  }

  lemma StepKeepsTo(s: State, t: nat, o: Outcome, program: seq<Call>)
    requires Inv(s) && t < |s.threads| && KeepsTo(s.threads[t], program)
    ensures t < |Step(s, t, o).threads| && KeepsTo(Step(s, t, o).threads[t], program)
  {
    assert ThreadOk(s, t);
    var thread, thread' := s.threads[t], Step(s, t, o).threads[t];
    if thread.activity.Idle? && thread.todo != [] {
      assert thread.todo == [thread.todo[0]] + thread.todo[1..];
    }
    if |thread'.returned| > |thread.returned| {
      var r := thread'.returned[|thread.returned|];
      assert thread'.returned == thread.returned + [r] && Answers(r, thread.activity.call);
    }
    KeepsOn(thread, thread', program);
  }

  ghost predicate AllKeepTo(s: State, programs: seq<seq<Call>>) {
    |s.threads| == |programs| && forall t :: 0 <= t < |programs| ==> KeepsTo(s.threads[t], programs[t])
  }

  lemma StepKeepsAll(s: State, t: nat, o: Outcome, programs: seq<seq<Call>>)
    requires Inv(s) && AllKeepTo(s, programs)
    ensures AllKeepTo(Step(s, t, o), programs)
  {
    if t < |s.threads| {
      StepEvolves(s, t, o);
      StepKeepsTo(s, t, o, programs[t]);
    }
  }

  /** In every run every thread's results are answers to the calls of its program, in order. */
  lemma {:induction false} AnswersInOrder(programs: seq<seq<Call>>, schedule: seq<Choice>)
    ensures AllKeepTo(Run(programs, schedule), programs)
    decreases |schedule|
  {
    if schedule == [] {
    } else {
      var init, c := schedule[..|schedule| - 1], schedule[|schedule| - 1];
      AnswersInOrder(programs, init);
      RunKeepsInv(programs, init);
      StepKeepsAll(Run(programs, init), c.thread, c.outcome, programs);
    }
  }

  lemma {:induction false} BehaviourAnswersInOrder(programs: seq<seq<Call>>, run: nat -> State, schedule: nat -> Choice, n: nat)
    requires run(0) == Start(DEFAULT_NOT_INITIALIZED, DEFAULT_NOT_INITIALIZED, programs)
    requires forall i: nat :: Follows(run, schedule, i)
    ensures Inv(run(n)) && AllKeepTo(run(n), programs)
  {
    if n == 0 {
      StartInv(programs);
    } else {
      BehaviourAnswersInOrder(programs, run, schedule, n - 1);
      assert Follows(run, schedule, n - 1);
      StepKeepsInv(run(n - 1), schedule(n - 1).thread, schedule(n - 1).outcome);
      StepKeepsAll(run(n - 1), schedule(n - 1).thread, schedule(n - 1).outcome, programs);
    }
  }

  /** A thread's results answer its whole program. */
  predicate Complete(thread: Thread, program: seq<Call>) {
    |thread.returned| == |program| && forall i :: 0 <= i < |program| ==> Answers(thread.returned[i], program[i])
  }

  /** Under every fair schedule there comes a time when every call of every program has been answered. */
  lemma EveryCallAnswered(programs: seq<seq<Call>>, run: nat -> State, schedule: nat -> Choice)
    requires run(0) == Start(DEFAULT_NOT_INITIALIZED, DEFAULT_NOT_INITIALIZED, programs)
    requires forall i: nat :: Follows(run, schedule, i)
    requires Fair(schedule, |programs|)
    ensures exists n: nat :: |run(n).threads| == |programs|
              && forall t :: 0 <= t < |programs| ==> Complete(run(n).threads[t], programs[t])
  {
    EveryCallReturns(programs, run, schedule);
    var n: nat :| AllFinished(run(n));
    BehaviourAnswersInOrder(programs, run, schedule, n);
    forall t | 0 <= t < |programs|
      ensures Complete(run(n).threads[t], programs[t])
    {
      assert Finished(run(n).threads[t]) && KeepsTo(run(n).threads[t], programs[t]);
    }
  }
}
