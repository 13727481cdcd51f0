/** The protocol of `DefaultInit` never stops short: some thread can usefully step, and every call returns. */
module DefaultLiveness {
  import opened Common
  import opened DefaultInit

  /** The next step of thread `t` is neither a turn of the spin loop nor a rest after its last call. */
  predicate Advances(s: State, t: nat) {
    t < |s.threads| &&
    match s.threads[t].activity
    case Idle => s.threads[t].todo != []
    case Running(call, p) => p.Spin? ==> s.At(call.which).flag == DEFAULT_INITIALIZED
    case Nested(_, p) => p.Spin? ==> s.context.flag == DEFAULT_INITIALIZED
  }

  predicate Finished(thread: Thread) {
    thread.activity.Idle? && thread.todo == []
  }

  predicate AllFinished(s: State) {
    forall t :: 0 <= t < |s.threads| ==> Finished(s.threads[t])
  }

  function PhaseWork(p: Phase): nat {
    match p
    case Swap => 8
    case BuildContext => 7
    case BuildQueue(_) => 7
    case StoreValue(_) => 6
    case StoreError(_) => 5
    case Publish => 4
    case Spin => 3
    case LoadError => 2
    case LoadValue(_) => 1
  }

  /** How many useful steps a thread may still take. */
  function ThreadWork(thread: Thread): nat {
    17 * |thread.todo| +
    match thread.activity
    case Idle => 0
    case Running(_, p) => if p.Swap? then 16 else PhaseWork(p)
    case Nested(_, p) => 7 + PhaseWork(p)
  }

  function Work(threads: seq<Thread>): nat {
    if threads == [] then 0 else ThreadWork(threads[0]) + Work(threads[1..])
  }

  lemma {:induction false} WorkUpdate(threads: seq<Thread>, t: nat, thread: Thread)
    requires t < |threads|
    ensures Work(threads[t := thread]) == Work(threads) - ThreadWork(threads[t]) + ThreadWork(thread)
  {
    if t == 0 {
      assert threads[t := thread][1..] == threads[1..];
    } else {
      WorkUpdate(threads[1..], t - 1, thread);
      assert threads[t := thread][1..] == threads[1..][t - 1 := thread];
    }
  }

  lemma AdvanceLowersWork(s: State, t: nat, o: Outcome)
    requires Advances(s, t)
    ensures var s' := Step(s, t, o);
            |s'.threads| == |s.threads| && s'.threads == s.threads[t := s'.threads[t]]
            && ThreadWork(s'.threads[t]) < ThreadWork(s.threads[t])
  {
  }

  /** A step either is wasted, and changes nothing, or lowers the work left. */
  lemma StepWorksOrWaits(s: State, t: nat, o: Outcome)
    ensures Advances(s, t) ==> Work(Step(s, t, o).threads) < Work(s.threads)
    ensures !Advances(s, t) ==> Step(s, t, o) == s
  {
    if Advances(s, t) {
      AdvanceLowersWork(s, t, o);
      WorkUpdate(s.threads, t, Step(s, t, o).threads[t]);
    } else {
    }
  }

  /** Deadlock freedom: as long as a call is unfinished, some thread can usefully step. */
  lemma SomebodyAdvances(s: State, t: nat) returns (u: nat)
    requires Inv(s) && t < |s.threads| && !Finished(s.threads[t])
    ensures Advances(s, u)
  {
    u := t;
    assert ThreadOk(s, u);
    if !Advances(s, u) {
      var w := if s.threads[u].activity.Running? then s.threads[u].activity.call.which else Context;
      assert SlotOk(s, w);
      u := s.At(w).winners[0];
      assert ThreadOk(s, u);
      if !Advances(s, u) {
        assert SlotOk(s, Context);
        u := s.context.winners[0];
      }
    }
  }

  /** No step of another thread can put a thread that could advance back to waiting. */
  lemma AdvanceIsStable(s: State, t: nat, u: nat, o: Outcome)
    requires Inv(s) && Advances(s, t) && u != t
    ensures Advances(Step(s, u, o), t)
  {
  }

  /** The `n`-th step of an infinite run is the one its schedule names. */
  ghost predicate Follows(run: nat -> State, schedule: nat -> Choice, n: nat) {
    run(n + 1) == Step(run(n), schedule(n).thread, schedule(n).outcome)
  }

  ghost predicate Behaviour(run: nat -> State, schedule: nat -> Choice) {
    Inv(run(0)) && forall n: nat :: Follows(run, schedule, n)
  }

  ghost predicate RunsFrom(schedule: nat -> Choice, t: nat, i: nat) {
    exists j: nat :: j >= i && schedule(j).thread == t
  }

  /** Every thread gets its turn again and again. */
  ghost predicate Fair(schedule: nat -> Choice, threads: nat) {
    forall t: nat, i: nat :: t < threads ==> RunsFrom(schedule, t, i)
  }

  lemma {:induction false} BehaviourKeepsInv(run: nat -> State, schedule: nat -> Choice, n: nat)
    requires Behaviour(run, schedule)
    ensures Inv(run(n)) && |run(n).threads| == |run(0).threads|
  {
    if n == 0 {
    } else {
      BehaviourKeepsInv(run, schedule, n - 1);
      assert Follows(run, schedule, n - 1);
      StepKeepsInv(run(n - 1), schedule(n - 1).thread, schedule(n - 1).outcome);
    }
  }

  lemma {:induction false} WorkNeverGrows(run: nat -> State, schedule: nat -> Choice, i: nat, j: nat)
    requires Behaviour(run, schedule) && i <= j
    ensures Work(run(j).threads) <= Work(run(i).threads)
  {
    if i < j {
      WorkNeverGrows(run, schedule, i, j - 1);
      assert Follows(run, schedule, j - 1);
      StepWorksOrWaits(run(j - 1), schedule(j - 1).thread, schedule(j - 1).outcome);
    }
  }

  /** One turn: a thread that can advance does so if it is its turn, and can still do so if it is not. */
  lemma Turn(run: nat -> State, schedule: nat -> Choice, i: nat, t: nat)
    requires Behaviour(run, schedule) && Advances(run(i), t)
    ensures schedule(i).thread == t ==> Work(run(i + 1).threads) < Work(run(i).threads)
    ensures schedule(i).thread != t ==> Advances(run(i + 1), t)
  {
    BehaviourKeepsInv(run, schedule, i);
    assert Follows(run, schedule, i);
    if schedule(i).thread == t {
      StepWorksOrWaits(run(i), t, schedule(i).outcome);
    } else {
      AdvanceIsStable(run(i), t, schedule(i).thread, schedule(i).outcome);
    }
  }

  /** A thread that can advance at `i` and is scheduled at `j` has advanced by then. */
  lemma {:induction false} WorkIsDone(run: nat -> State, schedule: nat -> Choice, i: nat, j: nat, t: nat)
    requires Behaviour(run, schedule) && i <= j && schedule(j).thread == t
    requires Advances(run(i), t)
    ensures Work(run(j + 1).threads) < Work(run(i).threads)
    decreases j - i
  {
    Turn(run, schedule, i, t);
    if schedule(i).thread == t {
      WorkNeverGrows(run, schedule, i + 1, j + 1);
    } else {
      WorkIsDone(run, schedule, i + 1, j, t);
      WorkNeverGrows(run, schedule, i, i + 1);
    }
  }

  lemma {:induction false} FinishesFrom(run: nat -> State, schedule: nat -> Choice, i: nat) returns (n: nat)
    requires Behaviour(run, schedule) && Fair(schedule, |run(0).threads|)
    ensures AllFinished(run(n))
    decreases Work(run(i).threads)
  {
    BehaviourKeepsInv(run, schedule, i);
    if AllFinished(run(i)) {
      n := i;
    } else {
      var t: nat :| t < |run(i).threads| && !Finished(run(i).threads[t]);
      var u := SomebodyAdvances(run(i), t);
      assert RunsFrom(schedule, u, i);
      var j: nat :| j >= i && schedule(j).thread == u;
      WorkIsDone(run, schedule, i, j, u);
      n := FinishesFrom(run, schedule, j + 1);
    }
  }

  /**
  Under every fair schedule every call of both functions returns, for any number
  of threads making any sequences of calls, nested waiting included.
  */
  lemma EveryCallReturns(programs: seq<seq<Call>>, run: nat -> State, schedule: nat -> Choice)
    requires run(0) == Start(DEFAULT_NOT_INITIALIZED, DEFAULT_NOT_INITIALIZED, programs)
    requires forall n: nat :: Follows(run, schedule, n)
    requires Fair(schedule, |programs|)
    ensures exists n: nat :: AllFinished(run(n))
  {
    StartInv(programs);
    var n := FinishesFrom(run, schedule, 0);
  }
}
