/**
The one-time initialisation of the default `Context` and the default
`CommandQueue` in CL/cl.hpp, as a state machine over any number of threads.

Each singleton is guarded by a flag that is compare-and-swapped from 1 to 2 by
the first caller and set to 4 once the value and its error are stored; everybody
else spins on the flag.  The queue's initialiser calls `Context::getDefault`
while it holds the queue flag at 2, so the two protocols nest.

Memory is sequentially consistent and exceptions are off (`errHandler` returns).
One step is one access to shared memory, or one call into the OpenCL runtime.
*/
module DefaultInit {
  import opened Common

  const DEFAULT_NOT_INITIALIZED := 1
  const DEFAULT_BEING_INITIALIZED := 2
  const DEFAULT_INITIALIZED := 4

  /** What a runtime constructor call yields: the handle and the error code. */
  datatype Outcome = Outcome(value: Handle, error: int)

  datatype Which = Context | Queue

  /** A call of `getDefault`; `wantsError` says whether the `err` pointer is non-null. */
  datatype Call = Call(which: Which, wantsError: bool)

  /** Where a call of `getDefault` stands: the next access it performs. */
  datatype Phase =
    | Swap
    | Spin
    | BuildContext
    | BuildQueue(context: Outcome)
    | StoreValue(outcome: Outcome)
    | StoreError(error: int)
    | Publish
    | LoadError
    | LoadValue(loaded: Option<int>)

  /** `Nested` is a queue initialiser inside its own `Context::getDefault(&error)`. */
  datatype Activity =
    | Idle
    | Running(call: Call, phase: Phase)
    | Nested(outer: Call, inner: Phase)

  datatype Returned = Returned(which: Which, value: Handle, error: Option<int>)

  datatype Thread = Thread(todo: seq<Call>, activity: Activity, returned: seq<Returned>)

  /**
  One singleton: `default_initialized_`, `default_`, `default_error_`.  The other
  fields are history: who entered the initialising path, what each of them
  built, and how often `default_` was assigned.
  */
  datatype Slot = Slot(flag: int, value: Handle, error: int,
                       winners: seq<nat>, built: seq<Outcome>, stores: nat)

  datatype State = State(context: Slot, queue: Slot, threads: seq<Thread>) {
    function At(w: Which): Slot {
      if w.Context? then context else queue
    }

    function With(w: Which, slot: Slot): State {
      if w.Context? then this.(context := slot) else this.(queue := slot)
    }

    function WithThread(t: nat, thread: Thread): State
      requires t < |threads|
    {
      this.(threads := threads[t := thread])
    }
  }

  // ---------------------------------------------------------------- the code

  /** `compare_exchange`: the new cell content and the value seen. */
  function CompareExchange(cell: int, exchange: int, comparand: int): (int, int) {
    (if cell == comparand then exchange else cell, cell)
  }

  /** `x & bit` for a power of two, on two's-complement integers. */
  predicate HasBit(x: int, bit: int)
    requires bit > 0
  {
    (x / bit) % 2 == 1
  }

  /** The first of the final reads: `*err = default_error_` is skipped when `err` is null. */
  function Load(wantsError: bool): Phase {
    if wantsError then LoadError else LoadValue(None)
  }

  /** What one step of a call does next. */
  datatype Next = Go(phase: Phase) | CallContext | Return(value: Handle, error: Option<int>)

  /** One access of thread `t`, at phase `p` of a `getDefault` on singleton `w`. */
  function Access(slot: Slot, w: Which, wantsError: bool, p: Phase, t: nat, o: Outcome): (Slot, Next) {
    match p
    case Swap =>
      var (flag, seen) := CompareExchange(slot.flag, DEFAULT_BEING_INITIALIZED, DEFAULT_NOT_INITIALIZED);
      if HasBit(seen, DEFAULT_INITIALIZED) then (slot.(flag := flag), Go(Load(wantsError)))
      else if HasBit(seen, DEFAULT_BEING_INITIALIZED) then (slot.(flag := flag), Go(Spin))
      else (slot.(flag := flag, winners := slot.winners + [t]),
            if w.Context? then Go(BuildContext) else CallContext)
    case Spin =>
      (slot, Go(if slot.flag == DEFAULT_INITIALIZED then Load(wantsError) else Spin))
    case BuildContext =>
      (slot.(built := slot.built + [o]), Go(StoreValue(o)))
    case BuildQueue(context) =>
      if context.error != CL_SUCCESS then
        (slot.(built := slot.built + [Outcome(NULL, context.error)]), Go(StoreError(context.error)))
      else
        (slot.(built := slot.built + [o]), Go(StoreValue(o)))
    case StoreValue(outcome) =>
      (slot.(value := outcome.value, stores := slot.stores + 1), Go(StoreError(outcome.error)))
    case StoreError(error) =>
      (slot.(error := error), Go(Publish))
    case Publish =>
      (slot.(flag := DEFAULT_INITIALIZED), Go(Load(wantsError)))
    case LoadError =>
      (slot, Go(LoadValue(Some(slot.error))))
    case LoadValue(loaded) =>
      (slot, Return(slot.value, loaded))
  }

  /** Thread `t` takes its next step; `o` is what the runtime answers if it is asked. */
  function Step(s: State, t: nat, o: Outcome): State {
    if t >= |s.threads| then s else
    var thread := s.threads[t];
    match thread.activity
    case Idle =>
      if thread.todo == [] then s
      else s.WithThread(t, thread.(todo := thread.todo[1..], activity := Running(thread.todo[0], Swap)))
    case Running(call, phase) =>
      var (slot, next) := Access(s.At(call.which), call.which, call.wantsError, phase, t, o);
      var thread' := match next
        case Go(p) => thread.(activity := Running(call, p))
        case CallContext => thread.(activity := Nested(call, Swap))
        case Return(v, e) => thread.(activity := Idle,
                                     returned := thread.returned + [Returned(call.which, v, e)]);
      s.With(call.which, slot).WithThread(t, thread')
    case Nested(outer, phase) =>
      var (slot, next) := Access(s.context, Context, true, phase, t, o);
      var thread' := match next
        case Go(p) => thread.(activity := Nested(outer, p))
        case CallContext => thread
        case Return(v, e) =>
          thread.(activity := Running(outer, BuildQueue(Outcome(v, if e.Some? then e.value else CL_SUCCESS))));
      s.With(Context, slot).WithThread(t, thread')
  }

  /** A scheduling decision: who runs, and what the runtime answers. */
  datatype Choice = Choice(thread: nat, outcome: Outcome)

  function Exec(s: State, schedule: seq<Choice>): State
    decreases |schedule|
  {
    if schedule == [] then s
    else
      var last := schedule[|schedule| - 1];
      Step(Exec(s, schedule[..|schedule| - 1]), last.thread, last.outcome)
  }

  function FreshSlot(flag: int): Slot {
    Slot(flag, NULL, CL_SUCCESS, [], [], 0)
  }

  /** All threads idle with the given programs, the flags as the program image defines them. */
  function Start(contextFlag: int, queueFlag: int, programs: seq<seq<Call>>): State {
    State(FreshSlot(contextFlag), FreshSlot(queueFlag),
          seq(|programs|, i requires 0 <= i < |programs| => Thread(programs[i], Idle, [])))
  }

  // ----------------------------------------------------------- the invariant

  predicate InitialisingPhase(p: Phase) {
    p.BuildContext? || p.BuildQueue? || p.StoreValue? || p.StoreError? || p.Publish?
  }

  predicate ReadingPhase(p: Phase) {
    p.LoadError? || p.LoadValue?
  }

  /** The thread is on the path that writes singleton `w`. */
  predicate Initialising(a: Activity, w: Which) {
    match a
    case Idle => false
    case Running(call, p) => call.which == w && InitialisingPhase(p)
    case Nested(_, p) => w.Queue? || InitialisingPhase(p)
  }

  /** The thread is about to read `default_error_` or `default_` of singleton `w`. */
  predicate Reading(a: Activity, w: Which) {
    match a
    case Idle => false
    case Running(call, p) => call.which == w && ReadingPhase(p)
    case Nested(_, p) => w.Context? && ReadingPhase(p)
  }

  /** What being at phase `p` of a call on `slot` tells about the slot. */
  predicate PhaseOk(slot: Slot, p: Phase, t: nat) {
    match p
    case Swap => true
    case Spin => slot.flag != DEFAULT_NOT_INITIALIZED
    case BuildContext => Held(slot, t) && slot.built == []
    case BuildQueue(_) => Held(slot, t) && slot.built == []
    case StoreValue(o) => Held(slot, t) && slot.built == [o] && slot.stores == 0
    case StoreError(e) => Held(slot, t) && slot.built == [Outcome(slot.value, e)]
    case Publish => Held(slot, t) && slot.built == [Outcome(slot.value, slot.error)]
    case LoadError => slot.flag == DEFAULT_INITIALIZED
    case LoadValue(e) => slot.flag == DEFAULT_INITIALIZED && (e.Some? ==> e.value == slot.error)
  }

  predicate Held(slot: Slot, t: nat) {
    slot.flag == DEFAULT_BEING_INITIALIZED && slot.winners == [t]
  }

  predicate ActivityOk(s: State, a: Activity, t: nat) {
    match a
    case Idle => true
    case Running(call, p) =>
      && PhaseOk(s.At(call.which), p, t)
      && (p.BuildContext? ==> call.which.Context?)
      && (p.BuildQueue? ==>
            && call.which.Queue?
            && s.context.flag == DEFAULT_INITIALIZED
            && p.context == Outcome(s.context.value, s.context.error))
      && (p.StoreValue? && call.which.Queue? ==>
            s.context.flag == DEFAULT_INITIALIZED && s.context.error == CL_SUCCESS)
    case Nested(outer, p) =>
      && outer.which.Queue?
      && Held(s.queue, t) && s.queue.built == []
      && !p.BuildQueue? && (p.LoadValue? ==> p.loaded.Some?)
      && PhaseOk(s.context, p, t)
  }

  /** A returned result is the published one. */
  predicate ReturnOk(s: State, r: Returned) {
    var slot := s.At(r.which);
    && slot.flag == DEFAULT_INITIALIZED
    && r.value == slot.value
    && (r.error.Some? ==> r.error.value == slot.error)
  }

  predicate ThreadOk(s: State, t: nat)
    requires t < |s.threads|
  {
    && ActivityOk(s, s.threads[t].activity, t)
    && forall i :: 0 <= i < |s.threads[t].returned| ==> ReturnOk(s, s.threads[t].returned[i])
  }

  predicate SlotShape(slot: Slot) {
    && (slot.built == [] ==> slot.value == NULL && slot.error == CL_SUCCESS && slot.stores == 0)
    && slot.stores <= 1
    && (|| slot == FreshSlot(DEFAULT_NOT_INITIALIZED)
        || (slot.flag == DEFAULT_BEING_INITIALIZED && |slot.winners| == 1)
        || (slot.flag == DEFAULT_INITIALIZED && |slot.winners| == 1
            && slot.built == [Outcome(slot.value, slot.error)]))
  }

  /** While the flag is 2, the winner is on its way to publishing. */
  predicate HolderBusy(s: State, w: Which) {
    var slot := s.At(w);
    slot.flag == DEFAULT_BEING_INITIALIZED && |slot.winners| == 1 ==>
      slot.winners[0] < |s.threads| && Initialising(s.threads[slot.winners[0]].activity, w)
  }

  predicate SlotOk(s: State, w: Which) {
    SlotShape(s.At(w)) && HolderBusy(s, w)
  }

  /** The queue is built only on a published context, and inherits its error. */
  predicate QueueFollowsContext(s: State) {
    s.queue.built != [] ==>
      && s.context.flag == DEFAULT_INITIALIZED
      && (s.context.error != CL_SUCCESS ==>
            && s.queue.built == [Outcome(NULL, s.context.error)]
            && s.queue.stores == 0 && s.queue.value == NULL)
  }

  ghost predicate Inv(s: State) {
    && SlotOk(s, Context) && SlotOk(s, Queue)
    && QueueFollowsContext(s)
    && forall t :: 0 <= t < |s.threads| ==> ThreadOk(s, t)
  }

  lemma StartInv(programs: seq<seq<Call>>)
    ensures Inv(Start(DEFAULT_NOT_INITIALIZED, DEFAULT_NOT_INITIALIZED, programs))
  {
  }

  /** What an access by thread `t` may do to a slot. */
  predicate Evolves(slot: Slot, slot': Slot, t: nat) {
    || slot' == slot
    || (slot.flag == DEFAULT_NOT_INITIALIZED && Held(slot', t))
    || (Held(slot, t) && (Held(slot', t) || slot'.flag == DEFAULT_INITIALIZED))
  }

  lemma AccessEvolves(slot: Slot, w: Which, wantsError: bool, p: Phase, t: nat, o: Outcome)
    requires SlotShape(slot) && PhaseOk(slot, p, t)
    ensures var (slot', next) := Access(slot, w, wantsError, p, t, o);
            && SlotShape(slot') && Evolves(slot, slot', t)
            && match next
               case Go(p') => PhaseOk(slot', p', t) && (slot' != slot && Held(slot', t) ==> InitialisingPhase(p'))
               case CallContext => w.Queue? && slot.flag == DEFAULT_NOT_INITIALIZED && Held(slot', t) && slot'.built == []
               case Return(v, e) =>
                 && slot' == slot && slot.flag == DEFAULT_INITIALIZED && v == slot.value
                 && p == LoadValue(e) && (e.Some? ==> e.value == slot.error)
  {
  }

  lemma PhaseStable(slot: Slot, slot': Slot, t: nat, p: Phase, u: nat)
    requires u != t && Evolves(slot, slot', t) && PhaseOk(slot, p, u)
    ensures PhaseOk(slot', p, u)
  {
  }

  /** The parts of a step every thread can rely on. */
  lemma StepEvolves(s: State, t: nat, o: Outcome)
    requires Inv(s) && t < |s.threads|
    ensures var s' := Step(s, t, o);
            && |s'.threads| == |s.threads|
            && (forall u :: 0 <= u < |s.threads| && u != t ==> s'.threads[u] == s.threads[u])
            && SlotShape(s'.context) && Evolves(s.context, s'.context, t)
            && SlotShape(s'.queue) && Evolves(s.queue, s'.queue, t)
  {
    assert ThreadOk(s, t);
    match s.threads[t].activity
    case Idle =>
    case Running(call, p) =>
      AccessEvolves(s.At(call.which), call.which, call.wantsError, p, t, o);
    case Nested(outer, p) =>
      AccessEvolves(s.context, Context, true, p, t, o);
  }

  lemma OthersStable(s: State, t: nat, o: Outcome, u: nat)
    requires Inv(s) && t < |s.threads| && u < |s.threads| && u != t
    ensures var s' := Step(s, t, o); u < |s'.threads| && ThreadOk(s', u)
  {
    StepEvolves(s, t, o);
    assert ThreadOk(s, u);
    var s' := Step(s, t, o);
    match s.threads[u].activity
    case Idle =>
    case Running(call, p) =>
      PhaseStable(s.At(call.which), s'.At(call.which), t, p, u);
    case Nested(outer, p) =>
      PhaseStable(s.context, s'.context, t, p, u);
  }

  lemma RunningActivityOk(s: State, t: nat, o: Outcome)
    requires Inv(s) && t < |s.threads| && s.threads[t].activity.Running?
    ensures var s' := Step(s, t, o); t < |s'.threads| && ActivityOk(s', s'.threads[t].activity, t)
  {
    assert ThreadOk(s, t);
    var Running(call, p) := s.threads[t].activity;
    AccessEvolves(s.At(call.which), call.which, call.wantsError, p, t, o);
  }

  lemma RunningReturnsOk(s: State, t: nat, o: Outcome, i: nat)
    requires Inv(s) && t < |s.threads| && s.threads[t].activity.Running?
    requires |Step(s, t, o).threads| == |s.threads| && i < |Step(s, t, o).threads[t].returned|
    ensures var s' := Step(s, t, o); ReturnOk(s', s'.threads[t].returned[i])
  {
    assert ThreadOk(s, t);
    var Running(call, p) := s.threads[t].activity;
    AccessEvolves(s.At(call.which), call.which, call.wantsError, p, t, o);
    if i < |s.threads[t].returned| {
      StepEvolves(s, t, o);
      assert ReturnOk(s, s.threads[t].returned[i]);
    }
  }

  lemma RunningSelfOk(s: State, t: nat, o: Outcome)
    requires Inv(s) && t < |s.threads| && s.threads[t].activity.Running?
    ensures var s' := Step(s, t, o); t < |s'.threads| && ThreadOk(s', t)
  {
    StepEvolves(s, t, o);
    RunningActivityOk(s, t, o);
    var s' := Step(s, t, o);
    forall i | 0 <= i < |s'.threads[t].returned|
      ensures ReturnOk(s', s'.threads[t].returned[i])
    {
      RunningReturnsOk(s, t, o, i);
    }
  }

  lemma NestedSelfOk(s: State, t: nat, o: Outcome)
    requires Inv(s) && t < |s.threads| && s.threads[t].activity.Nested?
    ensures var s' := Step(s, t, o); t < |s'.threads| && ThreadOk(s', t)
  {
    StepEvolves(s, t, o);
    assert ThreadOk(s, t);
    AccessEvolves(s.context, Context, true, s.threads[t].activity.inner, t, o);
    var s' := Step(s, t, o);
    forall i | 0 <= i < |s'.threads[t].returned|
      ensures ReturnOk(s', s'.threads[t].returned[i])
    {
      assert ReturnOk(s, s.threads[t].returned[i]);
    }
  }

  /** A thread in the initialising path of a singleton leaves it only by publishing. */
  lemma InitialiserGoesOn(s: State, t: nat, o: Outcome, w: Which)
    requires Inv(s) && t < |s.threads| && Initialising(s.threads[t].activity, w)
    ensures var s' := Step(s, t, o);
            t < |s'.threads| && (s'.At(w).flag == DEFAULT_INITIALIZED || Initialising(s'.threads[t].activity, w))
  {
    assert ThreadOk(s, t);
  }

  /** A thread that raises the flag is in that path. */
  lemma WinnerInitialises(s: State, t: nat, o: Outcome, w: Which)
    requires Inv(s) && t < |s.threads| && s.At(w).flag == DEFAULT_NOT_INITIALIZED
    requires Step(s, t, o).At(w).flag == DEFAULT_BEING_INITIALIZED
    ensures var s' := Step(s, t, o); t < |s'.threads| && Initialising(s'.threads[t].activity, w)
  {
    assert ThreadOk(s, t);
  }

  lemma HolderStaysBusy(s: State, t: nat, o: Outcome, w: Which)
    requires Inv(s) && t < |s.threads|
    ensures HolderBusy(Step(s, t, o), w)
  {
    StepEvolves(s, t, o);
    assert HolderBusy(s, w);
    if s.At(w).flag == DEFAULT_NOT_INITIALIZED && Step(s, t, o).At(w).flag == DEFAULT_BEING_INITIALIZED {
      WinnerInitialises(s, t, o, w);
    } else if Initialising(s.threads[t].activity, w) {
      InitialiserGoesOn(s, t, o, w);
    }
  }

  lemma QueueStillFollows(s: State, t: nat, o: Outcome)
    requires Inv(s) && t < |s.threads|
    ensures QueueFollowsContext(Step(s, t, o))
  {
    StepEvolves(s, t, o);
    assert ThreadOk(s, t);
  }

  /** Every step of every thread keeps the invariant, whatever the runtime answers. */
  lemma StepKeepsInv(s: State, t: nat, o: Outcome)
    requires Inv(s)
    ensures Inv(Step(s, t, o))
  {
    if t < |s.threads| {
      StepEvolves(s, t, o);
      HolderStaysBusy(s, t, o, Context);
      HolderStaysBusy(s, t, o, Queue);
      QueueStillFollows(s, t, o);
      var s' := Step(s, t, o);
      forall u | 0 <= u < |s'.threads| && u != t
        ensures ThreadOk(s', u)
      {
        OthersStable(s, t, o, u);
      }
      match s.threads[t].activity
      case Idle => assert ThreadOk(s, t);
      case Running(_, _) => RunningSelfOk(s, t, o);
      case Nested(_, _) => NestedSelfOk(s, t, o);
    }
  }

  // ---------------------------------------------------- safety of every run

  lemma {:induction false} RunKeepsInv(programs: seq<seq<Call>>, schedule: seq<Choice>)
    ensures Inv(Exec(Start(DEFAULT_NOT_INITIALIZED, DEFAULT_NOT_INITIALIZED, programs), schedule))
    decreases |schedule|
  {
    if schedule == [] {
      StartInv(programs);
    } else {
      var last := schedule[|schedule| - 1];
      RunKeepsInv(programs, schedule[..|schedule| - 1]);
      StepKeepsInv(Exec(Start(DEFAULT_NOT_INITIALIZED, DEFAULT_NOT_INITIALIZED, programs), schedule[..|schedule| - 1]),
                   last.thread, last.outcome);
    }
  }

  /** The state of a run from the intended start after `schedule`. */
  function Run(programs: seq<seq<Call>>, schedule: seq<Choice>): State {
    Exec(Start(DEFAULT_NOT_INITIALIZED, DEFAULT_NOT_INITIALIZED, programs), schedule)
  }

  /**
  In every interleaving at most one thread ever enters the initialising path of
  a singleton, `default_` is assigned at most once, and the flag tells exactly
  how far that is.
  */
  lemma InitialisedAtMostOnce(programs: seq<seq<Call>>, schedule: seq<Choice>, w: Which)
    ensures var slot := Run(programs, schedule).At(w);
            && |slot.winners| <= 1 && |slot.built| <= 1 && slot.stores <= 1
            && slot.flag in {DEFAULT_NOT_INITIALIZED, DEFAULT_BEING_INITIALIZED, DEFAULT_INITIALIZED}
            && (slot.flag == DEFAULT_NOT_INITIALIZED <==> slot.winners == [])
            && (slot.flag == DEFAULT_INITIALIZED ==> slot.built == [Outcome(slot.value, slot.error)])
  {
    RunKeepsInv(programs, schedule);
    var s := Run(programs, schedule);
    assert SlotOk(s, w);
    var slot := s.At(w);
    if slot.flag == DEFAULT_BEING_INITIALIZED {
      assert ThreadOk(s, slot.winners[0]);
    }
  }

  predicate Succeeds(flag: int, flag': int) {
    || flag' == flag
    || (flag == DEFAULT_NOT_INITIALIZED && flag' == DEFAULT_BEING_INITIALIZED)
    || (flag == DEFAULT_BEING_INITIALIZED && flag' == DEFAULT_INITIALIZED)
  }

  /** One more step of any run leaves a flag alone, or takes it from 1 to 2, or from 2 to 4. */
  lemma FlagMovesInOrder(programs: seq<seq<Call>>, schedule: seq<Choice>, t: nat, o: Outcome, w: Which)
    ensures Succeeds(Run(programs, schedule).At(w).flag, Step(Run(programs, schedule), t, o).At(w).flag)
  {
    RunKeepsInv(programs, schedule);
    if t < |Run(programs, schedule).threads| {
      StepEvolves(Run(programs, schedule), t, o);
    }
  }

  /** A singleton goes on: its flag only rises, one winner sees it through, and once published nothing changes. */
  predicate Forward(slot: Slot, slot': Slot) {
    && slot.flag <= slot'.flag
    && (slot.flag == DEFAULT_BEING_INITIALIZED && slot'.flag == DEFAULT_BEING_INITIALIZED ==> slot'.winners == slot.winners)
    && (slot.flag == DEFAULT_INITIALIZED ==> slot' == slot)
  }

  lemma {:induction false} OnlyForward(programs: seq<seq<Call>>, schedule: seq<Choice>, more: seq<Choice>, w: Which)
    ensures Forward(Run(programs, schedule).At(w), Run(programs, schedule + more).At(w))
    decreases |more|
  {
    if more == [] {
      assert schedule + more == schedule;
    } else {
      var last := more[|more| - 1];
      var init := more[..|more| - 1];
      OnlyForward(programs, schedule, init, w);
      assert (schedule + more)[..|schedule + more| - 1] == schedule + init;
      RunKeepsInv(programs, schedule + init);
      var s := Run(programs, schedule + init);
      if last.thread < |s.threads| {
        StepEvolves(s, last.thread, last.outcome);
      }
    }
  }

  /** A published singleton never changes again, however the run goes on. */
  lemma PublishedIsFinal(programs: seq<seq<Call>>, schedule: seq<Choice>, more: seq<Choice>, w: Which)
    requires Run(programs, schedule).At(w).flag == DEFAULT_INITIALIZED
    ensures Run(programs, schedule + more).At(w) == Run(programs, schedule).At(w)
  {
    OnlyForward(programs, schedule, more, w);
  }

  /** No thread reads a singleton's value or error while another is still writing them. */
  lemma NoReadDuringWrite(programs: seq<seq<Call>>, schedule: seq<Choice>, w: Which, t: nat, u: nat)
    requires t < |Run(programs, schedule).threads| && u < |Run(programs, schedule).threads|
    requires Reading(Run(programs, schedule).threads[t].activity, w)
    ensures !Initialising(Run(programs, schedule).threads[u].activity, w)
  {
    RunKeepsInv(programs, schedule);
    var s := Run(programs, schedule);
    assert ThreadOk(s, t) && ThreadOk(s, u);
  }

  /**
  Whatever path a call returns on, it returns what the one initialiser built;
  so any two calls return the same handle, and the same error if they ask for it.
  */
  lemma ReturnsWhatTheWinnerBuilt(programs: seq<seq<Call>>, schedule: seq<Choice>, t: nat, i: nat)
    requires t < |Run(programs, schedule).threads| && i < |Run(programs, schedule).threads[t].returned|
    ensures var s := Run(programs, schedule);
            var r := s.threads[t].returned[i];
            && |s.At(r.which).built| == 1
            && r.value == s.At(r.which).built[0].value
            && (r.error.Some? ==> r.error.value == s.At(r.which).built[0].error)
  {
    RunKeepsInv(programs, schedule);
    var s := Run(programs, schedule);
    assert ThreadOk(s, t);
    assert ReturnOk(s, s.threads[t].returned[i]);
    assert SlotOk(s, s.threads[t].returned[i].which);
  }

  /** A failed default context makes the default queue fail with the same error, and stay null. */
  lemma QueueInheritsContextError(programs: seq<seq<Call>>, schedule: seq<Choice>)
    requires Run(programs, schedule).queue.flag == DEFAULT_INITIALIZED
    ensures var s := Run(programs, schedule);
            && s.context.flag == DEFAULT_INITIALIZED
            && (s.context.error != CL_SUCCESS ==> s.queue.error == s.context.error && s.queue.value == NULL)
  {
    RunKeepsInv(programs, schedule);
    assert SlotOk(Run(programs, schedule), Queue);
  }
}
