/** internal/proposal/pipeline.go: the bounded scheduler, as a step relation over every interleaving.

    One main thread walks the plans; at each it either takes a semaphore slot and starts a worker, or, once the
    context is done, writes the context error into the plan's result slot. A worker stores its result, gives its
    slot back and reports to the wait group. The main thread returns when the wait group is empty. */
module Scheduler {
  import opened Common

  datatype Slot<R> = Indexed | ContextError | Stored(result: R)

  datatype Worker = Idle | Running | HasStored | HasReleased | Finished

  /** `AtSelect(i)`: about to select for plan `i`; `Holding(i)`: took a slot, has not started the worker yet. */
  datatype Main = AtSelect(next: nat) | Holding(next: nat) | Waiting | Returned

  datatype State<R> = State(
    main: Main, semaphore: nat, waitGroup: nat, canceled: bool, workers: seq<Worker>, slots: seq<Slot<R>>)

  /** What the pipeline of plan `i` may answer, under whatever context it sees. */
  type Answers<!R> = (nat, R) -> bool

  /** The limit normalisation in front of the loop. */
  function EffectiveLimit(concurrency: int, plans: nat): (limit: nat)
    ensures plans > 0 ==> 1 <= limit <= plans
    ensures concurrency > 0 ==> limit <= concurrency && (limit == concurrency || limit == plans)
    ensures concurrency <= 0 ==> limit == plans
  {
    if concurrency <= 0 || concurrency > plans then plans else concurrency
  }

  predicate Init<R(==)>(s: State<R>, n: nat) {
    s == State(AtSelect(0), 0, 0, s.canceled, seq(n, _ => Idle), seq(n, _ => Indexed))
  }

  datatype Step<R> =
    | Cancel | Acquire | SkipPlan | Spawn | LoopEnd | Return
    | Store(i: nat, result: R) | Release(i: nat) | Report(i: nat)

  /** The steps that are possible in a state. */
  ghost predicate Enabled<R>(s: State<R>, step: Step<R>, limit: nat, answers: Answers<R>) {
    var n := |s.workers|;
    match step
    case Cancel => !s.canceled
    case Acquire => s.main.AtSelect? && s.main.next < n && s.semaphore < limit
    case SkipPlan => s.main.AtSelect? && s.main.next < n && s.canceled
    case Spawn => s.main.Holding?
    case LoopEnd => s.main.AtSelect? && s.main.next >= n
    case Return => s.main == Waiting && s.waitGroup == 0
    case Store(i, r) => i < n && s.workers[i] == Running && answers(i, r)
    case Release(i) => i < n && s.workers[i] == HasStored && s.semaphore > 0
    case Report(i) => i < n && s.workers[i] == HasReleased && s.waitGroup > 0
  }

  /** Indices stay in range: part of what makes a step executable at all. */
  predicate Shaped<R>(s: State<R>, n: nat) {
    && |s.workers| == |s.slots| == n
    && (s.main.AtSelect? ==> s.main.next <= n)
    && (s.main.Holding? ==> s.main.next < n)
  }

  ghost function Apply<R>(s: State<R>, step: Step<R>, limit: nat, answers: Answers<R>): State<R>
    requires Shaped(s, |s.workers|) && Enabled(s, step, limit, answers)
  {
    match step
    case Cancel => s.(canceled := true)
    case Acquire => s.(main := Holding(s.main.next), semaphore := s.semaphore + 1)
    case SkipPlan => s.(main := AtSelect(s.main.next + 1), slots := s.slots[s.main.next := ContextError])
    case Spawn => s.(main := AtSelect(s.main.next + 1), waitGroup := s.waitGroup + 1,
                     workers := s.workers[s.main.next := Running])
    case LoopEnd => s.(main := Waiting)
    case Return => s.(main := Returned)
    case Store(i, r) => s.(workers := s.workers[i := HasStored], slots := s.slots[i := Stored(r)])
    case Release(i) => s.(workers := s.workers[i := HasReleased], semaphore := s.semaphore - 1)
    case Report(i) => s.(workers := s.workers[i := Finished], waitGroup := s.waitGroup - 1)
  }

  // ---------------------------------------------------------------- counting workers

  function Count(workers: seq<Worker>, kinds: set<Worker>): (r: nat)
    ensures r <= |workers|
  {
    if workers == [] then 0
    else Count(workers[..|workers| - 1], kinds) + if workers[|workers| - 1] in kinds then 1 else 0
  }

  lemma {:induction false} CountUpdate(workers: seq<Worker>, i: nat, w: Worker, kinds: set<Worker>)
    requires i < |workers|
    ensures Count(workers[i := w], kinds)
      == Count(workers, kinds) - (if workers[i] in kinds then 1 else 0) + (if w in kinds then 1 else 0)
  {
    var n := |workers| - 1;
    if i < n {
      assert workers[i := w][..n] == workers[..n][i := w];
      CountUpdate(workers[..n], i, w, kinds);
    } else {
      assert workers[i := w][..n] == workers[..n];
    }
  }

  lemma {:induction false} CountZero(workers: seq<Worker>, kinds: set<Worker>)
    ensures Count(workers, kinds) == 0 <==> forall i | 0 <= i < |workers| :: workers[i] !in kinds
  {
    if workers != [] {
      CountZero(workers[..|workers| - 1], kinds);
    }
  }

  lemma {:induction false} CountSubset(workers: seq<Worker>, small: set<Worker>, big: set<Worker>)
    requires small <= big
    ensures Count(workers, small) <= Count(workers, big)
  {
    if workers != [] {
      CountSubset(workers[..|workers| - 1], small, big);
    }
  }

  const HOLDERS := {Running, HasStored}
  const UNREPORTED := {Running, HasStored, HasReleased}

  // ---------------------------------------------------------------- the invariant

  function Next(m: Main, n: nat): nat {
    match m
    case AtSelect(i) => i
    case Holding(i) => i
    case _ => n
  }

  /** Slot and worker of plan `i` tell the same story, given how far the main thread is. */
  predicate SlotAgrees<R(!new)>(s: State<R>, i: int, answers: Answers<R>)
    requires 0 <= i < |s.workers| == |s.slots|
  {
    var next := Next(s.main, |s.workers|);
    match s.workers[i]
    case Idle => if i < next then s.slots[i] == ContextError && s.canceled else s.slots[i].Indexed?
    case Running => i < next && s.slots[i].Indexed?
    case _ => i < next && s.slots[i].Stored? && answers(i, s.slots[i].result)
  }

  predicate Inv<R(!new)>(s: State<R>, n: nat, limit: nat, answers: Answers<R>) {
    && Shaped(s, n)
    && s.semaphore == Count(s.workers, HOLDERS) + (if s.main.Holding? then 1 else 0)
    && s.semaphore <= limit
    && s.waitGroup == Count(s.workers, UNREPORTED)
    && (forall i | 0 <= i < n :: SlotAgrees(s, i, answers))
    && (s.main == Returned ==> s.waitGroup == 0)
  }

  lemma {:induction false} CountIdle(n: nat, kinds: set<Worker>)
    requires Idle !in kinds
    ensures Count(seq(n, _ => Idle), kinds) == 0
  {
    CountZero(seq(n, _ => Idle), kinds);
  }

  lemma InitInv<R(!new)>(s: State<R>, n: nat, limit: nat, answers: Answers<R>)
    requires Init(s, n)
    ensures Inv(s, n, limit, answers)
  {
    CountIdle(n, HOLDERS);
    CountIdle(n, UNREPORTED);
  }

  lemma StepSlots<R(!new)>(s: State<R>, step: Step<R>, n: nat, limit: nat, answers: Answers<R>)
    requires Inv(s, n, limit, answers) && Enabled(s, step, limit, answers)
    ensures Shaped(Apply(s, step, limit, answers), n)
    ensures forall i | 0 <= i < n :: SlotAgrees(Apply(s, step, limit, answers), i, answers)
  {
    forall i | 0 <= i < n ensures SlotAgrees(Apply(s, step, limit, answers), i, answers) {
      assert SlotAgrees(s, i, answers);
    }
  }

  lemma CountsUpdate(workers: seq<Worker>, i: nat, w: Worker)
    requires i < |workers|
    ensures Count(workers[i := w], HOLDERS) == Count(workers, HOLDERS)
      - (if workers[i] in HOLDERS then 1 else 0) + (if w in HOLDERS then 1 else 0)
    ensures Count(workers[i := w], UNREPORTED) == Count(workers, UNREPORTED)
      - (if workers[i] in UNREPORTED then 1 else 0) + (if w in UNREPORTED then 1 else 0)
  {
    CountUpdate(workers, i, w, HOLDERS);
    CountUpdate(workers, i, w, UNREPORTED);
  }

  lemma StepInv<R(!new)>(s: State<R>, step: Step<R>, n: nat, limit: nat, answers: Answers<R>)
    requires Inv(s, n, limit, answers) && Enabled(s, step, limit, answers)
    ensures Inv(Apply(s, step, limit, answers), n, limit, answers)
  {
    StepSlots(s, step, n, limit, answers);
    if step.Spawn? {
      assert SlotAgrees(s, s.main.next, answers);
      CountsUpdate(s.workers, s.main.next, Running);
    } else if step.Store? {
      CountsUpdate(s.workers, step.i, HasStored);
    } else if step.Release? {
      CountsUpdate(s.workers, step.i, HasReleased);
    } else if step.Report? {
      CountsUpdate(s.workers, step.i, Finished);
    }
  }

  // ---------------------------------------------------------------- whole runs

  /** A run: any sequence of states, each reached from the one before by one enabled step. */
  ghost predicate Run<R(!new)>(states: seq<State<R>>, steps: seq<Step<R>>, n: nat, limit: nat, answers: Answers<R>) {
    && |states| == |steps| + 1
    && Init(states[0], n)
    && forall k | 0 <= k < |steps| ::
      Shaped(states[k], |states[k].workers|) && Enabled(states[k], steps[k], limit, answers)
      && states[k + 1] == Apply(states[k], steps[k], limit, answers)
  }

  lemma {:induction false} RunInv<R(!new)>(
    states: seq<State<R>>, steps: seq<Step<R>>, n: nat, limit: nat, answers: Answers<R>, k: nat)
    requires Run(states, steps, n, limit, answers) && k < |states|
    ensures Inv(states[k], n, limit, answers)
  {
    if k == 0 {
      InitInv(states[0], n, limit, answers);
    } else {
      RunInv(states, steps, n, limit, answers, k - 1);
      StepInv(states[k - 1], steps[k - 1], n, limit, answers);
    }
  }

  /** In every state of every run at most `limit` pipelines run. */
  lemma AtMostLimitRunning<R(!new)>(
    states: seq<State<R>>, steps: seq<Step<R>>, n: nat, limit: nat, answers: Answers<R>, k: nat)
    requires Run(states, steps, n, limit, answers) && k < |states|
    ensures Count(states[k].workers, {Running}) <= limit
  {
    RunInv(states, steps, n, limit, answers, k);
    CountSubset(states[k].workers, {Running}, HOLDERS);
  }

  /** When the scheduler returns, all started work is done and every slot holds its own plan's result, or the
      context error of a plan that was never started; the latter only if the context was done. */
  lemma ReturnedMeansDone<R(!new)>(
    states: seq<State<R>>, steps: seq<Step<R>>, n: nat, limit: nat, answers: Answers<R>, k: nat)
    requires Run(states, steps, n, limit, answers) && k < |states| && states[k].main == Returned
    ensures Shaped(states[k], n)
    ensures forall i | 0 <= i < n ::
      if states[k].workers[i] == Finished
      then states[k].slots[i].Stored? && answers(i, states[k].slots[i].result)
      else states[k].workers[i] == Idle && states[k].slots[i] == ContextError && states[k].canceled
  {
    var s := states[k];
    RunInv(states, steps, n, limit, answers, k);
    CountZero(s.workers, UNREPORTED);
    forall i | 0 <= i < n
      ensures if s.workers[i] == Finished then s.slots[i].Stored? && answers(i, s.slots[i].result)
        else s.workers[i] == Idle && s.slots[i] == ContextError && s.canceled
    {
      assert SlotAgrees(s, i, answers);
    }
  }

  /** Without cancellation the concurrent run computes the sequential map over the plans. */
  lemma UncanceledRunIsMap<R(!new)>(
    states: seq<State<R>>, steps: seq<Step<R>>, n: nat, limit: nat, pipeline: nat -> R)
    requires Run(states, steps, n, limit, (i: nat, r: R) => r == pipeline(i))
    requires states[|steps|].main == Returned && !states[|steps|].canceled
    ensures states[|steps|].slots == seq(n, i requires 0 <= i < n => Stored(pipeline(i)))
  {
    var answers: Answers<R> := (i: nat, r: R) => r == pipeline(i);
    RunInv(states, steps, n, limit, answers, |steps|);
    ReturnedMeansDone(states, steps, n, limit, answers, |steps|);
  }

  // ---------------------------------------------------------------- progress

  /** Steps still to come: every step but a cancellation uses one up. */
  function WorkerSteps(w: Worker): nat {
    match w
    case Idle => 0
    case Running => 3
    case HasStored => 2
    case HasReleased => 1
    case Finished => 0
  }

  function WorkLeft(workers: seq<Worker>): nat {
    if workers == [] then 0 else WorkLeft(workers[..|workers| - 1]) + WorkerSteps(workers[|workers| - 1])
  }

  lemma {:induction false} WorkUpdate(workers: seq<Worker>, i: nat, w: Worker)
    requires i < |workers|
    ensures WorkLeft(workers[i := w]) == WorkLeft(workers) - WorkerSteps(workers[i]) + WorkerSteps(w)
  {
    var n := |workers| - 1;
    if i < n {
      assert workers[i := w][..n] == workers[..n][i := w];
      WorkUpdate(workers[..n], i, w);
    } else {
      assert workers[i := w][..n] == workers[..n];
    }
  }

  function StepsLeft<R>(s: State<R>, n: nat): nat
    requires Shaped(s, n)
  {
    WorkLeft(s.workers) + (if s.canceled then 0 else 1) + match s.main
      case AtSelect(i) => 5 * (n - i) + 2
      case Holding(i) => 5 * (n - i) + 1
      case Waiting => 1
      case Returned => 0
  }

  lemma StepUsesOne<R(!new)>(s: State<R>, step: Step<R>, n: nat, limit: nat, answers: Answers<R>)
    requires Inv(s, n, limit, answers) && Enabled(s, step, limit, answers)
    ensures Shaped(Apply(s, step, limit, answers), n)
    ensures StepsLeft(Apply(s, step, limit, answers), n) < StepsLeft(s, n)
  {
    StepInv(s, step, n, limit, answers);
    match step
    case Spawn =>
      assert SlotAgrees(s, s.main.next, answers);
      WorkUpdate(s.workers, s.main.next, Running);
    case Store(i, r) => WorkUpdate(s.workers, i, HasStored);
    case Release(i) => WorkUpdate(s.workers, i, HasReleased);
    case Report(i) => WorkUpdate(s.workers, i, Finished);
    case _ =>
  }

  /** No run goes on forever: whatever the interleaving, it has at most `5n + 3` steps. */
  lemma {:induction false} RunsAreBounded<R(!new)>(
    states: seq<State<R>>, steps: seq<Step<R>>, n: nat, limit: nat, answers: Answers<R>, k: nat)
    requires Run(states, steps, n, limit, answers) && k < |states|
    ensures Shaped(states[k], n) && k + StepsLeft(states[k], n) <= 5 * n + 3
  {
    if k == 0 {
      InitInv(states[0], n, limit, answers);
      WorkIdle(n);
    } else {
      RunsAreBounded(states, steps, n, limit, answers, k - 1);
      RunInv(states, steps, n, limit, answers, k - 1);
      StepUsesOne(states[k - 1], steps[k - 1], n, limit, answers);
    }
  }

  lemma {:induction false} WorkIdle(n: nat)
    ensures WorkLeft(seq(n, _ => Idle)) == 0
  {
    if n > 0 {
      assert seq(n, _ => Idle)[..n - 1] == seq(n - 1, _ => Idle);
      WorkIdle(n - 1);
    }
  }

  ghost predicate CanAnswer<R(!new)>(answers: Answers<R>, i: nat) {
    exists r :: answers(i, r)
  }

  /** Every pipeline comes back with some answer. */
  ghost predicate Answering<R(!new)>(answers: Answers<R>, n: nat) {
    forall i: nat | i < n :: CanAnswer(answers, i)
  }

  /** Never stuck: short of `Returned` some step other than a cancellation is possible. */
  lemma NeverStuck<R(!new)>(s: State<R>, n: nat, limit: nat, answers: Answers<R>) returns (step: Step<R>)
    requires Inv(s, n, limit, answers) && Answering(answers, n)
    requires s.main != Returned && (n > 0 ==> limit > 0)
    ensures step != Cancel && Enabled(s, step, limit, answers)
  {
    if Count(s.workers, UNREPORTED) > 0 {
      CountZero(s.workers, UNREPORTED);
      var i :| 0 <= i < n && s.workers[i] in UNREPORTED;
      CountSubset(s.workers, HOLDERS, UNREPORTED);
      CountZero(s.workers, HOLDERS);
      match s.workers[i]
      case Running =>
        assert CanAnswer(answers, i);
        var r :| answers(i, r);
        step := Store(i, r);
      case HasStored => step := Release(i);
      case HasReleased => step := Report(i);
    } else {
      CountSubset(s.workers, HOLDERS, UNREPORTED);
      match s.main
      case AtSelect(i) => step := if i < n then Acquire else LoopEnd;
      case Holding(i) => step := Spawn;
      case Waiting => step := Return;
    }
  }

  /** So every run that cannot be extended has returned. */
  lemma MaximalRunReturns<R(!new)>(
    states: seq<State<R>>, steps: seq<Step<R>>, n: nat, limit: nat, answers: Answers<R>)
    requires Run(states, steps, n, limit, answers) && Answering(answers, n) && (n > 0 ==> limit > 0)
    requires forall step | step != Cancel :: !Enabled(states[|steps|], step, limit, answers)
    ensures states[|steps|].main == Returned
  {
    RunInv(states, steps, n, limit, answers, |steps|);
    if states[|steps|].main != Returned {
      var step := NeverStuck(states[|steps|], n, limit, answers);
    }
  }
}
