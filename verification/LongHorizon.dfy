/** Long-horizon tasks: steps, checkpoints, recoveries and how much work a task can cost
    (Runtime/sarembok_long_horizon.py). */
module LongHorizon {
  import opened Results
  import opened Text

  datatype TaskStatus = Planned | Running | Checkpointed | Waiting | Recovering | Completed | Failed | Cancelled

  datatype AgenticHorizon = AgenticHorizon(
    maxDurationSeconds: int,
    maxSteps: int,
    checkpointEverySteps: int,
    maxRecoveryAttempts: int)

  type State = map<string, string>

  datatype TaskCheckpoint = TaskCheckpoint(checkpointId: string, step: int, state: State)

  datatype AutonomousTask = AutonomousTask(
    taskId: string,
    goal: string,
    horizon: AgenticHorizon,
    status: TaskStatus,
    currentStep: int,
    recoveryAttempts: int,
    checkpoint: Option<TaskCheckpoint>)

  datatype Refusal =
    | CannotStart(status: TaskStatus)
    | CannotAdvance(status: TaskStatus)
    | CannotComplete(status: TaskStatus)
    | ZeroDivision

  // ---- The engine ----

  function Start(task: AutonomousTask): Result<AutonomousTask, Refusal> {
    if task.status !in {Planned, Checkpointed, Recovering} then Err(CannotStart(task.status))
    else Ok(task.(status := Running))
  }

  function Advance(task: AutonomousTask, state: Option<State>): Result<AutonomousTask, Refusal> {
    var next, every := task.currentStep + 1, task.horizon.checkpointEverySteps;
    if task.status != Running then Err(CannotAdvance(task.status))
    else if next > task.horizon.maxSteps then Ok(task.(status := Failed))
    else if every == 0 then Err(ZeroDivision)
    else if next % every == 0 then
      var kept := if state.Some? then state.value else map[];
      Ok(task.(currentStep := next, status := Checkpointed,
               checkpoint := Some(TaskCheckpoint(task.taskId + ":" + IntText(next), next, kept))))
    else Ok(task.(currentStep := next))
  }

  function Recover(task: AutonomousTask): AutonomousTask {
    if task.recoveryAttempts >= task.horizon.maxRecoveryAttempts then task.(status := Failed)
    else if task.checkpoint.None? then task.(status := Failed)
    else task.(status := Recovering, recoveryAttempts := task.recoveryAttempts + 1,
      currentStep := task.checkpoint.value.step)
  }

  function Complete(task: AutonomousTask): Result<AutonomousTask, Refusal> {
    if task.status !in {Running, Checkpointed} then Err(CannotComplete(task.status))
    else Ok(task.(status := Completed))
  }

  // ---- Runs ----

  datatype Action = DoStart | DoAdvance(state: Option<State>) | DoRecover | DoComplete

  function Attempt(task: AutonomousTask, a: Action): Result<AutonomousTask, Refusal> {
    match a
    case DoStart => Start(task)
    case DoAdvance(state) => Advance(task, state)
    case DoRecover => Ok(Recover(task))
    case DoComplete => Complete(task)
  }

  /** A refused action leaves the caller with the task it had. */
  function Next(task: AutonomousTask, a: Action): AutonomousTask {
    if Attempt(task, a).Ok? then Attempt(task, a).value else task
  }

  function Run(task: AutonomousTask, actions: seq<Action>): AutonomousTask {
    if actions == [] then task else Next(Run(task, actions[..|actions| - 1]), actions[|actions| - 1])
  }

  predicate TakesStep(task: AutonomousTask, a: Action) {
    a.DoAdvance? && Next(task, a).currentStep == task.currentStep + 1
  }

  /** The step-taking advances of a run. */
  function Steps(task: AutonomousTask, actions: seq<Action>): nat {
    if actions == [] then 0
    else
      var n := |actions| - 1;
      Steps(task, actions[..n]) + (if TakesStep(Run(task, actions[..n]), actions[n]) then 1 else 0)
  }

  predicate Fresh(task: AutonomousTask) {
    task.status == Planned && task.currentStep == 0 && task.recoveryAttempts == 0 && task.checkpoint.None?
  }

  function Abs(n: int): nat {
    if n < 0 then -n else n
  }

  function AtLeastZero(n: int): nat {
    if n < 0 then 0 else n
  }

  /** The last multiple of the interval not above the step, zero included. */
  function LastMultiple(step: nat, every: int): nat
    requires every != 0
  {
    if step == 0 then 0 else if step % every == 0 then step else LastMultiple(step - 1, every)
  }

  /** The checkpoint is the last multiple of the interval reached, once there was a positive one; the step stays within
      the horizon and the attempts within theirs. */
  ghost predicate Sound(task: AutonomousTask) {
    0 <= task.currentStep <= AtLeastZero(task.horizon.maxSteps) &&
    0 <= task.recoveryAttempts <= AtLeastZero(task.horizon.maxRecoveryAttempts) &&
    task.status !in {Waiting, Cancelled} &&
    CheckpointSound(task.taskId, task.currentStep, task.horizon.checkpointEverySteps, task.checkpoint)
  }

  ghost predicate CheckpointSound(taskId: string, step: nat, every: int, checkpoint: Option<TaskCheckpoint>) {
    if every == 0 then step == 0 && checkpoint.None?
    else match checkpoint
      case None => LastMultiple(step, every) == 0
      case Some(c) =>
        c.step == LastMultiple(step, every) && c.step > 0 && c.checkpointId == taskId + ":" + IntText(c.step)
  }

  lemma {:induction false} MultipleOfItself(step: nat, every: int)
    requires every != 0
    ensures LastMultiple(step, every) <= step
    ensures LastMultiple(LastMultiple(step, every), every) == LastMultiple(step, every)
  {
    if step > 0 && step % every != 0 { MultipleOfItself(step - 1, every); }
  }

  lemma MultiplesAreApart(d: int, k: int)
    requires k > 0
    ensures -k < d * k < k ==> d == 0
  {
    if d >= 1 { assert d * k >= k; }
    if d <= -1 { assert d * k <= -k; }
  }

  lemma RemainderIsUnique(n: int, k: int, q: int, r: int)
    requires k > 0 && n == q * k + r && 0 <= r < k
    ensures r == n % k && q == n / k
  {
    var p, s := n / k, n % k;
    assert n == p * k + s;
    var d := q - p;
    assert d * k == q * k - p * k;
    MultiplesAreApart(d, k);
  }

  lemma RemainderSteps(n: nat, k: int)
    requires k > 0 && (n + 1) % k != 0
    ensures (n + 1) % k == n % k + 1
  {
    var q, r := n / k, n % k;
    assert n == q * k + r;
    if r + 1 == k {
      assert n + 1 == (q + 1) * k + 0;
      RemainderIsUnique(n + 1, k, q + 1, 0);
    } else {
      RemainderIsUnique(n + 1, k, q, r + 1);
    }
  }

  /** Divisibility does not depend on the sign of the interval. */
  lemma SameRemainder(n: nat, every: int)
    requires every != 0
    ensures n % every == n % Abs(every)
  {
    if every < 0 {
      var k := -every;
      assert n == n / every * every + n % every;
      assert n == (-(n / every)) * k + n % every;
      RemainderIsUnique(n, k, -(n / every), n % every);
    }
  }

  lemma {:induction false} MultipleIsNear(step: nat, every: int)
    requires every != 0
    ensures LastMultiple(step, every) == step - step % Abs(every)
  {
    SameRemainder(step, every);
    if step > 0 && step % every != 0 {
      MultipleIsNear(step - 1, every);
      RemainderSteps(step - 1, Abs(every));
    } else if step == 0 {
      RemainderIsUnique(0, Abs(every), 0, 0);
    }
  }

  lemma AdvanceIsSound(task: AutonomousTask, state: Option<State>)
    requires Sound(task)
    ensures Sound(Next(task, DoAdvance(state)))
  {
  }

  lemma RecoverIsSound(task: AutonomousTask)
    requires Sound(task)
    ensures Sound(Recover(task))
  {
    if task.horizon.checkpointEverySteps != 0 {
      MultipleOfItself(task.currentStep, task.horizon.checkpointEverySteps);
    }
  }

  lemma NextIsSound(task: AutonomousTask, a: Action)
    requires Sound(task)
    ensures Sound(Next(task, a))
  {
    match a
    case DoAdvance(state) => AdvanceIsSound(task, state);
    case DoRecover => RecoverIsSound(task);
    case DoStart =>
    case DoComplete =>
  }

  lemma HorizonIsKept(task: AutonomousTask, a: Action)
    ensures Next(task, a).horizon == task.horizon
  {
  }

  /** In every run of a fresh task a checkpoint is the last multiple of the interval reached. */
  lemma {:induction false} EveryRunIsSound(task: AutonomousTask, actions: seq<Action>)
    requires Fresh(task)
    ensures Sound(Run(task, actions)) && Run(task, actions).horizon == task.horizon
  {
    if actions != [] {
      var n := |actions| - 1;
      EveryRunIsSound(task, actions[..n]);
      NextIsSound(Run(task, actions[..n]), actions[n]);
      HorizonIsKept(Run(task, actions[..n]), actions[n]);
    }
  }

  // ---- The total work ----

  /** The steps a recovery takes back. */
  function Losing(task: AutonomousTask, a: Action): int {
    if a.DoRecover? then task.currentStep - Next(task, a).currentStep else 0
  }

  function Lost(task: AutonomousTask, actions: seq<Action>): int {
    if actions == [] then 0
    else
      var n := |actions| - 1;
      Lost(task, actions[..n]) + Losing(Run(task, actions[..n]), actions[n])
  }

  /** Work is conserved: every step taken is either behind the task or was taken back by a recovery. */
  lemma {:induction false} WorkIsConserved(task: AutonomousTask, actions: seq<Action>)
    requires task.currentStep == 0
    ensures Steps(task, actions) == Run(task, actions).currentStep + Lost(task, actions)
  {
    if actions != [] { WorkIsConserved(task, actions[..|actions| - 1]); }
  }

  /** n times k, by repeated addition. */
  function Times(n: nat, k: nat): nat {
    if n == 0 then 0 else Times(n - 1, k) + k
  }

  lemma {:induction false} TimesIsProduct(n: nat, k: nat)
    ensures Times(n, k) == n * k
  {
    if n > 0 {
      TimesIsProduct(n - 1, k);
      assert n * k == (n - 1) * k + k;
    }
  }

  /** The steps one recovery can take back at most. A checkpoint lies at a full interval at least, and the next one is
      less than an interval away; short of one interval there is no checkpoint to recover to. */
  function MaxLoss(horizon: AgenticHorizon): nat
    requires horizon.checkpointEverySteps != 0
  {
    var every, steps := Abs(horizon.checkpointEverySteps), AtLeastZero(horizon.maxSteps);
    if steps < every then 0 else if steps - every < every - 1 then steps - every else every - 1
  }

  lemma ProductSign(q: int, k: int)
    requires k > 0
    ensures if q >= 1 then q * k >= k else q * k <= 0
  {
  }

  lemma PositiveMultipleIsFull(step: nat, k: int)
    requires k > 0 && step - step % k > 0
    ensures step - step % k >= k
  {
    var q, r := step / k, step % k;
    assert step == q * k + r;
    ProductSign(q, k);
  }

  lemma RecoveryLosesLittle(task: AutonomousTask, a: Action)
    requires Sound(task) && task.horizon.checkpointEverySteps != 0
    ensures var spent := Next(task, a).recoveryAttempts - task.recoveryAttempts;
            (spent == 0 && Losing(task, a) == 0) || (spent == 1 && Losing(task, a) <= MaxLoss(task.horizon))
  {
    var step, every := task.currentStep, task.horizon.checkpointEverySteps;
    MultipleIsNear(step, every);
    if LastMultiple(step, every) > 0 { PositiveMultipleIsFull(step, Abs(every)); }
  }

  lemma {:induction false} LossIsBounded(task: AutonomousTask, actions: seq<Action>)
    requires Fresh(task) && task.horizon.checkpointEverySteps != 0
    ensures Run(task, actions).recoveryAttempts >= 0
    ensures Lost(task, actions) <=
            Times(Run(task, actions).recoveryAttempts, MaxLoss(task.horizon))
  {
    if actions != [] {
      var n := |actions| - 1;
      LossIsBounded(task, actions[..n]);
      EveryRunIsSound(task, actions[..n]);
      RecoveryLosesLittle(Run(task, actions[..n]), actions[n]);
    }
  }

  lemma WorkInTimes(task: AutonomousTask, actions: seq<Action>)
    requires Fresh(task) && task.horizon.checkpointEverySteps != 0
    ensures 0 <= Run(task, actions).recoveryAttempts <= AtLeastZero(task.horizon.maxRecoveryAttempts)
    ensures Steps(task, actions) <=
            AtLeastZero(task.horizon.maxSteps) + Times(Run(task, actions).recoveryAttempts, MaxLoss(task.horizon))
  {
    EveryRunIsSound(task, actions);
    WorkIsConserved(task, actions);
    LossIsBounded(task, actions);
  }

  lemma {:induction false} TimesGrows(m: nat, n: nat, k: nat)
    requires m <= n
    ensures Times(m, k) <= Times(n, k)
  {
    if m < n { TimesGrows(m, n - 1, k); }
  }

  /** The steps of the dearest run. */
  function MaxWork(horizon: AgenticHorizon): nat
    requires horizon.checkpointEverySteps != 0
  {
    AtLeastZero(horizon.maxSteps) + AtLeastZero(horizon.maxRecoveryAttempts) * MaxLoss(horizon)
  }

  /** Whatever the interleaving, a fresh task costs at most its steps plus, for each recovery, the most that one
      recovery can take back. */
  lemma TotalWork(task: AutonomousTask, actions: seq<Action>)
    requires Fresh(task) && task.horizon.checkpointEverySteps != 0
    ensures Steps(task, actions) <=
            AtLeastZero(task.horizon.maxSteps) + Run(task, actions).recoveryAttempts * MaxLoss(task.horizon)
    ensures Run(task, actions).recoveryAttempts <= AtLeastZero(task.horizon.maxRecoveryAttempts)
    ensures Steps(task, actions) <= MaxWork(task.horizon)
  {
    var spent, all := Run(task, actions).recoveryAttempts, AtLeastZero(task.horizon.maxRecoveryAttempts);
    WorkInTimes(task, actions);
    TimesIsProduct(spent, MaxLoss(task.horizon));
    TimesIsProduct(all, MaxLoss(task.horizon));
    TimesGrows(spent, all, MaxLoss(task.horizon));
  }

  /** With an interval of zero no step is ever taken: the first advance divides by zero, or fails the horizon. */
  lemma {:induction false} ZeroIntervalTakesNoStep(task: AutonomousTask, actions: seq<Action>)
    requires Fresh(task) && task.horizon.checkpointEverySteps == 0
    ensures Steps(task, actions) == 0
  {
    if actions != [] {
      ZeroIntervalTakesNoStep(task, actions[..|actions| - 1]);
      EveryRunIsSound(task, actions[..|actions| - 1]);
      EveryRunIsSound(task, actions);
    }
  }

  // ---- The bound is met ----

  lemma {:induction false} RunSplits(task: AutonomousTask, a: seq<Action>, b: seq<Action>)
    ensures Run(task, a + b) == Run(Run(task, a), b)
    ensures Steps(task, a + b) == Steps(task, a) + Steps(Run(task, a), b)
  {
    if b == [] {
      assert a + b == a;
    } else {
      var n := |b| - 1;
      RunSplits(task, a, b[..n]);
      var ab := a + b;
      assert ab != [] && ab[..|ab| - 1] == a + b[..n] && ab[|ab| - 1] == b[n];
    }
  }

  lemma RunOne(task: AutonomousTask, a: Action)
    ensures Run(task, [a]) == Next(task, a)
    ensures Steps(task, [a]) == if TakesStep(task, a) then 1 else 0
  {
    assert [a][..0] == [];
    assert Run(task, [a][..0]) == task;
  }

  /** Some run leads from one task to the other in n steps. */
  ghost predicate Leads(task: AutonomousTask, n: nat, to: AutonomousTask) {
    exists actions :: Run(task, actions) == to && Steps(task, actions) == n
  }

  lemma LeadsOn(a: AutonomousTask, m: nat, b: AutonomousTask, n: nat, c: AutonomousTask)
    requires Leads(a, m, b) && Leads(b, n, c)
    ensures Leads(a, m + n, c)
  {
    var first :| Run(a, first) == b && Steps(a, first) == m;
    var second :| Run(b, second) == c && Steps(b, second) == n;
    RunSplits(a, first, second);
  }

  lemma LeadsNowhere(task: AutonomousTask)
    ensures Leads(task, 0, task)
  {
    assert Run(task, []) == task && Steps(task, []) == 0;
  }

  lemma OneLeads(task: AutonomousTask, a: Action, to: AutonomousTask)
    requires Next(task, a) == to
    ensures Leads(task, if TakesStep(task, a) then 1 else 0, to)
  {
    RunOne(task, a);
  }

  const Step := DoAdvance(None)

  function AtStep(task: AutonomousTask, step: int): AutonomousTask {
    task.(currentStep := step)
  }

  /** Advances inside one interval only count up. */
  lemma {:induction false} Climb(task: AutonomousTask, n: nat)
    requires task.status == Running && task.horizon.checkpointEverySteps != 0
    requires task.currentStep + n <= task.horizon.maxSteps
    requires forall i :: task.currentStep < i <= task.currentStep + n ==> i % task.horizon.checkpointEverySteps != 0
    ensures Leads(task, n, AtStep(task, task.currentStep + n))
  {
    if n == 0 {
      LeadsNowhere(task);
    } else {
      Climb(task, n - 1);
      var before, after := AtStep(task, task.currentStep + n - 1), AtStep(task, task.currentStep + n);
      assert (task.currentStep + n) % task.horizon.checkpointEverySteps != 0;
      OneLeads(before, Step, after);
      LeadsOn(task, n - 1, before, 1, after);
    }
  }

  /** A task that has just been restarted from its first checkpoint. */
  predicate AtFirstCheckpoint(task: AutonomousTask) {
    var every := Abs(task.horizon.checkpointEverySteps);
    every > 0 && task.status == Running && task.currentStep == every <= task.horizon.maxSteps &&
    task.checkpoint.Some? && task.checkpoint.value.step == every
  }

  lemma NoMultipleInside(every: int, n: nat)
    requires every != 0 && Abs(every) < n < 2 * Abs(every)
    ensures n % every != 0
  {
    SameRemainder(n, every);
    RemainderIsUnique(n, Abs(every), 1, n - Abs(every));
  }

  function WithAttempts(task: AutonomousTask, n: int): AutonomousTask {
    task.(recoveryAttempts := n)
  }

  /** Recovering from anywhere after the first checkpoint and starting again spends an attempt and nothing else. */
  lemma BackToCheckpoint(task: AutonomousTask, step: int)
    requires AtFirstCheckpoint(task) && task.recoveryAttempts < task.horizon.maxRecoveryAttempts
    ensures Leads(AtStep(task, step), 0, WithAttempts(task, task.recoveryAttempts + 1))
  {
    var top := AtStep(task, step);
    OneLeads(top, DoRecover, Recover(top));
    OneLeads(Recover(top), DoStart, WithAttempts(task, task.recoveryAttempts + 1));
    LeadsOn(top, 0, Recover(top), 0, WithAttempts(task, task.recoveryAttempts + 1));
  }

  /** As far as possible without a checkpoint, then back. */
  lemma Detour(task: AutonomousTask)
    requires AtFirstCheckpoint(task) && task.recoveryAttempts < task.horizon.maxRecoveryAttempts
    ensures Leads(task, MaxLoss(task.horizon), WithAttempts(task, task.recoveryAttempts + 1))
  {
    var start, far := task.currentStep, MaxLoss(task.horizon);
    forall i | start < i <= start + far ensures i % task.horizon.checkpointEverySteps != 0 {
      NoMultipleInside(task.horizon.checkpointEverySteps, i);
    }
    Climb(task, far);
    BackToCheckpoint(task, start + far);
    LeadsOn(task, far, AtStep(task, start + far), 0, WithAttempts(task, task.recoveryAttempts + 1));
  }

  lemma {:induction false} Detours(task: AutonomousTask, n: nat)
    requires AtFirstCheckpoint(task) && n <= AtLeastZero(task.horizon.maxRecoveryAttempts)
    ensures Leads(WithAttempts(task, 0), Times(n, MaxLoss(task.horizon)), WithAttempts(task, n))
  {
    if n == 0 {
      LeadsNowhere(WithAttempts(task, 0));
    } else {
      Detours(task, n - 1);
      AnotherDetour(task, n - 1, Times(n - 1, MaxLoss(task.horizon)));
    }
  }

  lemma AnotherDetour(task: AutonomousTask, n: nat, cost: nat)
    requires AtFirstCheckpoint(task) && n < task.horizon.maxRecoveryAttempts
    requires Leads(WithAttempts(task, 0), cost, WithAttempts(task, n))
    ensures Leads(WithAttempts(task, 0), cost + MaxLoss(task.horizon), WithAttempts(task, n + 1))
  {
    var before := WithAttempts(task, n);
    Detour(before);
    assert WithAttempts(before, n + 1) == WithAttempts(task, n + 1);
    LeadsOn(WithAttempts(task, 0), cost, before, MaxLoss(task.horizon), WithAttempts(task, n + 1));
  }

  /** One step further, starting again if it was a checkpoint. */
  lemma StepAndStart(task: AutonomousTask)
    requires task.status == Running && task.horizon.checkpointEverySteps != 0
    requires 0 <= task.currentStep < task.horizon.maxSteps
    ensures var after := Next(Next(task, Step), DoStart);
            after.status == Running && after.currentStep == task.currentStep + 1 &&
            after.horizon == task.horizon && after.recoveryAttempts == task.recoveryAttempts &&
            (after.currentStep == Abs(after.horizon.checkpointEverySteps) ==> AtFirstCheckpoint(after))
    ensures TakesStep(task, Step) && !TakesStep(Next(task, Step), DoStart)
  {
    var every := task.horizon.checkpointEverySteps;
    if task.currentStep + 1 == Abs(every) {
      RemainderIsUnique(Abs(every), Abs(every), 1, 0);
      SameRemainder(Abs(every), every);
    }
  }

  lemma StepAndStartLeads(task: AutonomousTask)
    requires TakesStep(task, Step) && !TakesStep(Next(task, Step), DoStart)
    ensures Leads(task, 1, Next(Next(task, Step), DoStart))
  {
    var next := Next(task, Step);
    OneLeads(task, Step, next);
    OneLeads(next, DoStart, Next(next, DoStart));
    LeadsOn(task, 1, next, 0, Next(next, DoStart));
  }

  /** Straight on for n steps, starting again after each checkpoint. */
  lemma {:induction false} Ascent(task: AutonomousTask, n: nat) returns (top: AutonomousTask)
    requires task.status == Running && task.horizon.checkpointEverySteps != 0
    requires 0 <= task.currentStep && (n > 0 ==> task.currentStep + n <= task.horizon.maxSteps)
    ensures Leads(task, n, top) && top.status == Running && top.currentStep == task.currentStep + n
    ensures top.horizon == task.horizon && top.recoveryAttempts == task.recoveryAttempts
    ensures n > 0 && top.currentStep == Abs(top.horizon.checkpointEverySteps) ==> AtFirstCheckpoint(top)
  {
    if n == 0 {
      LeadsNowhere(task);
      top := task;
    } else {
      var before := Ascent(task, n - 1);
      StepAndStart(before);
      StepAndStartLeads(before);
      top := Next(Next(before, Step), DoStart);
      LeadsOn(task, n - 1, before, 1, top);
    }
  }

  /** From the first checkpoint on: every recovery as late as possible, then to the horizon. */
  lemma DearestFromCheckpoint(first: AutonomousTask, n: nat) returns (top: AutonomousTask)
    requires AtFirstCheckpoint(first)
    requires first.recoveryAttempts == 0 && n <= AtLeastZero(first.horizon.maxRecoveryAttempts)
    ensures Leads(first, Times(n, MaxLoss(first.horizon)) + (first.horizon.maxSteps - first.currentStep), top)
  {
    var rest, detours := first.horizon.maxSteps - first.currentStep, Times(n, MaxLoss(first.horizon));
    Detours(first, n);
    assert WithAttempts(first, 0) == first;
    var tired := WithAttempts(first, n);
    top := Ascent(tired, rest);
    LeadsOn(first, detours, tired, rest, top);
  }

  /** With room for one interval: to the first checkpoint, and on from there. */
  lemma DearestRun(task: AutonomousTask) returns (top: AutonomousTask)
    requires Fresh(task) && 0 < Abs(task.horizon.checkpointEverySteps) <= task.horizon.maxSteps
    ensures var n := AtLeastZero(task.horizon.maxRecoveryAttempts);
            Leads(task, task.horizon.maxSteps + Times(n, MaxLoss(task.horizon)), top)
  {
    var every := Abs(task.horizon.checkpointEverySteps);
    var started := Next(task, DoStart);
    OneLeads(task, DoStart, started);
    var first := Ascent(started, every);
    LeadsOn(task, 0, started, every, first);
    var n := AtLeastZero(task.horizon.maxRecoveryAttempts);
    top := DearestFromCheckpoint(first, n);
    LeadsOn(task, every, first, Times(n, MaxLoss(task.horizon)) + (task.horizon.maxSteps - every), top);
  }

  /** Without room for one there is nothing to recover to, and the steps are all there is. */
  lemma ShortRun(task: AutonomousTask) returns (top: AutonomousTask)
    requires Fresh(task) && task.horizon.checkpointEverySteps != 0
    ensures Leads(task, AtLeastZero(task.horizon.maxSteps), top)
  {
    var started := Next(task, DoStart);
    OneLeads(task, DoStart, started);
    top := Ascent(started, AtLeastZero(task.horizon.maxSteps));
    LeadsOn(task, 0, started, AtLeastZero(task.horizon.maxSteps), top);
  }

  /** The bound cannot be improved: whatever the horizon, some run meets it exactly. */
  lemma BoundIsMet(task: AutonomousTask)
    requires Fresh(task) && task.horizon.checkpointEverySteps != 0
    ensures exists actions :: Steps(task, actions) == MaxWork(task.horizon)
  {
    var n, loss := AtLeastZero(task.horizon.maxRecoveryAttempts), MaxLoss(task.horizon);
    TimesIsProduct(n, loss);
    if Abs(task.horizon.checkpointEverySteps) <= task.horizon.maxSteps {
      var top := DearestRun(task);
    } else {
      var top := ShortRun(task);
      assert n * loss == 0;
    }
  }

  // ---- No status is final ----

  /** A recovery and a start set any task running again, completed and failed ones too, exactly when it has a checkpoint
      and an attempt left. */
  lemma RecoveryRevives(task: AutonomousTask)
    ensures Run(task, [DoRecover] + [DoStart]).status == Running <==>
            task.checkpoint.Some? && task.recoveryAttempts < task.horizon.maxRecoveryAttempts
  {
    RunSplits(task, [DoRecover], [DoStart]);
    RunOne(task, DoRecover);
    RunOne(Recover(task), DoStart);
  }

  /** A task with one step, checkpointed and completed, runs again. */
  lemma CompletedTaskRunsAgain(taskId: string, goal: string)
    ensures var task := AutonomousTask(taskId, goal, AgenticHorizon(60, 1, 1, 1), Planned, 0, 0, None);
            var done := Run(task, [DoStart] + [DoAdvance(None)] + [DoComplete]);
            done.status == Completed && Run(done, [DoRecover] + [DoStart]).status == Running
  {
    var task := AutonomousTask(taskId, goal, AgenticHorizon(60, 1, 1, 1), Planned, 0, 0, None);
    RunOne(task, DoStart);
    RunSplits(task, [DoStart], [DoAdvance(None)]);
    RunOne(Run(task, [DoStart]), DoAdvance(None));
    RunSplits(task, [DoStart] + [DoAdvance(None)], [DoComplete]);
    RunOne(Run(task, [DoStart] + [DoAdvance(None)]), DoComplete);
    RecoveryRevives(Run(task, [DoStart] + [DoAdvance(None)] + [DoComplete]));
  }

  // ---- What an action does, by the task's fields ----

  /** When an action is refused, and why. */
  lemma RefusedExactly(task: AutonomousTask, a: Action)
    ensures var s := task.status;
            Attempt(task, a) == Err(CannotStart(s)) <==>
            a.DoStart? && s != Planned && s != Checkpointed && s != Recovering
    ensures Attempt(task, a) == Err(CannotAdvance(task.status)) <==> a.DoAdvance? && task.status != Running
    ensures Attempt(task, a) == Err(ZeroDivision) <==>
            a.DoAdvance? && task.status == Running && task.currentStep < task.horizon.maxSteps &&
            task.horizon.checkpointEverySteps == 0
    ensures var s := task.status;
            Attempt(task, a) == Err(CannotComplete(s)) <==> a.DoComplete? && s != Running && s != Checkpointed
    ensures Attempt(task, a).Err? ==>
            Attempt(task, a).error in {CannotStart(task.status), CannotAdvance(task.status), ZeroDivision,
                                       CannotComplete(task.status)}
  {
  }

  /** The state handed in by the latest advance that ended on a checkpoint; an advance without one keeps the empty
      state. */
  function KeptState(task: AutonomousTask, actions: seq<Action>): Option<State> {
    if actions == [] then None
    else
      var n := |actions| - 1;
      var before, a := Run(task, actions[..n]), actions[n];
      var every := task.horizon.checkpointEverySteps;
      if every != 0 && TakesStep(before, a) && (before.currentStep + 1) % every == 0
      then Some(if a.state.Some? then a.state.value else map[])
      else KeptState(task, actions[..n])
  }

  lemma NextKeepsState(task: AutonomousTask, a: Action)
    ensures var every := task.horizon.checkpointEverySteps;
            var checkpointed := every != 0 && TakesStep(task, a) && (task.currentStep + 1) % every == 0;
            var after := Next(task, a);
            (checkpointed ==>
               after.status == Checkpointed && after.checkpoint.Some? &&
               after.checkpoint.value.step == task.currentStep + 1 &&
               after.checkpoint.value.state == if a.state.Some? then a.state.value else map[]) &&
            (!checkpointed ==> after.checkpoint == task.checkpoint)
  {
  }

  /** Over every run a task has a checkpoint exactly when some advance ended on one, and the checkpoint holds the state
      of the latest such advance. */
  lemma {:induction false} CheckpointHoldsLatestState(task: AutonomousTask, actions: seq<Action>)
    requires Fresh(task)
    ensures var checkpoint := Run(task, actions).checkpoint;
            KeptState(task, actions) == if checkpoint.Some? then Some(checkpoint.value.state) else None
  {
    if actions != [] {
      var n := |actions| - 1;
      CheckpointHoldsLatestState(task, actions[..n]);
      EveryRunIsSound(task, actions[..n]);
      NextKeepsState(Run(task, actions[..n]), actions[n]);
    }
  }

  /** Which status an action changes a task to: every way into running, checkpointed, failed, recovering and completed,
      and none into the others. */
  lemma StatusMovesExactly(task: AutonomousTask, a: Action)
    ensures var s, next, horizon := task.status, Next(task, a).status, task.horizon;
            var every := horizon.checkpointEverySteps;
            (next == Running && s != Running <==> a.DoStart? && s in {Planned, Checkpointed, Recovering}) &&
            (next == Checkpointed && s != Checkpointed <==>
             every != 0 && TakesStep(task, a) && (task.currentStep + 1) % every == 0) &&
            (next == Failed && s != Failed <==>
             (a.DoAdvance? && s == Running && task.currentStep >= horizon.maxSteps) ||
             (a.DoRecover? && s != Failed &&
              (task.recoveryAttempts >= horizon.maxRecoveryAttempts || task.checkpoint.None?))) &&
            (next == Recovering && s != Recovering <==>
             a.DoRecover? && s != Recovering &&
             task.recoveryAttempts < horizon.maxRecoveryAttempts && task.checkpoint.Some?) &&
            (next == Completed && s != Completed <==> a.DoComplete? && s in {Running, Checkpointed}) &&
            (next in {Planned, Waiting, Cancelled} ==> next == s)
  {
  }
}
