/** The worker pool: any number of workers taking tasks from one bounded priority queue and putting failed ones back.
    Every await of a worker is a step of its own, so a run is any interleaving of the workers and the submitters. */
module OrderWorkerPool {
  const MAX_RETRIES := 3

  datatype Task = Task(id: nat, priority: int, retryCount: nat)

  /** A worker whose retry waits for room in the queue still holds its task. */
  datatype Worker = Idle | Running(task: Task) | Requeueing(task: Task)

  datatype Outcome = Succeeded | Exhausted | Crashed

  datatype Done = Done(id: nat, outcome: Outcome)

  datatype Pool = Pool(
    capacity: int, maxWorkers: int, queue: seq<Task>, workers: seq<Worker>,
    submitted: nat, processed: nat, successful: nat, failed: nat,
    executions: seq<nat>, finished: seq<Done>)

  // ---- Sums ----

  function Sum<T>(s: seq<T>, f: T -> int): int {
    if s == [] then 0 else Sum(s[..|s| - 1], f) + f(s[|s| - 1])
  }

  lemma SumPush<T>(s: seq<T>, x: T, f: T -> int)
    ensures Sum(s + [x], f) == Sum(s, f) + f(x)
  {
    assert (s + [x])[..|s|] == s;
  }

  lemma {:induction false} SumUpdate<T>(s: seq<T>, i: nat, x: T, f: T -> int)
    requires i < |s|
    ensures Sum(s[i := x], f) == Sum(s, f) - f(s[i]) + f(x)
  {
    var n := |s| - 1;
    if i == n {
      assert s[i := x][..n] == s[..n];
    } else {
      SumUpdate(s[..n], i, x, f);
      assert s[i := x][..n] == s[..n][i := x];
    }
  }

  function Without<T>(s: seq<T>, i: nat): seq<T>
    requires i < |s|
  {
    s[..i] + s[i + 1..]
  }

  lemma {:induction false} SumWithout<T>(s: seq<T>, i: nat, f: T -> int)
    requires i < |s|
    ensures Sum(Without(s, i), f) == Sum(s, f) - f(s[i])
  {
    var n := |s| - 1;
    if i == n {
      assert Without(s, i) == s[..n];
    } else {
      SumWithout(s[..n], i, f);
      assert Without(s, i) == Without(s[..n], i) + [s[n]];
      SumPush(Without(s[..n], i), s[n], f);
    }
  }

  lemma {:induction false} SumAtLeast<T>(s: seq<T>, f: T -> int, i: nat)
    requires i < |s| && forall x :: f(x) >= 0
    ensures Sum(s, f) >= f(s[i])
  {
    SumNonNegative(s[..|s| - 1], f);
    if i < |s| - 1 {
      SumAtLeast(s[..|s| - 1], f, i);
    }
  }

  lemma {:induction false} SumNonNegative<T>(s: seq<T>, f: T -> int)
    requires forall x :: f(x) >= 0
    ensures Sum(s, f) >= 0
  {
    if s != [] {
      SumNonNegative(s[..|s| - 1], f);
    }
  }

  // ---- Steps ----

  datatype Step =
    | Submit(priority: int)
    | AddWorker
    | Take(w: nat, i: nat)
    | Succeed(w: nat)
    | Fail(w: nat)
    | Crash(w: nat)
    | Requeue(w: nat)

  /** A capacity of zero or less means no limit. */
  predicate Room(p: Pool) {
    p.capacity <= 0 || |p.queue| < p.capacity
  }

  predicate Best(queue: seq<Task>, i: nat) {
    i < |queue| && forall j :: 0 <= j < |queue| ==> queue[j].priority <= queue[i].priority
  }

  predicate Working(p: Pool, w: nat) {
    w < |p.workers| && p.workers[w].Running?
  }

  predicate Enabled(p: Pool, step: Step) {
    match step
    case Submit(_) => Room(p)
    case AddWorker => |p.workers| < p.maxWorkers
    case Take(w, i) => w < |p.workers| && p.workers[w].Idle? && Best(p.queue, i)
    case Succeed(w) => Working(p, w)
    case Fail(w) => Working(p, w)
    case Crash(w) => Working(p, w)
    case Requeue(w) => w < |p.workers| && p.workers[w].Requeueing? && Room(p)
  }

  /** The attempt was the task's last one. */
  function Finish(p: Pool, w: nat, outcome: Outcome): Pool
    requires Working(p, w)
  {
    var id := p.workers[w].task.id;
    p.(workers := p.workers[w := Idle], processed := p.processed + 1,
       successful := if outcome == Succeeded then p.successful + 1 else p.successful,
       failed := if outcome == Succeeded then p.failed else p.failed + 1,
       executions := p.executions + [id], finished := p.finished + [Done(id, outcome)])
  }

  /** A failed attempt goes back to the queue while retries are left. */
  function Failed(p: Pool, w: nat): Pool
    requires Working(p, w)
  {
    var task := p.workers[w].task;
    if task.retryCount < MAX_RETRIES then
      p.(workers := p.workers[w := Requeueing(task.(retryCount := task.retryCount + 1))],
         executions := p.executions + [task.id])
    else Finish(p, w, Exhausted)
  }

  function Next(p: Pool, step: Step): Pool
    requires Enabled(p, step)
  {
    match step
    case Submit(priority) =>
      p.(queue := p.queue + [Task(p.submitted, priority, 0)], submitted := p.submitted + 1)
    case AddWorker => p.(workers := p.workers + [Idle])
    case Take(w, i) => p.(queue := Without(p.queue, i), workers := p.workers[w := Running(p.queue[i])])
    case Succeed(w) => Finish(p, w, Succeeded)
    case Fail(w) => Failed(p, w)
    case Crash(w) => Finish(p, w, Crashed)
    case Requeue(w) =>
      p.(queue := p.queue + [p.workers[w].task], workers := p.workers[w := Idle],
         processed := p.processed + 1, failed := p.failed + 1)
  }

  predicate Initial(p: Pool) {
    && p.queue == [] && p.executions == [] && p.finished == []
    && (forall w :: 0 <= w < |p.workers| ==> p.workers[w].Idle?)
    && p.submitted == p.processed == p.successful == p.failed == 0
  }

  predicate Legal(p: Pool, steps: seq<Step>)
    decreases |steps|
  {
    steps == [] || (Enabled(p, steps[0]) && Legal(Next(p, steps[0]), steps[1..]))
  }

  function After(p: Pool, steps: seq<Step>): Pool
    requires Legal(p, steps)
    decreases |steps|
  {
    if steps == [] then p else After(Next(p, steps[0]), steps[1..])
  }

  // ---- What every step keeps ----

  function TaskIs(id: nat): Task -> int {
    (t: Task) => if t.id == id then 1 else 0
  }

  function Carries(id: nat): Worker -> int {
    (w: Worker) => if !w.Idle? && w.task.id == id then 1 else 0
  }

  function DoneIs(id: nat): Done -> int {
    (d: Done) => if d.id == id then 1 else 0
  }

  function Is(id: nat): nat -> int {
    (x: nat) => if x == id then 1 else 0
  }

  function Places(p: Pool, id: nat): int {
    Sum(p.queue, TaskIs(id)) + Sum(p.workers, Carries(id)) + Sum(p.finished, DoneIs(id))
  }

  function Attempts(p: Pool, id: nat): int {
    Sum(p.executions, Is(id))
  }

  function Pending(): Worker -> int {
    (w: Worker) => if w.Requeueing? then 1 else 0
  }

  function Busy(): Worker -> int {
    (w: Worker) => if w.Idle? then 0 else 1
  }

  function Well(): Done -> int {
    (d: Done) => if d.outcome == Succeeded then 1 else 0
  }

  /** Attempts a queued task may still cost. */
  function TaskEnergy(): Task -> int {
    (t: Task) => MAX_RETRIES - t.retryCount + 1
  }

  function WorkerEnergy(): Worker -> int {
    (w: Worker) => if w.Idle? then 0 else MAX_RETRIES - w.task.retryCount + 1
  }

  function Energy(p: Pool): int {
    Sum(p.queue, TaskEnergy()) + Sum(p.workers, WorkerEnergy())
  }

  ghost predicate OnePlace(p: Pool) {
    forall id: nat :: Places(p, id) == if id < p.submitted then 1 else 0
  }

  ghost predicate AttemptsCounted(p: Pool) {
    && (forall i :: 0 <= i < |p.queue| ==> Attempts(p, p.queue[i].id) == p.queue[i].retryCount <= MAX_RETRIES)
    && (forall w :: 0 <= w < |p.workers| && !p.workers[w].Idle? ==>
          Attempts(p, p.workers[w].task.id) == p.workers[w].task.retryCount <= MAX_RETRIES)
    && (forall d :: 0 <= d < |p.finished| ==> 
          && 1 <= Attempts(p, p.finished[d].id) <= MAX_RETRIES + 1
          && (p.finished[d].outcome == Exhausted ==> Attempts(p, p.finished[d].id) == MAX_RETRIES + 1))
    && (forall id: nat :: id >= p.submitted ==> Attempts(p, id) == 0)
  }

  ghost predicate TotalsOk(p: Pool) {
    && p.processed == p.successful + p.failed
    && p.processed + Sum(p.workers, Pending()) == |p.executions|
    && p.successful == Sum(p.finished, Well())
    && |p.queue| + Sum(p.workers, Busy()) + |p.finished| == p.submitted
    && (p.capacity > 0 ==> |p.queue| <= p.capacity)
    && |p.executions| + Energy(p) <= (MAX_RETRIES + 1) * p.submitted
  }

  ghost predicate Inv(p: Pool) {
    OnePlace(p) && AttemptsCounted(p) && TotalsOk(p)
  }

  lemma {:induction false} NothingIn(workers: seq<Worker>, f: Worker -> int)
    requires forall w :: 0 <= w < |workers| ==> workers[w].Idle?
    requires f(Idle) == 0
    ensures Sum(workers, f) == 0
  {
    if workers != [] {
      NothingIn(workers[..|workers| - 1], f);
    }
  }

  lemma InitialInv(p: Pool)
    requires Initial(p)
    ensures Inv(p)
  {
    forall id: nat
      ensures Places(p, id) == 0
    {
      NothingIn(p.workers, Carries(id));
    }
    NothingIn(p.workers, Pending());
    NothingIn(p.workers, Busy());
    NothingIn(p.workers, WorkerEnergy());
  }

  lemma PlacesStep(p: Pool, step: Step, id: nat)
    requires Enabled(p, step)
    ensures Places(Next(p, step), id) == Places(p, id) + if step.Submit? && id == p.submitted then 1 else 0
  {
    match step
    case Submit(priority) => SumPush(p.queue, Task(p.submitted, priority, 0), TaskIs(id));
    case AddWorker => SumPush(p.workers, Idle, Carries(id));
    case Take(w, i) =>
      SumWithout(p.queue, i, TaskIs(id));
      SumUpdate(p.workers, w, Running(p.queue[i]), Carries(id));
    case Succeed(w) => FinishPlaces(p, w, Succeeded, id);
    case Crash(w) => FinishPlaces(p, w, Crashed, id);
    case Fail(w) =>
      var task := p.workers[w].task;
      if task.retryCount < MAX_RETRIES {
        SumUpdate(p.workers, w, Requeueing(task.(retryCount := task.retryCount + 1)), Carries(id));
      } else {
        FinishPlaces(p, w, Exhausted, id);
      }
    case Requeue(w) =>
      SumPush(p.queue, p.workers[w].task, TaskIs(id));
      SumUpdate(p.workers, w, Idle, Carries(id));
  }

  lemma FinishPlaces(p: Pool, w: nat, outcome: Outcome, id: nat)
    requires Working(p, w)
    ensures Places(Finish(p, w, outcome), id) == Places(p, id)
  {
    SumUpdate(p.workers, w, Idle, Carries(id));
    SumPush(p.finished, Done(p.workers[w].task.id, outcome), DoneIs(id));
  }

  /** The task a worker carries is nowhere else. */
  lemma CarriedAlone(p: Pool, w: nat)
    requires OnePlace(p) && w < |p.workers| && !p.workers[w].Idle?
    ensures var id := p.workers[w].task.id;
      && id < p.submitted
      && (forall i :: 0 <= i < |p.queue| ==> p.queue[i].id != id)
      && (forall v :: 0 <= v < |p.workers| && v != w && !p.workers[v].Idle? ==> p.workers[v].task.id != id)
      && (forall d :: 0 <= d < |p.finished| ==> p.finished[d].id != id)
  {
    var id := p.workers[w].task.id;
    assert Places(p, id) == if id < p.submitted then 1 else 0;
    SumNonNegative(p.queue, TaskIs(id));
    SumNonNegative(p.finished, DoneIs(id));
    SumUpdate(p.workers, w, Idle, Carries(id));
    SumNonNegative(p.workers[w := Idle], Carries(id));
    forall i | 0 <= i < |p.queue|
      ensures p.queue[i].id != id
    {
      SumAtLeast(p.queue, TaskIs(id), i);
    }
    forall v | 0 <= v < |p.workers| && v != w && !p.workers[v].Idle?
      ensures p.workers[v].task.id != id
    {
      SumAtLeast(p.workers[w := Idle], Carries(id), v);
    }
    forall d | 0 <= d < |p.finished|
      ensures p.finished[d].id != id
    {
      SumAtLeast(p.finished, DoneIs(id), d);
    }
  }

  lemma AttemptsPush(p: Pool, q: Pool, x: nat)
    requires q.executions == p.executions + [x]
    ensures forall id: nat :: Attempts(q, id) == Attempts(p, id) + if id == x then 1 else 0
  {
    forall id: nat
      ensures Attempts(q, id) == Attempts(p, id) + if id == x then 1 else 0
    {
      SumPush(p.executions, x, Is(id));
    }
  }

  /** The attempt of a carried task is counted once, for that task alone. */
  lemma AttemptCounted(p: Pool, step: Step)
    requires OnePlace(p) && AttemptsCounted(p) && Enabled(p, step)
    requires step.Succeed? || step.Fail? || step.Crash?
    ensures AttemptsCounted(Next(p, step))
  {
    CarriedAlone(p, step.w);
    AttemptsPush(p, Next(p, step), p.workers[step.w].task.id);
    hide Attempts, OnePlace;
  }

  lemma SameAttempts(p: Pool, q: Pool)
    requires q.executions == p.executions
    ensures forall id: nat :: Attempts(q, id) == Attempts(p, id)
  {
  }

  lemma AttemptsStep(p: Pool, step: Step)
    requires OnePlace(p) && AttemptsCounted(p) && Enabled(p, step)
    ensures AttemptsCounted(Next(p, step))
  {
    if step.Succeed? || step.Fail? || step.Crash? {
      AttemptCounted(p, step);
    } else {
      SameAttempts(p, Next(p, step));
      hide Attempts, OnePlace;
    }
  }

  lemma FinishTotals(p: Pool, w: nat, outcome: Outcome)
    requires TotalsOk(p) && Working(p, w) && p.workers[w].task.retryCount <= MAX_RETRIES
    ensures TotalsOk(Finish(p, w, outcome))
  {
    SumUpdate(p.workers, w, Idle, Pending());
    SumUpdate(p.workers, w, Idle, Busy());
    SumUpdate(p.workers, w, Idle, WorkerEnergy());
    SumPush(p.finished, Done(p.workers[w].task.id, outcome), Well());
  }

  lemma TakeTotals(p: Pool, w: nat, i: nat)
    requires TotalsOk(p) && Enabled(p, Take(w, i))
    ensures TotalsOk(Next(p, Take(w, i)))
  {
    SumWithout(p.queue, i, TaskEnergy());
    SumUpdate(p.workers, w, Running(p.queue[i]), WorkerEnergy());
    SumUpdate(p.workers, w, Running(p.queue[i]), Pending());
    SumUpdate(p.workers, w, Running(p.queue[i]), Busy());
  }

  lemma FailTotals(p: Pool, w: nat)
    requires TotalsOk(p) && Working(p, w) && p.workers[w].task.retryCount <= MAX_RETRIES
    ensures TotalsOk(Failed(p, w))
  {
    hide Sum;
    var task := p.workers[w].task;
    if task.retryCount < MAX_RETRIES {
      var again := Requeueing(task.(retryCount := task.retryCount + 1));
      SumUpdate(p.workers, w, again, Pending());
      SumUpdate(p.workers, w, again, Busy());
      SumUpdate(p.workers, w, again, WorkerEnergy());
    } else {
      FinishTotals(p, w, Exhausted);
    }
  }

  lemma SubmitTotals(p: Pool, priority: int)
    requires TotalsOk(p) && Enabled(p, Submit(priority))
    ensures TotalsOk(Next(p, Submit(priority)))
  {
    SumPush(p.queue, Task(p.submitted, priority, 0), TaskEnergy());
  }

  lemma AddWorkerTotals(p: Pool)
    requires TotalsOk(p) && Enabled(p, AddWorker)
    ensures TotalsOk(Next(p, AddWorker))
  {
    SumPush(p.workers, Idle, Pending());
    SumPush(p.workers, Idle, Busy());
    SumPush(p.workers, Idle, WorkerEnergy());
  }

  lemma RequeueTotals(p: Pool, w: nat)
    requires TotalsOk(p) && Enabled(p, Requeue(w))
    ensures TotalsOk(Next(p, Requeue(w)))
  {
    SumPush(p.queue, p.workers[w].task, TaskEnergy());
    SumUpdate(p.workers, w, Idle, Pending());
    SumUpdate(p.workers, w, Idle, Busy());
    SumUpdate(p.workers, w, Idle, WorkerEnergy());
  }

  /** Every step keeps the invariant. */
  lemma InvStep(p: Pool, step: Step)
    requires Inv(p) && Enabled(p, step)
    ensures Inv(Next(p, step))
  {
    forall id: nat
      ensures Places(Next(p, step), id) == if id < Next(p, step).submitted then 1 else 0
    {
      PlacesStep(p, step, id);
    }
    hide Places;
    AttemptsStep(p, step);
    hide TotalsOk;
    match step
    case Submit(priority) => SubmitTotals(p, priority);
    case AddWorker => AddWorkerTotals(p);
    case Take(w, i) => TakeTotals(p, w, i);
    case Succeed(w) => FinishTotals(p, w, Succeeded);
    case Crash(w) => FinishTotals(p, w, Crashed);
    case Fail(w) => FailTotals(p, w);
    case Requeue(w) => RequeueTotals(p, w);
  }

  lemma {:induction false} InvRun(p: Pool, steps: seq<Step>)
    requires Inv(p) && Legal(p, steps)
    ensures Inv(After(p, steps))
    decreases |steps|
  {
    hide Inv, Next;
    if steps != [] {
      InvStep(p, steps[0]);
      InvRun(Next(p, steps[0]), steps[1..]);
    }
  }

  // ---- Main results ----

  lemma {:induction false} SumPositive<T>(s: seq<T>, f: T -> int) returns (i: nat)
    requires Sum(s, f) > 0
    ensures i < |s| && f(s[i]) > 0
  {
    var n := |s| - 1;
    if f(s[n]) > 0 {
      i := n;
    } else {
      i := SumPositive(s[..n], f);
    }
  }

  /** A submitted task is queued, with a worker, or finished. */
  lemma SomePlace(p: Pool, id: nat)
    requires OnePlace(p) && id < p.submitted
    ensures || (exists i :: 0 <= i < |p.queue| && p.queue[i].id == id)
            || (exists w :: 0 <= w < |p.workers| && !p.workers[w].Idle? && p.workers[w].task.id == id)
            || (exists d :: 0 <= d < |p.finished| && p.finished[d].id == id)
  {
    assert Places(p, id) == 1;
    if Sum(p.queue, TaskIs(id)) > 0 {
      var i := SumPositive(p.queue, TaskIs(id));
    } else if Sum(p.workers, Carries(id)) > 0 {
      var w := SumPositive(p.workers, Carries(id));
    } else {
      var d := SumPositive(p.finished, DoneIs(id));
    }
  }

  /** At every moment of every run each submitted task is in exactly one place (queued, with a worker, finished), once,
      and has been executed at most four times. */
  lemma EachTaskOnce(start: Pool, steps: seq<Step>, id: nat)
    requires Initial(start) && Legal(start, steps)
    ensures var p := After(start, steps);
      && Places(p, id) == (if id < p.submitted then 1 else 0)
      && 0 <= Attempts(p, id) <= MAX_RETRIES + 1
      && (id >= p.submitted ==> Attempts(p, id) == 0)
  {
    InitialInv(start);
    InvRun(start, steps);
    var p := After(start, steps);
    if id < p.submitted {
      SomePlace(p, id);
    }
  }

  /** The counters count executions: successes are finished tasks, and every execution but those whose retry still
      waits for room is either a success or a failure. */
  lemma CountersAddUp(start: Pool, steps: seq<Step>)
    requires Initial(start) && Legal(start, steps)
    ensures var p := After(start, steps);
      && p.processed == p.successful + p.failed
      && p.processed + Sum(p.workers, Pending()) == |p.executions|
      && p.successful == Sum(p.finished, Well())
      && |p.executions| <= (MAX_RETRIES + 1) * p.submitted
  {
    InitialInv(start);
    InvRun(start, steps);
    EnergyNonNegative(After(start, steps));
  }

  lemma EnergyNonNegative(p: Pool)
    requires AttemptsCounted(p)
    ensures Energy(p) >= 0
  {
    Bounded(p.queue, TaskEnergy());
    Bounded(p.workers, WorkerEnergy());
  }

  lemma {:induction false} Bounded<T>(s: seq<T>, f: T -> int)
    requires forall i :: 0 <= i < |s| ==> f(s[i]) >= 0
    ensures Sum(s, f) >= 0
  {
    if s != [] {
      Bounded(s[..|s| - 1], f);
    }
  }

  // ---- What the executions of a task decide ----

  datatype Result = Fills | Fails | Raises

  /** How the execution that a step ends turned out, if it is one of the given task. */
  function ResultIn(p: Pool, step: Step, id: nat): seq<Result>
    requires Enabled(p, step)
  {
    match step
    case Succeed(w) => if p.workers[w].task.id == id then [Fills] else []
    case Fail(w) => if p.workers[w].task.id == id then [Result.Fails] else []
    case Crash(w) => if p.workers[w].task.id == id then [Raises] else []
    case _ => []
  }

  /** The results of a task's executions, in order. */
  function Results(p: Pool, steps: seq<Step>, id: nat): seq<Result>
    requires Legal(p, steps)
    decreases |steps|
  {
    if steps == [] then [] else ResultIn(p, steps[0], id) + Results(Next(p, steps[0]), steps[1..], id)
  }

  predicate OnlyFails(results: seq<Result>) {
    forall i :: 0 <= i < |results| ==> results[i].Fails?
  }

  /** The results that end a task with an outcome: a fill or an exception at once, failures only when there are four. */
  predicate Decides(results: seq<Result>, outcome: Outcome) {
    && results != []
    && var n := |results| - 1;
       && OnlyFails(results[..n])
       && match outcome
          case Succeeded => n <= 3 && results[n].Fills?
          case Crashed => n <= 3 && results[n].Raises?
          case Exhausted => n == 3 && results[n].Fails?
  }

  /** A task still on its way has failed as often as it was retried; a finished one has the outcome its results decide. */
  ghost predicate Told(p: Pool, id: nat, results: seq<Result>) {
    && (id >= p.submitted ==> results == [])
    && (forall i :: 0 <= i < |p.queue| && p.queue[i].id == id ==> |results| == p.queue[i].retryCount <= 3 && OnlyFails(results))
    && (forall w :: 0 <= w < |p.workers| && !p.workers[w].Idle? && p.workers[w].task.id == id ==>
          |results| == p.workers[w].task.retryCount <= 3 && OnlyFails(results))
    && (forall d :: 0 <= d < |p.finished| && p.finished[d].id == id ==> Decides(results, p.finished[d].outcome))
  }

  lemma ToldStep(p: Pool, step: Step, id: nat, results: seq<Result>)
    requires Told(p, id, results) && OnePlace(p) && Enabled(p, step)
    ensures Told(Next(p, step), id, results + ResultIn(p, step, id))
  {
    var after := results + ResultIn(p, step, id);
    assert ResultIn(p, step, id) == [] ==> after == results;
    if step.Succeed? || step.Fail? || step.Crash? || step.Requeue? {
      CarriedAlone(p, step.w);
      assert |after| == |results| + 1 ==> after[..|results|] == results;
    }
    hide OnePlace;
  }

  lemma {:induction false} ToldRun(p: Pool, steps: seq<Step>, id: nat, results: seq<Result>)
    requires Told(p, id, results) && Inv(p) && Legal(p, steps)
    ensures Told(After(p, steps), id, results + Results(p, steps, id))
    decreases |steps|
  {
    hide Told, Inv, Next, OnePlace;
    if steps == [] {
      assert results + [] == results;
    } else {
      OfInv(p);
      ToldStep(p, steps[0], id, results);
      InvStep(p, steps[0]);
      ToldRun(Next(p, steps[0]), steps[1..], id, results + ResultIn(p, steps[0], id));
      Associate(results, ResultIn(p, steps[0], id), Results(Next(p, steps[0]), steps[1..], id));
    }
  }

  lemma OfInv(p: Pool)
    requires Inv(p)
    ensures OnePlace(p)
  {
  }

  lemma Associate<T>(a: seq<T>, b: seq<T>, c: seq<T>)
    ensures (a + b) + c == a + (b + c)
  {
  }

  ghost predicate EndedAs(p: Pool, id: nat, outcome: Outcome) {
    exists d :: 0 <= d < |p.finished| && p.finished[d] == Done(id, outcome)
  }

  /** Main result: over every run the results of a task's executions decide it. It has ended as filled exactly when the last
      result is a fill, as crashed exactly when the last is an exception, as exhausted exactly when there are four failures;
      otherwise it is still on its way, and nothing comes after a result that ends it. */
  lemma ResultsDecide(start: Pool, steps: seq<Step>, id: nat)
    requires Initial(start) && Legal(start, steps)
    ensures var p, results := After(start, steps), Results(start, steps, id);
      && (EndedAs(p, id, Succeeded) <==> results != [] && results[|results| - 1].Fills?)
      && (EndedAs(p, id, Crashed) <==> results != [] && results[|results| - 1].Raises?)
      && (EndedAs(p, id, Exhausted) <==> |results| == 4 && OnlyFails(results))
      && |results| <= 4 && (results != [] ==> OnlyFails(results[..|results| - 1]))
  {
    var p, results := After(start, steps), Results(start, steps, id);
    InitialInv(start);
    InvRun(start, steps);
    OfInv(start);
    OfInv(p);
    ToldRun(start, steps, id, []);
    assert [] + results == results;
    hide Inv, After, Results, Told;
    ToldTells(p, id, results);
  }

  lemma ToldTells(p: Pool, id: nat, results: seq<Result>)
    requires OnePlace(p) && Told(p, id, results)
    ensures EndedAs(p, id, Succeeded) <==> results != [] && results[|results| - 1].Fills?
    ensures EndedAs(p, id, Crashed) <==> results != [] && results[|results| - 1].Raises?
    ensures EndedAs(p, id, Exhausted) <==> |results| == 4 && OnlyFails(results)
    ensures |results| <= 4 && (results != [] ==> OnlyFails(results[..|results| - 1]))
  {
    if id < p.submitted {
      SomePlace(p, id);
    } else {
      NotYetPlaced(p, id);
    }
    hide OnePlace;
    if d :| 0 <= d < |p.finished| && p.finished[d].id == id {
      var outcome := p.finished[d].outcome;
      assert EndedAs(p, id, outcome) && Decides(results, outcome);
      forall other | EndedAs(p, id, other)
        ensures Decides(results, other)
      {
        var e :| 0 <= e < |p.finished| && p.finished[e] == Done(id, other);
      }
      assert results == results[..|results| - 1] + [results[|results| - 1]];
    }
  }

  lemma NotYetPlaced(p: Pool, id: nat)
    requires OnePlace(p) && id >= p.submitted
    ensures forall d :: 0 <= d < |p.finished| ==> p.finished[d].id != id
  {
    assert Places(p, id) == 0;
    SumNonNegative(p.queue, TaskIs(id));
    SumNonNegative(p.workers, Carries(id));
    forall d | 0 <= d < |p.finished|
      ensures p.finished[d].id != id
    {
      SumAtLeast(p.finished, DoneIs(id), d);
    }
  }

  lemma WithoutMembers<T>(s: seq<T>, i: nat)
    requires i < |s|
    ensures multiset(s) == multiset(Without(s, i)) + multiset{s[i]}
    ensures forall x :: x in Without(s, i) ==> x in s
  {
    assert s == s[..i] + [s[i]] + s[i + 1..];
  }

  /** Whatever a worker takes, nothing it leaves in the queue has a higher priority; it takes that one task, and it can
      take one whenever it is idle and the queue is not empty. */
  lemma TakesHighest(p: Pool, w: nat)
    requires w < |p.workers| && p.workers[w].Idle?
    ensures p.queue != [] <==> exists i: nat :: Enabled(p, Take(w, i))
    ensures forall i: nat :: Enabled(p, Take(w, i)) ==>
      var q := Next(p, Take(w, i));
      && q.workers[w].Running?
      && multiset(p.queue) == multiset(q.queue) + multiset{q.workers[w].task}
      && forall task :: task in q.queue ==> task.priority <= q.workers[w].task.priority
  {
    if p.queue != [] {
      var i := BestExists(p.queue);
      assert Enabled(p, Take(w, i));
    }
    forall i: nat | Enabled(p, Take(w, i))
      ensures multiset(p.queue) == multiset(Without(p.queue, i)) + multiset{p.queue[i]}
      ensures forall task :: task in Without(p.queue, i) ==> task.priority <= p.queue[i].priority
    {
      WithoutMembers(p.queue, i);
    }
  }

  // Every worker step uses up some of the work that submissions brought in.

  function TaskWork(): Task -> int {
    (t: Task) => 3 * (MAX_RETRIES + 1 - t.retryCount)
  }

  function WorkerWork(): Worker -> int {
    (w: Worker) =>
      match w
      case Idle => 0
      case Running(t) => 3 * (MAX_RETRIES + 1 - t.retryCount) - 1
      case Requeueing(t) => 3 * (MAX_RETRIES + 1 - t.retryCount) + 1
  }

  function Work(p: Pool): int {
    Sum(p.queue, TaskWork()) + Sum(p.workers, WorkerWork())
  }

  predicate External(step: Step) {
    step.Submit? || step.AddWorker?
  }

  lemma WorkStep(p: Pool, step: Step)
    requires AttemptsCounted(p) && Enabled(p, step)
    ensures step.Submit? ==> Work(Next(p, step)) == Work(p) + 3 * (MAX_RETRIES + 1)
    ensures step.AddWorker? ==> Work(Next(p, step)) == Work(p)
    ensures !External(step) ==> Work(Next(p, step)) < Work(p)
  {
    match step
    case Submit(priority) => SumPush(p.queue, Task(p.submitted, priority, 0), TaskWork());
    case AddWorker => SumPush(p.workers, Idle, WorkerWork());
    case Take(w, i) =>
      SumWithout(p.queue, i, TaskWork());
      SumUpdate(p.workers, w, Running(p.queue[i]), WorkerWork());
    case Succeed(w) => SumUpdate(p.workers, w, Idle, WorkerWork());
    case Crash(w) => SumUpdate(p.workers, w, Idle, WorkerWork());
    case Fail(w) => SumUpdate(p.workers, w, Next(p, step).workers[w], WorkerWork());
    case Requeue(w) =>
      SumPush(p.queue, p.workers[w].task, TaskWork());
      SumUpdate(p.workers, w, Idle, WorkerWork());
  }

  function Submits(steps: seq<Step>): nat {
    if steps == [] then 0 else Submits(steps[1..]) + if steps[0].Submit? then 1 else 0
  }

  function WorkerSteps(steps: seq<Step>): nat {
    if steps == [] then 0 else WorkerSteps(steps[1..]) + if External(steps[0]) then 0 else 1
  }

  /** Finite submissions drain: however the workers interleave, a run holds at most twelve worker steps per
      submission. */
  lemma {:induction false} WorkersRunDry(p: Pool, steps: seq<Step>)
    requires Inv(p) && Legal(p, steps)
    ensures WorkerSteps(steps) <= Work(p) + 3 * (MAX_RETRIES + 1) * Submits(steps)
    decreases |steps|
  {
    if steps == [] {
      Bounded(p.queue, TaskWork());
      Bounded(p.workers, WorkerWork());
    } else {
      WorkStep(p, steps[0]);
      InvStep(p, steps[0]);
      hide Work, Next, Enabled, OnePlace, AttemptsCounted, TotalsOk, After;
      WorkersRunDry(Next(p, steps[0]), steps[1..]);
    }
  }

  /** From the start every worker step is paid for by a submission: at most twelve each. */
  lemma TwelveStepsEach(start: Pool, steps: seq<Step>)
    requires Initial(start) && Legal(start, steps)
    ensures WorkerSteps(steps) <= 12 * Submits(steps)
  {
    InitialInv(start);
    NothingIn(start.workers, WorkerWork());
    WorkersRunDry(start, steps);
  }

  /** No worker can take a step; submitters and the scaling loop may. */
  ghost predicate Stuck(p: Pool) {
    forall step :: Enabled(p, step) ==> External(step)
  }

  predicate Drained(p: Pool) {
    p.queue == [] && forall w :: 0 <= w < |p.workers| ==> p.workers[w].Idle?
  }

  predicate Deadlocked(p: Pool) {
    !Room(p) && forall w :: 0 <= w < |p.workers| ==> p.workers[w].Requeueing?
  }

  lemma {:induction false} BestExists(queue: seq<Task>) returns (i: nat)
    requires queue != []
    ensures Best(queue, i)
  {
    var n := |queue| - 1;
    if n == 0 {
      i := 0;
    } else {
      i := BestExists(queue[..n]);
      assert forall j :: 0 <= j < n ==> queue[..n][j] == queue[j];
      if queue[n].priority > queue[i].priority {
        i := n;
      }
    }
  }

  lemma Progress(p: Pool) returns (step: Step)
    requires p.workers != [] && !Drained(p) && !Deadlocked(p)
    ensures Enabled(p, step) && !External(step)
  {
    if w :| 0 <= w < |p.workers| && p.workers[w].Running? {
      step := Succeed(w);
    } else if w :| 0 <= w < |p.workers| && p.workers[w].Requeueing? && Room(p) {
      step := Requeue(w);
    } else {
      var w :| 0 <= w < |p.workers| && p.workers[w].Idle?;
      var i := BestExists(p.queue);
      step := Take(w, i);
    }
  }

  /** The workers there are can take no step exactly when there is nothing left to do, or when every one of them waits
      to put a retry into a full queue, from which only it and its peers could take. */
  lemma StuckIff(p: Pool)
    requires p.workers != []
    ensures Stuck(p) <==> Drained(p) || Deadlocked(p)
  {
    if !Drained(p) && !Deadlocked(p) {
      var step := Progress(p);
    }
  }

  /** When the workers stop without a deadlock, every submitted task is finished. */
  lemma DrainedFinishesAll(p: Pool)
    requires Inv(p) && Drained(p)
    ensures |p.finished| == p.submitted
    ensures forall id: nat :: id < p.submitted ==> Sum(p.finished, DoneIs(id)) == 1
  {
    NothingIn(p.workers, Busy());
    forall id: nat | id < p.submitted
      ensures Sum(p.finished, DoneIs(id)) == 1
    {
      assert Places(p, id) == 1;
      NothingIn(p.workers, Carries(id));
    }
  }

  lemma {:induction false} AllBusy(workers: seq<Worker>)
    requires forall w :: 0 <= w < |workers| ==> !workers[w].Idle?
    ensures Sum(workers, Busy()) == |workers|
  {
    if workers != [] {
      AllBusy(workers[..|workers| - 1]);
    }
  }

  /** A deadlock needs as many unfinished tasks as the queue and the workers hold together; with fewer there is none. */
  lemma DeadlockNeeds(p: Pool)
    requires Inv(p) && Deadlocked(p)
    ensures p.capacity > 0 && p.submitted - |p.finished| == p.capacity + |p.workers|
  {
    AllBusy(p.workers);
  }

  function FailAll(from: nat, count: nat): seq<Step>
    decreases count - from
  {
    if from >= count then [] else [Fail(from)] + FailAll(from + 1, count)
  }

  predicate Doomed(p: Pool, from: nat) {
    && !Room(p)
    && (forall w :: 0 <= w < |p.workers| && w < from ==> p.workers[w].Requeueing?)
    && (forall w :: from <= w < |p.workers| ==> p.workers[w].Running? && p.workers[w].task.retryCount < MAX_RETRIES)
  }

  /** Conversely, once the queue is full and every worker runs a task that may be retried, failures alone lead into
      the deadlock. */
  lemma {:induction false} FailuresDeadlock(p: Pool, from: nat)
    requires Doomed(p, from) && from <= |p.workers|
    ensures Legal(p, FailAll(from, |p.workers|)) && Deadlocked(After(p, FailAll(from, |p.workers|)))
    decreases |p.workers| - from
  {
    var steps := FailAll(from, |p.workers|);
    if from < |p.workers| {
      assert Enabled(p, steps[0]);
      FailuresDeadlock(Next(p, steps[0]), from + 1);
      assert steps[1..] == FailAll(from + 1, |p.workers|);
    }
  }

  // ---- When the deadlock is final, and how it is reached ----

  /** Nothing at all can happen any more. */
  ghost predicate Halted(p: Pool) {
    forall step :: !Enabled(p, step)
  }

  /** Nothing can happen any more exactly in a deadlock of a pool that may not grow. */
  lemma HaltedIff(p: Pool)
    ensures Halted(p) <==> Deadlocked(p) && |p.workers| >= p.maxWorkers
  {
    if Halted(p) {
      assert !Enabled(p, Submit(0)) && !Enabled(p, AddWorker);
      if p.workers != [] && !Drained(p) && !Deadlocked(p) {
        var step := Progress(p);
      }
    }
  }

  /** A pool that may still grow gets out of its deadlock: a worker that is added finds a task to take, and taking it
      makes room for every waiting retry. */
  lemma GrowingEndsDeadlock(p: Pool) returns (i: nat)
    requires Inv(p) && Deadlocked(p) && |p.workers| < p.maxWorkers
    ensures Enabled(p, AddWorker) && Enabled(Next(p, AddWorker), Take(|p.workers|, i))
    ensures var q := Next(Next(p, AddWorker), Take(|p.workers|, i));
      forall w :: 0 <= w < |p.workers| ==> Enabled(q, Requeue(w))
  {
    i := BestExists(p.queue);
  }

  lemma {:induction false} Extend(p: Pool, steps: seq<Step>, step: Step)
    requires Legal(p, steps) && Enabled(After(p, steps), step)
    ensures Legal(p, steps + [step]) && After(p, steps + [step]) == Next(After(p, steps), step)
    ensures Submits(steps + [step]) == Submits(steps) + if step.Submit? then 1 else 0
    decreases |steps|
  {
    var longer := steps + [step];
    if steps == [] {
      assert longer[1..] == [];
    } else {
      assert longer[0] == steps[0] && longer[1..] == steps[1..] + [step];
      Extend(Next(p, steps[0]), steps[1..], step);
    }
  }

  /** The first workers run tasks on their first attempt, the others are idle. */
  ghost predicate Shape(p: Pool, start: Pool, workers: nat, busy: nat, queued: nat) {
    && p.capacity == start.capacity && p.maxWorkers == start.maxWorkers
    && |p.workers| == workers && |p.queue| == queued
    && (forall w :: 0 <= w < |p.workers| && w < busy ==> p.workers[w].Running? && p.workers[w].task.retryCount == 0)
    && (forall w :: busy <= w < |p.workers| ==> p.workers[w].Idle?)
  }

  ghost predicate Reached(start: Pool, steps: seq<Step>, submits: nat, workers: nat, busy: nat, queued: nat) {
    && Legal(start, steps) && Submits(steps) == submits
    && Shape(After(start, steps), start, workers, busy, queued)
  }

  lemma {:induction false} Grow(start: Pool, before: seq<Step>, workers: nat, k: nat) returns (steps: seq<Step>)
    requires Reached(start, before, 0, workers, 0, 0) && (k == 0 || workers + k <= start.maxWorkers)
    ensures Reached(start, steps, 0, workers + k, 0, 0)
    decreases k
  {
    steps := before;
    if k > 0 {
      Extend(start, before, AddWorker);
      steps := Grow(start, before + [AddWorker], workers + 1, k - 1);
    }
  }

  /** A task goes straight to the given idle worker. */
  lemma Hand(start: Pool, before: seq<Step>, submits: nat, workers: nat, busy: nat) returns (steps: seq<Step>)
    requires Reached(start, before, submits, workers, busy, 0) && busy < workers && start.capacity > 0
    ensures Reached(start, steps, submits + 1, workers, busy + 1, 0)
  {
    var task := Task(After(start, before).submitted, 0, 0);
    Extend(start, before, Submit(0));
    steps := before + [Submit(0)];
    assert After(start, steps).queue == [task];
    Extend(start, steps, Take(busy, 0));
    steps := steps + [Take(busy, 0)];
    assert Without([task], 0) == [];
  }

  lemma {:induction false} Churn(start: Pool, before: seq<Step>, submits: nat, workers: nat, k: nat) returns (steps: seq<Step>)
    requires Reached(start, before, submits, workers, 0, 0) && workers > 0 && start.capacity > 0
    ensures Reached(start, steps, submits + k, workers, 0, 0)
    decreases k
  {
    steps := before;
    if k > 0 {
      steps := Hand(start, before, submits, workers, 0);
      Extend(start, steps, Succeed(0));
      steps := Churn(start, steps + [Succeed(0)], submits + 1, workers, k - 1);
    }
  }

  lemma {:induction false} Engage(start: Pool, before: seq<Step>, submits: nat, workers: nat, busy: nat) returns (steps: seq<Step>)
    requires Reached(start, before, submits, workers, busy, 0) && busy <= workers && start.capacity > 0
    ensures Reached(start, steps, submits + workers - busy, workers, workers, 0)
    decreases workers - busy
  {
    steps := before;
    if busy < workers {
      steps := Hand(start, before, submits, workers, busy);
      steps := Engage(start, steps, submits + 1, workers, busy + 1);
    }
  }

  lemma {:induction false} Fill(start: Pool, before: seq<Step>, submits: nat, workers: nat, queued: nat) returns (steps: seq<Step>)
    requires Reached(start, before, submits, workers, workers, queued) && queued <= start.capacity
    ensures Reached(start, steps, submits + start.capacity - queued, workers, workers, start.capacity)
    decreases start.capacity - queued
  {
    steps := before;
    if queued < start.capacity {
      Extend(start, before, Submit(0));
      steps := Fill(start, before + [Submit(0)], submits + 1, workers, queued + 1);
    }
  }

  lemma {:induction false} Append(p: Pool, a: seq<Step>, b: seq<Step>)
    requires Legal(p, a) && Legal(After(p, a), b)
    ensures Legal(p, a + b) && After(p, a + b) == After(After(p, a), b)
    ensures Submits(a + b) == Submits(a) + Submits(b)
    decreases |a|
  {
    if a == [] {
      assert a + b == b;
    } else {
      assert (a + b)[0] == a[0] && (a + b)[1..] == a[1..] + b;
      Append(Next(p, a[0]), a[1..], b);
    }
  }

  lemma {:induction false} FailAllSubmitsNothing(from: nat, count: nat)
    ensures Submits(FailAll(from, count)) == 0
    decreases count - from
  {
    if from < count {
      FailAllSubmitsNothing(from + 1, count);
      assert FailAll(from, count)[1..] == FailAll(from + 1, count);
    }
  }

  /** A run from the start into a deadlock, with any number of submissions from one per place on, and with any number
      of workers the pool may grow to. */
  lemma DeadlockReached(start: Pool, grown: nat, submits: nat) returns (steps: seq<Step>)
    requires Initial(start) && start.workers != [] && start.capacity > 0
    requires grown == 0 || |start.workers| + grown <= start.maxWorkers
    requires submits >= start.capacity + |start.workers| + grown
    ensures Legal(start, steps) && Submits(steps) == submits && Deadlocked(After(start, steps))
    ensures |After(start, steps).workers| == |start.workers| + grown
  {
    var workers := |start.workers| + grown;
    var extra := submits - start.capacity - workers;
    assert Reached(start, [], 0, |start.workers|, 0, 0);
    hide Reached;
    steps := Grow(start, [], |start.workers|, grown);
    steps := Churn(start, steps, 0, workers, extra);
    steps := Engage(start, steps, extra, workers, 0);
    steps := Fill(start, steps, extra + workers, workers, 0);
    FullFails(start, steps, submits, workers);
    steps := steps + FailAll(0, workers);
  }

  lemma FullFails(start: Pool, steps: seq<Step>, submits: nat, workers: nat)
    requires start.capacity > 0 && Reached(start, steps, submits, workers, workers, start.capacity)
    ensures var longer := steps + FailAll(0, workers);
      && Legal(start, longer) && Submits(longer) == submits
      && Deadlocked(After(start, longer)) && |After(start, longer).workers| == workers
  {
    var p := After(start, steps);
    FailuresDeadlock(p, 0);
    FailAllSubmitsNothing(0, workers);
    Append(start, steps, FailAll(0, workers));
    FailAllKeepsWorkers(p, 0);
  }

  lemma {:induction false} FailAllKeepsWorkers(p: Pool, from: nat)
    requires Legal(p, FailAll(from, |p.workers|))
    ensures |After(p, FailAll(from, |p.workers|)).workers| == |p.workers|
    decreases |p.workers| - from
  {
    if from < |p.workers| {
      var steps := FailAll(from, |p.workers|);
      assert steps[0] == Fail(from) && steps[1..] == FailAll(from + 1, |p.workers|);
      FailAllKeepsWorkers(Next(p, steps[0]), from + 1);
    }
  }

  lemma {:induction false} RunKeeps(p: Pool, steps: seq<Step>)
    requires Legal(p, steps)
    ensures var q := After(p, steps);
      && q.submitted == p.submitted + Submits(steps) && |q.workers| >= |p.workers|
      && q.capacity == p.capacity && q.maxWorkers == p.maxWorkers
    decreases |steps|
  {
    if steps != [] {
      RunKeeps(Next(p, steps[0]), steps[1..]);
    }
  }

  ghost predicate LeadsToDeadlock(start: Pool, steps: seq<Step>, submits: nat) {
    Legal(start, steps) && Submits(steps) == submits && Deadlocked(After(start, steps))
  }

  ghost predicate MayDeadlock(start: Pool, submits: nat) {
    exists steps :: LeadsToDeadlock(start, steps, submits)
  }

  ghost predicate LeadsToHalt(start: Pool, steps: seq<Step>, submits: nat) {
    Legal(start, steps) && Submits(steps) == submits && Halted(After(start, steps))
  }

  ghost predicate MayHalt(start: Pool, submits: nat) {
    exists steps :: LeadsToHalt(start, steps, submits)
  }

  lemma DeadlockCosts(start: Pool, steps: seq<Step>)
    requires Initial(start) && Legal(start, steps) && Deadlocked(After(start, steps))
    ensures start.capacity > 0 && Submits(steps) >= start.capacity + |After(start, steps).workers|
    ensures |After(start, steps).workers| >= |start.workers|
  {
    InitialInv(start);
    InvRun(start, steps);
    RunKeeps(start, steps);
    DeadlockNeeds(After(start, steps));
  }

  /** From its start a pool can deadlock with a number of submissions exactly when its queue is bounded and they fill the
      queue and give every worker a task. */
  lemma DeadlockIff(start: Pool, submits: nat)
    requires Initial(start) && start.workers != []
    ensures MayDeadlock(start, submits) <==> start.capacity > 0 && submits >= start.capacity + |start.workers|
  {
    if MayDeadlock(start, submits) {
      var steps :| LeadsToDeadlock(start, steps, submits);
      DeadlockCosts(start, steps);
    }
    if start.capacity > 0 && submits >= start.capacity + |start.workers| {
      var steps := DeadlockReached(start, 0, submits);
      assert LeadsToDeadlock(start, steps, submits);
    }
  }

  /** And it can halt for good exactly when they suffice for as many workers as it may grow to as well. */
  lemma HaltIff(start: Pool, submits: nat)
    requires Initial(start) && start.workers != []
    ensures MayHalt(start, submits) <==>
      && start.capacity > 0
      && submits >= start.capacity + if start.maxWorkers > |start.workers| then start.maxWorkers else |start.workers|
  {
    var grown := if start.maxWorkers > |start.workers| then start.maxWorkers - |start.workers| else 0;
    if MayHalt(start, submits) {
      var steps :| LeadsToHalt(start, steps, submits);
      HaltedIff(After(start, steps));
      RunKeeps(start, steps);
      DeadlockCosts(start, steps);
    }
    if start.capacity > 0 && submits >= start.capacity + |start.workers| + grown {
      var steps := DeadlockReached(start, grown, submits);
      HaltedIff(After(start, steps));
      RunKeeps(start, steps);
      assert LeadsToHalt(start, steps, submits);
    }
  }

  // ---- The pool ----

  class OrderWorkerPool {
    const capacity: int
    const maxWorkers: int
    var taskQueue: seq<Task>
    var workers: seq<Worker>
    var totalSubmitted: nat
    var totalProcessed: nat
    var totalSuccessful: nat
    var totalFailed: nat
    ghost var executions: seq<nat>
    ghost var finished: seq<Done>

    ghost function State(): Pool
      reads this
    {
      Pool(capacity, maxWorkers, taskQueue, workers, totalSubmitted, totalProcessed, totalSuccessful, totalFailed,
           executions, finished)
    }

    constructor (minWorkers: nat, maxWorkers: int, capacity: int)
      ensures Initial(State()) && this.capacity == capacity && this.maxWorkers == maxWorkers
      ensures |workers| == if minWorkers as int <= maxWorkers then minWorkers else if maxWorkers < 0 then 0 else maxWorkers
    {
      this.capacity, this.maxWorkers := capacity, maxWorkers;
      taskQueue, totalSubmitted, totalProcessed, totalSuccessful, totalFailed := [], 0, 0, 0, 0;
      executions, finished := [], [];
      workers := [];
      new;
      for k := 0 to minWorkers
        invariant State() == Pool(capacity, maxWorkers, [], workers, 0, 0, 0, 0, [], [])
        invariant forall w :: 0 <= w < |workers| ==> workers[w].Idle?
        invariant |workers| == if k as int <= maxWorkers then k else if maxWorkers < 0 then 0 else maxWorkers
      {
        var added := StartWorker();
      }
    }

    method StartWorker() returns (added: bool)
      modifies this`workers
      ensures added == (|old(workers)| < maxWorkers)
      ensures added ==> State() == Next(old(State()), AddWorker)
      ensures !added ==> workers == old(workers)
    {
      if |workers| >= maxWorkers {
        return false;
      }
      workers := workers + [Idle];
      return true;
    }

    /** A submitter waits, with nothing changed, until the queue has room. */
    method SubmitOrder(priority: int) returns (accepted: bool)
      modifies this`taskQueue, this`totalSubmitted
      ensures accepted == old(Room(State()))
      ensures accepted ==> State() == Next(old(State()), Submit(priority))
      ensures !accepted ==> State() == old(State())
    {
      if capacity > 0 && |taskQueue| >= capacity {
        return false;
      }
      taskQueue := taskQueue + [Task(totalSubmitted, priority, 0)];
      totalSubmitted := totalSubmitted + 1;
      return true;
    }

    /** An idle worker takes a task of the highest priority; with an empty queue it goes on waiting. */
    method TakeTask(w: nat) returns (i: nat)
      requires w < |workers| && workers[w].Idle?
      modifies this`taskQueue, this`workers
      ensures old(taskQueue) == [] ==> State() == old(State())
      ensures old(taskQueue) != [] ==> old(Enabled(State(), Take(w, i))) && State() == Next(old(State()), Take(w, i))
    {
      i := 0;
      if taskQueue == [] {
        return;
      }
      for k := 1 to |taskQueue|
        invariant i < k
        invariant forall j :: 0 <= j < k ==> taskQueue[j].priority <= taskQueue[i].priority
      {
        if taskQueue[k].priority > taskQueue[i].priority {
          i := k;
        }
      }
      var task := taskQueue[i];
      taskQueue := taskQueue[..i] + taskQueue[i + 1..];
      workers := workers[w := Running(task)];
    }

    method Report(success: bool)
      modifies this`totalProcessed, this`totalSuccessful, this`totalFailed
      ensures totalProcessed == old(totalProcessed) + 1
      ensures totalSuccessful == if success then old(totalSuccessful) + 1 else old(totalSuccessful)
      ensures totalFailed == if success then old(totalFailed) else old(totalFailed) + 1
    {
      totalProcessed := totalProcessed + 1;
      if success {
        totalSuccessful := totalSuccessful + 1;
      } else {
        totalFailed := totalFailed + 1;
      }
    }

    /** What the order processor answered decides: a filled order ends the task; an exception ends it at once; anything
        else is a failure, retried while retries are left. */
    method ProcessOrder(w: nat, raised: bool, success: bool, filled: bool)
      requires w < |workers| && workers[w].Running?
      modifies this
      ensures State() == Next(old(State()), if raised then Crash(w) else if success && filled then Succeed(w) else Fail(w))
    {
      var task := workers[w].task;
      executions := executions + [task.id];
      if !raised && !(success && filled) && task.retryCount < MAX_RETRIES {
        workers := workers[w := Requeueing(task.(retryCount := task.retryCount + 1))];
        return;
      }
      workers := workers[w := Idle];
      Report(!raised && success && filled);
      finished := finished + [Done(task.id, if raised then Crashed else if success && filled then Succeeded else Exhausted)];
    }

    /** A waiting retry enters the queue once there is room, and only then counts as processed. */
    method PutBack(w: nat) returns (done: bool)
      requires w < |workers| && workers[w].Requeueing?
      modifies this
      ensures done == old(Room(State()))
      ensures done ==> State() == Next(old(State()), Requeue(w))
      ensures !done ==> State() == old(State())
    {
      if capacity > 0 && |taskQueue| >= capacity {
        return false;
      }
      taskQueue := taskQueue + [workers[w].task];
      workers := workers[w := Idle];
      Report(false);
      return true;
    }
  }
}
