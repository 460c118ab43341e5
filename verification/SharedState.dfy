/** Optimistic update of shared state under a short Redis lock: the atomic steps of any number of concurrent
    `update_state` calls over one Redis, interleaved in any order. */
module SharedState {
  import opened Wrappers

  type Key = string
  type TaskId = nat

  const MAX_RETRIES: nat := 5

  /** One call of `update_state`. */
  datatype Call<!V> = Call(key: Key, update: V -> V, default: V)

  /** Where a call stands. `Checking` to `Deleting` lie between a successful acquire and the end of release. */
  datatype Stage<V> =
    | Reading
    | Locking(seen: V, next: V)
    | Checking(seen: V, next: V)
    | Writing(seen: V, next: V)
    | Releasing(result: Option<V>)
    | Deleting(result: Option<V>)
    | Returned(value: V)
    | Raised

  datatype Task<!V> = Task(processId: string, call: Call<V>, attempt: nat, stage: Stage<V>, alive: bool)

  /** The stored lock value; `holder` records which task wrote it and is not visible to the program. */
  datatype Lock = Lock(value: string, holder: TaskId)

  datatype Commit<!V> = Commit(task: TaskId, call: Call<V>)

  /** Redis, the calls in progress, and (as a record of the run) the writes made so far in order. */
  datatype State<!V> = State(
    store: map<Key, V>, locks: map<Key, Lock>, tasks: map<TaskId, Task<V>>, commits: seq<Commit<V>>)

  datatype Action<!V> =
    | Start(task: TaskId, processId: string, call: Call<V>)
    | Read(task: TaskId)
    | Acquire(task: TaskId, stamp: string)
    | GiveUp(task: TaskId)
    | Recheck(task: TaskId)
    | Write(task: TaskId)
    | ReadLock(task: TaskId)
    | DeleteLock(task: TaskId)
    | Crash(task: TaskId)
    | Expire(key: Key)

  function Lookup<V>(store: map<Key, V>, call: Call<V>): V {
    if call.key in store then store[call.key] else call.default
  }

  function Apply<V>(store: map<Key, V>, call: Call<V>): map<Key, V> {
    store[call.key := call.update(Lookup(store, call))]
  }

  /** The calls carried out one after another, with nothing in between. */
  function Sequentially<V>(store: map<Key, V>, commits: seq<Commit<V>>): map<Key, V> {
    if commits == [] then store
    else Apply(Sequentially(store, commits[..|commits| - 1]), commits[|commits| - 1].call)
  }

  predicate Critical<V>(stage: Stage<V>) {
    stage.Checking? || stage.Writing? || stage.Releasing? || stage.Deleting?
  }

  predicate Running<V>(s: State<V>, t: TaskId) {
    t in s.tasks && s.tasks[t].alive
  }

  predicate InCritical<V>(s: State<V>, t: TaskId) {
    Running(s, t) && Critical(s.tasks[t].stage)
  }

  predicate Committed<V>(stage: Stage<V>) {
    (stage.Releasing? && stage.result.Some?) || (stage.Deleting? && stage.result.Some?) || stage.Returned?
  }

  predicate Owns(processId: string, lock: Lock) {
    processId <= lock.value
  }

  predicate Enabled<V>(s: State<V>, a: Action<V>) {
    match a
    case Start(t, _, _) => t !in s.tasks
    case Read(t) => Running(s, t) && s.tasks[t].stage.Reading?
    case Acquire(t, _) => Running(s, t) && s.tasks[t].stage.Locking? && s.tasks[t].call.key !in s.locks
    case GiveUp(t) => Running(s, t) && s.tasks[t].stage.Locking?
    case Recheck(t) => Running(s, t) && s.tasks[t].stage.Checking?
    case Write(t) => Running(s, t) && s.tasks[t].stage.Writing?
    case ReadLock(t) => Running(s, t) && s.tasks[t].stage.Releasing?
    case DeleteLock(t) => Running(s, t) && s.tasks[t].stage.Deleting?
    case Crash(t) => Running(s, t)
    case Expire(key) => key in s.locks
  }

  /** A failed attempt is followed by another until the retries are used up. */
  function Finish<V>(task: Task<V>, result: Option<V>): Task<V> {
    match result
    case Some(v) => task.(stage := Returned(v))
    case None =>
      if task.attempt + 1 < MAX_RETRIES then task.(attempt := task.attempt + 1, stage := Reading)
      else task.(attempt := task.attempt + 1, stage := Raised)
  }

  function Set<V>(s: State<V>, t: TaskId, task: Task<V>): State<V> {
    s.(tasks := s.tasks[t := task])
  }

  function Step<V(==)>(s: State<V>, a: Action<V>): State<V>
    requires Enabled(s, a)
  {
    match a
    case Start(t, processId, call) => Set(s, t, Task(processId, call, 0, Reading, true))
    case Read(t) =>
      var task := s.tasks[t];
      var seen := Lookup(s.store, task.call);
      Set(s, t, task.(stage := Locking(seen, task.call.update(seen))))
    case Acquire(t, stamp) =>
      var task := s.tasks[t];
      Set(s, t, task.(stage := Checking(task.stage.seen, task.stage.next)))
        .(locks := s.locks[task.call.key := Lock(task.processId + ":" + stamp, t)])
    case GiveUp(t) => Set(s, t, Finish(s.tasks[t], None))
    case Recheck(t) =>
      var task := s.tasks[t];
      Set(s, t, task.(stage :=
        if Lookup(s.store, task.call) == task.stage.seen then Writing(task.stage.seen, task.stage.next)
        else Releasing(None)))
    case Write(t) =>
      var task := s.tasks[t];
      Set(s, t, task.(stage := Releasing(Some(task.stage.next))))
        .(store := s.store[task.call.key := task.stage.next], commits := s.commits + [Commit(t, task.call)])
    case ReadLock(t) =>
      var task := s.tasks[t];
      Set(s, t, if task.call.key in s.locks && Owns(task.processId, s.locks[task.call.key])
                then task.(stage := Deleting(task.stage.result))
                else Finish(task, task.stage.result))
    case DeleteLock(t) =>
      var task := s.tasks[t];
      Set(s, t, Finish(task, task.stage.result)).(locks := s.locks - {task.call.key})
    case Crash(t) => Set(s, t, s.tasks[t].(alive := false))
    case Expire(key) => s.(locks := s.locks - {key})
  }

  /** A lock does not expire while the task that took it is alive and has not released it. */
  predicate Timely<V>(s: State<V>, a: Action<V>)
    requires Enabled(s, a)
  {
    a.Expire? ==> !InCritical(s, s.locks[a.key].holder)
  }

  function Initial<V>(store: map<Key, V>): State<V> {
    State(store, map[], map[], [])
  }

  /** A possible run from an initial store, and the state it ends in. */
  predicate Possible<V(==)>(store: map<Key, V>, actions: seq<Action<V>>)
    decreases |actions|, 0
  {
    actions == [] ||
    var n := |actions| - 1;
    Possible(store, actions[..n]) && Enabled(Final(store, actions[..n]), actions[n])
  }

  function Final<V(==)>(store: map<Key, V>, actions: seq<Action<V>>): State<V>
    requires Possible(store, actions)
    decreases |actions|, 1
  {
    if actions == [] then Initial(store)
    else Step(Final(store, actions[..|actions| - 1]), actions[|actions| - 1])
  }

  predicate AllTimely<V(==)>(store: map<Key, V>, actions: seq<Action<V>>)
    requires Possible(store, actions)
  {
    actions == [] ||
    var n := |actions| - 1;
    AllTimely(store, actions[..n]) && Timely(Final(store, actions[..n]), actions[n])
  }

  // ---- The invariant ----

  /** A task inside the lock is the recorded holder, and the stored value names its process. */
  ghost predicate HoldsLock<V>(s: State<V>, t: TaskId)
    requires t in s.tasks
  {
    var key := s.tasks[t].call.key;
    key in s.locks && s.locks[key].holder == t && Owns(s.tasks[t].processId, s.locks[key])
  }

  /** The holder of a lock is inside it, unless it died. */
  ghost predicate LockExplained<V>(s: State<V>, key: Key)
    requires key in s.locks
  {
    var t := s.locks[key].holder;
    t in s.tasks && s.tasks[t].call.key == key && (s.tasks[t].alive ==> Critical(s.tasks[t].stage))
  }

  ghost predicate LocksHeld<V>(s: State<V>) {
    && (forall t :: InCritical(s, t) ==> HoldsLock(s, t))
    && (forall key :: key in s.locks ==> LockExplained(s, key))
  }

  ghost predicate TaskInv<V>(s: State<V>, task: Task<V>) {
    && task.attempt <= MAX_RETRIES
    && (task.attempt == MAX_RETRIES ==> task.stage.Raised?)
    && (task.stage.Locking? || task.stage.Checking? || task.stage.Writing? ==>
          task.stage.next == task.call.update(task.stage.seen))
    && (task.stage.Writing? && task.alive ==> Lookup(s.store, task.call) == task.stage.seen)
  }

  ghost predicate TasksInv<V>(s: State<V>) {
    forall t :: t in s.tasks ==> TaskInv(s, s.tasks[t])
  }

  ghost predicate HasCommitted<V>(s: State<V>, t: TaskId) {
    exists i :: 0 <= i < |s.commits| && s.commits[i].task == t
  }

  ghost predicate CommitExplained<V>(s: State<V>, c: Commit<V>) {
    c.task in s.tasks && Committed(s.tasks[c.task].stage) && c.call == s.tasks[c.task].call
  }

  /** A task appears among the commits exactly once from its write on, and never before. */
  ghost predicate CommitsInv<V>(s: State<V>) {
    && (forall i :: 0 <= i < |s.commits| ==> CommitExplained(s, s.commits[i]))
    && (forall t :: t in s.tasks && Committed(s.tasks[t].stage) ==> HasCommitted(s, t))
    && (forall i, j :: 0 <= i < j < |s.commits| ==> s.commits[i].task != s.commits[j].task)
  }

  function ResultOf<V>(stage: Stage<V>): Option<V> {
    match stage
    case Releasing(r) => r
    case Deleting(r) => r
    case Returned(v) => Some(v)
    case _ => None
  }

  /** The result a committed call carries is what its key held right after its commit. */
  ghost predicate ResultCorrect<V>(store: map<Key, V>, s: State<V>, i: nat)
    requires i < |s.commits|
  {
    var after := Sequentially(store, s.commits[..i + 1]);
    var c := s.commits[i];
    c.task in s.tasks && c.call.key in after && ResultOf(s.tasks[c.task].stage) == Some(after[c.call.key])
  }

  ghost predicate ResultsInv<V>(store: map<Key, V>, s: State<V>) {
    forall i :: 0 <= i < |s.commits| ==> ResultCorrect(store, s, i)
  }

  ghost predicate Inv<V>(store: map<Key, V>, s: State<V>) {
    && LocksHeld(s)
    && TasksInv(s)
    && CommitsInv(s)
    && ResultsInv(store, s)
    && s.store == Sequentially(store, s.commits)
  }

  lemma LocksHeldStep<V>(s: State<V>, a: Action<V>)
    requires LocksHeld(s) && Enabled(s, a) && Timely(s, a)
    ensures LocksHeld(Step(s, a))
  {
    var s' := Step(s, a);
    forall t | InCritical(s', t)
      ensures HoldsLock(s', t)
    {
      StillHolds(s, a, t);
    }
    forall key | key in s'.locks
      ensures LockExplained(s', key)
    {
      StillExplained(s, a, key);
    }
  }

  lemma StillHolds<V>(s: State<V>, a: Action<V>, t: TaskId)
    requires LocksHeld(s) && Enabled(s, a) && Timely(s, a)
    requires InCritical(Step(s, a), t)
    ensures HoldsLock(Step(s, a), t)
  {
    if !(a.Acquire? && a.task == t) {
      assert InCritical(s, t);
      assert HoldsLock(s, t);
    }
    if a.DeleteLock? && a.task != t {
      assert InCritical(s, a.task) && HoldsLock(s, a.task);
    }
  }

  lemma StillExplained<V>(s: State<V>, a: Action<V>, key: Key)
    requires LocksHeld(s) && Enabled(s, a)
    requires key in Step(s, a).locks
    ensures LockExplained(Step(s, a), key)
  {
    if key in s.locks {
      assert LockExplained(s, key);
    }
    if a.ReadLock? {
      assert InCritical(s, a.task) && HoldsLock(s, a.task);
    }
    if a.DeleteLock? {
      assert InCritical(s, a.task) && HoldsLock(s, a.task);
    }
  }

  /** A lock leaves its key only by the release of the task that took it or by expiring; a crash leaves it standing. */
  lemma OnlyReleaseFrees<V>(s: State<V>, a: Action<V>, key: Key)
    requires LocksHeld(s) && Enabled(s, a) && Timely(s, a) && key in s.locks
    ensures var t := s.locks[key].holder;
      key !in Step(s, a).locks <==> a == Action<V>.Expire(key) || (a == Action<V>.DeleteLock(t) && s.tasks[t].call.key == key)
    ensures key in Step(s, a).locks ==> Step(s, a).locks[key] == s.locks[key]
  {
    assert LockExplained(s, key);
    if a.DeleteLock? {
      assert InCritical(s, a.task) && HoldsLock(s, a.task);
    }
  }

  lemma TasksInvStep<V>(s: State<V>, a: Action<V>)
    requires LocksHeld(s) && TasksInv(s) && Enabled(s, a)
    ensures TasksInv(Step(s, a))
  {
    hide LocksHeld;
    var s' := Step(s, a);
    if a.Write? {
      forall t | t in s'.tasks
        ensures TaskInv(s', s'.tasks[t])
      {
        if t != a.task && InCritical(s, t) && s.tasks[t].call.key == s.tasks[a.task].call.key {
          OneHolder(s, t, a.task);
        }
        assert TaskInv(s, s.tasks[t]);
      }
    }
  }

  /** Two running tasks are never both inside the lock of one key. */
  lemma OneHolder<V>(s: State<V>, t: TaskId, u: TaskId)
    requires LocksHeld(s) && InCritical(s, t) && InCritical(s, u)
    requires s.tasks[t].call.key == s.tasks[u].call.key
    ensures t == u
  {
  }

  /** What a step does to one call already under way: its arguments stay, its commit happens in its write step
      only, and a committed result never changes. */
  lemma TaskAfter<V>(s: State<V>, a: Action<V>, t: TaskId)
    requires Enabled(s, a) && t in s.tasks
    ensures var s' := Step(s, a);
      && t in s'.tasks && s'.tasks[t].call == s.tasks[t].call && s'.tasks[t].processId == s.tasks[t].processId
      && (Committed(s'.tasks[t].stage) <==> Committed(s.tasks[t].stage) || a == Action<V>.Write(t))
      && (Committed(s.tasks[t].stage) ==>
            a != Action<V>.Write(t) && ResultOf(s'.tasks[t].stage) == ResultOf(s.tasks[t].stage))
  {
  }

  lemma CommitsAfter<V>(s: State<V>, a: Action<V>)
    requires Enabled(s, a)
    ensures Step(s, a).commits == if a.Write? then s.commits + [Commit(a.task, s.tasks[a.task].call)] else s.commits
    ensures a.Write? ==> Running(s, a.task) && !Committed(s.tasks[a.task].stage)
    ensures forall t :: t in Step(s, a).tasks && t !in s.tasks ==> !Committed(Step(s, a).tasks[t].stage)
    ensures !a.Write? ==> Step(s, a).store == s.store
  {
  }

  lemma CommitsInvStep<V>(s: State<V>, a: Action<V>)
    requires CommitsInv(s) && Enabled(s, a)
    ensures CommitsInv(Step(s, a))
  {
    hide Step, Enabled, Committed;
    var s' := Step(s, a);
    CommitsAfter(s, a);
    forall i | 0 <= i < |s'.commits|
      ensures CommitExplained(s', s'.commits[i])
    {
      if i < |s.commits| {
        assert s'.commits[i] == s.commits[i] && CommitExplained(s, s.commits[i]);
      }
      TaskAfter(s, a, s'.commits[i].task);
    }
    forall t | t in s'.tasks && Committed(s'.tasks[t].stage)
      ensures HasCommitted(s', t)
    {
      TaskAfter(s, a, t);
      if a == Action<V>.Write(t) {
        assert s'.commits[|s.commits|].task == t;
      } else {
        assert HasCommitted(s, t);
        var i :| 0 <= i < |s.commits| && s.commits[i].task == t;
        assert s'.commits[i].task == t;
      }
    }
    forall i, j | 0 <= i < j < |s'.commits|
      ensures s'.commits[i].task != s'.commits[j].task
    {
      assert CommitExplained(s, s.commits[i]);
    }
  }

  lemma WriteApplies<V>(store: map<Key, V>, s: State<V>, t: TaskId)
    requires TasksInv(s) && Enabled(s, Action<V>.Write(t))
    requires s.store == Sequentially(store, s.commits)
    ensures var s' := Step(s, Action<V>.Write(t));
      && s'.store == Sequentially(store, s'.commits)
      && s.tasks[t].call.key in s'.store
      && t in s'.tasks && ResultOf(s'.tasks[t].stage) == Some(s'.store[s.tasks[t].call.key])
  {
    var s' := Step(s, Action<V>.Write(t));
    assert s'.commits[..|s.commits|] == s.commits;
    assert TaskInv(s, s.tasks[t]);
  }

  lemma ResultsInvStep<V>(store: map<Key, V>, s: State<V>, a: Action<V>)
    requires TasksInv(s) && CommitsInv(s) && ResultsInv(store, s) && Enabled(s, a)
    requires s.store == Sequentially(store, s.commits)
    ensures ResultsInv(store, Step(s, a))
    ensures Step(s, a).store == Sequentially(store, Step(s, a).commits)
  {
    hide Step, Enabled, Committed, Sequentially, TasksInv, ResultOf;
    var s' := Step(s, a);
    CommitsAfter(s, a);
    if a.Write? {
      WriteApplies(store, s, a.task);
    }
    forall i | 0 <= i < |s'.commits|
      ensures ResultCorrect(store, s', i)
    {
      if i < |s.commits| {
        assert CommitExplained(s, s.commits[i]) && ResultCorrect(store, s, i);
        assert s'.commits[..i + 1] == s.commits[..i + 1];
        TaskAfter(s, a, s.commits[i].task);
      } else {
        assert s'.commits[..i + 1] == s'.commits;
      }
    }
  }

  /** Every step that respects the lock's lifetime keeps the invariant. */
  lemma InvStep<V>(store: map<Key, V>, s: State<V>, a: Action<V>)
    requires Inv(store, s) && Enabled(s, a) && Timely(s, a)
    ensures Inv(store, Step(s, a))
  {
    hide LocksHeld, TasksInv, CommitsInv, ResultsInv, Sequentially, Step;
    LocksHeldStep(s, a);
    TasksInvStep(s, a);
    CommitsInvStep(s, a);
    ResultsInvStep(store, s, a);
  }

  lemma {:induction false} InvHolds<V>(store: map<Key, V>, actions: seq<Action<V>>)
    requires Possible(store, actions) && AllTimely(store, actions)
    ensures Inv(store, Final(store, actions))
  {
    if actions != [] {
      var n := |actions| - 1;
      InvHolds(store, actions[..n]);
      InvStep(store, Final(store, actions[..n]), actions[n]);
    }
  }

  // ---- What every run guarantees ----

  /** Call `t` took effect at position `i` of the commit order and reports the value it left there. */
  ghost predicate TookEffectAt<V>(store: map<Key, V>, s: State<V>, t: TaskId, i: nat)
    requires t in s.tasks
  {
    && i < |s.commits|
    && s.commits[i] == Commit(t, s.tasks[t].call)
    && var after := Sequentially(store, s.commits[..i + 1]);
       s.tasks[t].call.key in after && ResultOf(s.tasks[t].stage) == Some(after[s.tasks[t].call.key])
  }

  /** Main result. Whatever the interleaving, the number of tasks and their process names, and whoever crashes:
      at most one running task is inside the lock of a key, and the store is what the committed updates give
      when carried out one at a time, so none is lost, also when a value returns to an earlier one in between. */
  lemma NoLostUpdate<V>(store: map<Key, V>, actions: seq<Action<V>>)
    requires Possible(store, actions) && AllTimely(store, actions)
    ensures var s := Final(store, actions);
      && s.store == Sequentially(store, s.commits)
      && (forall t, u :: InCritical(s, t) && InCritical(s, u) && s.tasks[t].call.key == s.tasks[u].call.key ==> t == u)
  {
    InvHolds(store, actions);
    var s := Final(store, actions);
    forall t, u | InCritical(s, t) && InCritical(s, u) && s.tasks[t].call.key == s.tasks[u].call.key
      ensures t == u
    {
      OneHolder(s, t, u);
    }
  }

  /** A call that returned took effect exactly once, with the value it returned; a call that raised after its
      retries never did, and no call makes more attempts than allowed. */
  lemma ExactlyOnce<V>(store: map<Key, V>, actions: seq<Action<V>>, t: TaskId)
    requires Possible(store, actions) && AllTimely(store, actions)
    requires t in Final(store, actions).tasks
    ensures var s := Final(store, actions); var stage := s.tasks[t].stage;
      && (stage.Returned? ==> exists i :: TookEffectAt(store, s, t, i))
      && (forall i, j :: 0 <= i < |s.commits| && 0 <= j < |s.commits| && s.commits[i].task == t == s.commits[j].task ==> i == j)
      && (stage.Raised? ==> forall i :: 0 <= i < |s.commits| ==> s.commits[i].task != t)
      && s.tasks[t].attempt <= MAX_RETRIES
  {
    InvHolds(store, actions);
    var s := Final(store, actions);
    hide Final, Possible, AllTimely, LocksHeld, Sequentially;
    assert TaskInv(s, s.tasks[t]);
    if s.tasks[t].stage.Returned? {
      assert HasCommitted(s, t);
      var i :| 0 <= i < |s.commits| && s.commits[i].task == t;
      assert CommitExplained(s, s.commits[i]) && ResultCorrect(store, s, i);
      assert TookEffectAt(store, s, t, i);
    }
    if s.tasks[t].stage.Raised? {
      forall i | 0 <= i < |s.commits|
        ensures s.commits[i].task != t
      {
        assert CommitExplained(s, s.commits[i]);
      }
    }
  }

  /** The commit order only grows, so it respects real time: a call that took effect before another one
      started comes first in the order. */
  lemma {:induction false} CommitsGrow<V>(store: map<Key, V>, actions: seq<Action<V>>, n: nat)
    requires Possible(store, actions) && n <= |actions|
    ensures Possible(store, actions[..n])
    ensures Final(store, actions[..n]).commits <= Final(store, actions).commits
    ensures AllTimely(store, actions) ==> AllTimely(store, actions[..n])
  {
    if n == |actions| {
      assert actions[..n] == actions;
    } else {
      var m := |actions| - 1;
      CommitsGrow(store, actions[..m], n);
      assert actions[..m][..n] == actions[..n];
      CommitsAfter(Final(store, actions[..m]), actions[m]);
    }
  }

  lemma RealTimeOrder<V>(store: map<Key, V>, actions: seq<Action<V>>, n: nat, i: nat, j: nat)
    requires Possible(store, actions) && AllTimely(store, actions) && n <= |actions|
    requires i < |Final(store, actions).commits| && j < |Final(store, actions).commits|
    requires Possible(store, actions[..n])
    requires var mid := Final(store, actions[..n]); var c := Final(store, actions).commits;
      && c[i].task in mid.tasks && Committed(mid.tasks[c[i].task].stage)
      && c[j].task !in mid.tasks
    ensures i < j
  {
    var mid, c := Final(store, actions[..n]), Final(store, actions).commits;
    InvHolds(store, actions);
    CommitsGrow(store, actions, n);
    InvHolds(store, actions[..n]);
    hide Final, Possible, AllTimely, LocksHeld, TasksInv, ResultsInv, Sequentially;
    assert HasCommitted(mid, c[i].task);
    var k :| 0 <= k < |mid.commits| && mid.commits[k].task == c[i].task;
    assert c[k] == mid.commits[k];
    assert k == i;
  }

  // ---- How a call ends ----

  /** One pass of the retry loop as a run shows it: the value read, what the check inside the lock found, and whether
      the pass is over (the lock refused, given back, or found to be no longer the caller's). */
  datatype Pass<V> = Pass(seen: V, same: Option<bool>, over: bool)

  predicate FailedPass<V>(p: Pass<V>) {
    p.over && p.same != Some(true)
  }

  predicate FailedPasses<V>(passes: seq<Pass<V>>) {
    forall i :: 0 <= i < |passes| ==> FailedPass(passes[i])
  }

  function NextPasses<V(==)>(s: State<V>, passes: seq<Pass<V>>, a: Action<V>, t: TaskId): seq<Pass<V>>
    requires Enabled(s, a)
  {
    var m := |passes| - 1;
    if a == Action<V>.Read(t) then passes + [Pass(Lookup(s.store, s.tasks[t].call), None, false)]
    else if m < 0 then passes
    else if a == Action<V>.Recheck(t) then
      passes[m := passes[m].(same := Some(Lookup(s.store, s.tasks[t].call) == passes[m].seen))]
    else if a == Action<V>.GiveUp(t) || a == Action<V>.DeleteLock(t) then passes[m := passes[m].(over := true)]
    else if a == Action<V>.ReadLock(t) then
      var task := s.tasks[t];
      if task.call.key in s.locks && Owns(task.processId, s.locks[task.call.key]) then passes
      else passes[m := passes[m].(over := true)]
    else passes
  }

  /** The passes of call `t`, told from the actions and from what was stored. */
  function Passes<V(==)>(store: map<Key, V>, actions: seq<Action<V>>, t: TaskId): seq<Pass<V>>
    requires Possible(store, actions)
  {
    if actions == [] then []
    else
      var n := |actions| - 1;
      NextPasses(Final(store, actions[..n]), Passes(store, actions[..n], t), actions[n], t)
  }

  function Reads<V(==)>(actions: seq<Action<V>>, t: TaskId): nat {
    if actions == [] then 0
    else
      var n := |actions| - 1;
      Reads(actions[..n], t) + if actions[n] == Action<V>.Read(t) then 1 else 0
  }

  /** All passes but the last have failed; the last found this and is over or not. */
  ghost predicate LastPass<V>(passes: seq<Pass<V>>, same: Option<bool>, over: bool) {
    && passes != []
    && var m := |passes| - 1;
       passes[m].same == same && passes[m].over == over && FailedPasses(passes[..m])
  }

  /** Where the call stands, seen from its passes. */
  ghost predicate StageExplained<V>(task: Task<V>, passes: seq<Pass<V>>) {
    if task.stage.Reading? then |passes| == task.attempt < MAX_RETRIES && FailedPasses(passes)
    else if task.stage.Raised? then |passes| == task.attempt == MAX_RETRIES && FailedPasses(passes)
    else
      && |passes| == task.attempt + 1 <= MAX_RETRIES
      && var last := passes[|passes| - 1].seen;
         match task.stage
         case Locking(seen, next) => LastPass(passes, None, false) && seen == last && next == task.call.update(last)
         case Checking(seen, next) => LastPass(passes, None, false) && seen == last && next == task.call.update(last)
         case Writing(seen, next) => LastPass(passes, Some(true), false) && seen == last && next == task.call.update(last)
         case Releasing(result) => ResultExplained(task, passes, last, result)
         case Deleting(result) => ResultExplained(task, passes, last, result)
         case Returned(value) => LastPass(passes, Some(true), true) && value == task.call.update(last)
  }

  ghost predicate ResultExplained<V>(task: Task<V>, passes: seq<Pass<V>>, last: V, result: Option<V>) {
    LastPass(passes, Some(result.Some?), false) && (result.Some? ==> result.value == task.call.update(last))
  }

  /** The steps of other tasks, a crash and an expiry leave a call's stage and its passes as they are. */
  lemma Untouched<V>(s: State<V>, passes: seq<Pass<V>>, a: Action<V>, t: TaskId)
    requires Enabled(s, a) && t in s.tasks && (a.Expire? || a.Crash? || a.task != t)
    ensures NextPasses(s, passes, a, t) == passes
    ensures var task, after := s.tasks[t], Step(s, a).tasks[t];
      after.stage == task.stage && after.call == task.call && after.attempt == task.attempt
  {
  }

  function Over<V>(passes: seq<Pass<V>>): seq<Pass<V>>
    requires passes != []
  {
    passes[|passes| - 1 := passes[|passes| - 1].(over := true)]
  }

  /** A pass that ends without success leads to the next one, or to the exception after the last. */
  lemma PassFails<V>(task: Task<V>, passes: seq<Pass<V>>, same: Option<bool>)
    requires |passes| == task.attempt + 1 <= MAX_RETRIES && LastPass(passes, same, false) && same != Some(true)
    ensures StageExplained(Finish(task, None), Over(passes))
  {
    var m := |passes| - 1;
    assert Over(passes) == passes[..m] + [passes[m].(over := true)];
    assert FailedPasses(Over(passes));
  }

  lemma PassSucceeds<V>(task: Task<V>, passes: seq<Pass<V>>, value: V)
    requires |passes| == task.attempt + 1 <= MAX_RETRIES && LastPass(passes, Some(true), false)
    requires value == task.call.update(passes[|passes| - 1].seen)
    ensures StageExplained(Finish(task, Some(value)), Over(passes))
  {
    assert Over(passes)[..|passes| - 1] == passes[..|passes| - 1];
  }

  lemma PassEnds<V>(task: Task<V>, passes: seq<Pass<V>>, result: Option<V>)
    requires |passes| == task.attempt + 1 <= MAX_RETRIES
    requires ResultExplained(task, passes, passes[|passes| - 1].seen, result)
    ensures StageExplained(Finish(task, result), Over(passes))
  {
    if result.Some? {
      PassSucceeds(task, passes, result.value);
    } else {
      PassFails(task, passes, Some(false));
    }
  }

  /** The steps up to the write. */
  lemma GoesOn<V>(s: State<V>, passes: seq<Pass<V>>, a: Action<V>, t: TaskId)
    requires Enabled(s, a) && t in s.tasks && StageExplained(s.tasks[t], passes)
    requires a == Action<V>.Read(t) || (a.Acquire? && a.task == t) || a == Action<V>.Recheck(t) || a == Action<V>.Write(t)
    ensures StageExplained(Step(s, a).tasks[t], NextPasses(s, passes, a, t))
  {
    hide Lookup, Owns, Finish, FailedPass, FailedPasses;
    if a.Read? {
      assert NextPasses(s, passes, a, t)[..|passes|] == passes;
    } else if a.Recheck? {
      assert NextPasses(s, passes, a, t)[..|passes| - 1] == passes[..|passes| - 1];
    }
  }

  /** The steps that give up or release. */
  lemma GoesOut<V>(s: State<V>, passes: seq<Pass<V>>, a: Action<V>, t: TaskId)
    requires Enabled(s, a) && t in s.tasks && StageExplained(s.tasks[t], passes)
    requires a == Action<V>.GiveUp(t) || a == Action<V>.ReadLock(t) || a == Action<V>.DeleteLock(t)
    ensures StageExplained(Step(s, a).tasks[t], NextPasses(s, passes, a, t))
  {
    hide Lookup, Owns, Finish, LastPass;
    if a.GiveUp? {
      PassFails(s.tasks[t], passes, None);
    } else {
      PassEnds(s.tasks[t], passes, s.tasks[t].stage.result);
    }
  }

  lemma StageExplainedStep<V>(s: State<V>, passes: seq<Pass<V>>, a: Action<V>, t: TaskId)
    requires Enabled(s, a) && t in Step(s, a).tasks
    requires if t in s.tasks then StageExplained(s.tasks[t], passes) else passes == []
    ensures StageExplained(Step(s, a).tasks[t], NextPasses(s, passes, a, t))
  {
    if t !in s.tasks {
      NoPasses<V>();
      hide FailedPasses;
    } else if a.Expire? || a.Crash? || a.task != t {
      Untouched(s, passes, a, t);
      hide Step, NextPasses;
    } else {
      hide Step, NextPasses, StageExplained;
      if a.GiveUp? || a.ReadLock? || a.DeleteLock? {
        GoesOut(s, passes, a, t);
      } else {
        GoesOn(s, passes, a, t);
      }
    }
  }

  lemma NoPasses<V>()
    ensures FailedPasses<V>([])
  {
  }

  lemma {:induction false} StagesExplained<V>(store: map<Key, V>, actions: seq<Action<V>>, t: TaskId)
    requires Possible(store, actions)
    ensures var s, passes := Final(store, actions), Passes(store, actions, t);
      && (if t in s.tasks then StageExplained(s.tasks[t], passes) else passes == [])
      && |passes| == Reads(actions, t)
  {
    hide StageExplained, Step, NextPasses;
    if actions != [] {
      var n := |actions| - 1;
      var s, passes := Final(store, actions[..n]), Passes(store, actions[..n], t);
      StagesExplained(store, actions[..n], t);
      PassesCount(s, passes, actions[n], t);
      if t in Step(s, actions[n]).tasks {
        StageExplainedStep(s, passes, actions[n], t);
      }
    }
  }

  lemma PassesCount<V>(s: State<V>, passes: seq<Pass<V>>, a: Action<V>, t: TaskId)
    requires Enabled(s, a)
    ensures |NextPasses(s, passes, a, t)| == |passes| + if a == Action<V>.Read(t) then 1 else 0
    ensures t !in Step(s, a).tasks ==> t !in s.tasks && a != Action<V>.Read(t)
  {
  }

  /** Main result. In every run, timely or not: a call raises exactly when it has read five times and each pass came to
      nothing (no lock, or another value inside it), it returns exactly when its last pass found the value it had read,
      with the update of that value, and it is due to read again exactly after fewer than five passes, all failed. It never
      passes more often than that, nor again after a pass that did not fail. */
  lemma EndsIff<V>(store: map<Key, V>, actions: seq<Action<V>>, t: TaskId)
    requires Possible(store, actions) && t in Final(store, actions).tasks
    ensures var task, passes := Final(store, actions).tasks[t], Passes(store, actions, t);
      && (task.stage.Raised? <==> |passes| == 5 && FailedPasses(passes))
      && (task.stage.Reading? <==> |passes| < 5 && FailedPasses(passes))
      && (task.stage.Returned? <==> passes != [] && passes[|passes| - 1].over && passes[|passes| - 1].same == Some(true))
      && (task.stage.Returned? ==> task.stage.value == task.call.update(passes[|passes| - 1].seen))
      && |passes| == Reads(actions, t) <= 5
      && (passes != [] ==> FailedPasses(passes[..|passes| - 1]))
  {
    StagesExplained(store, actions, t);
    StageTells(Final(store, actions).tasks[t], Passes(store, actions, t));
  }

  lemma StageTells<V>(task: Task<V>, passes: seq<Pass<V>>)
    requires StageExplained(task, passes)
    ensures |passes| <= 5 && (passes != [] ==> FailedPasses(passes[..|passes| - 1]))
    ensures task.stage.Raised? <==> |passes| == 5 && FailedPasses(passes)
    ensures task.stage.Reading? <==> |passes| < 5 && FailedPasses(passes)
    ensures task.stage.Returned? <==> passes != [] && passes[|passes| - 1].over && passes[|passes| - 1].same == Some(true)
    ensures task.stage.Returned? ==> task.stage.value == task.call.update(passes[|passes| - 1].seen)
  {
    if FailedPasses(passes) && passes != [] {
      assert FailedPass(passes[|passes| - 1]);
    }
  }

  ghost predicate Reaches<V>(store: map<Key, V>, actions: seq<Action<V>>, s: State<V>) {
    Possible(store, actions) && Final(store, actions) == s
  }

  lemma Then<V>(store: map<Key, V>, actions: seq<Action<V>>, s: State<V>, a: Action<V>)
    requires Reaches(store, actions, s) && Enabled(s, a)
    ensures Reaches(store, actions + [a], Step(s, a))
  {
    assert (actions + [a])[..|actions|] == actions;
  }

  /** The steps of one pass that meets no other task. */
  function Alone<V>(t: TaskId, stamp: string): seq<Action<V>> {
    [Read(t), Acquire(t, stamp), Recheck(t), Write(t), ReadLock(t), DeleteLock(t)]
  }

  /** A call about to read, whatever its number of failed passes, can go on step by step when the lock of its key is free
      and nobody else moves: it returns the update of the value stored then, leaves that value in the store, takes effect
      once and gives the lock back. */
  lemma LeftAlone<V>(store: map<Key, V>, actions: seq<Action<V>>, t: TaskId, stamp: string)
    requires Possible(store, actions)
    requires var s := Final(store, actions);
      Running(s, t) && s.tasks[t].stage.Reading? && s.tasks[t].call.key !in s.locks
    ensures Possible(store, actions + Alone(t, stamp))
    ensures var s, s' := Final(store, actions), Final(store, actions + Alone(t, stamp));
      var task := s.tasks[t];
      var value := task.call.update(Lookup(s.store, task.call));
      && s'.tasks == s.tasks[t := task.(stage := Returned(value))]
      && s'.store == s.store[task.call.key := value]
      && s'.locks == s.locks
      && s'.commits == s.commits + [Commit(t, task.call)]
  {
    hide Final, Possible;
    var s := Final(store, actions);
    var task := s.tasks[t];
    var seen := Lookup(s.store, task.call);
    var key, next := task.call.key, task.call.update(seen);
    var locked := s.locks[key := Lock(task.processId + ":" + stamp, t)];
    assert Owns(task.processId, locked[key]);
    var now, run := s, actions;
    Then(store, run, now, Read(t));
    run, now := run + [Read(t)], Step(now, Read(t));
    Then(store, run, now, Acquire(t, stamp));
    run, now := run + [Acquire(t, stamp)], Step(now, Acquire(t, stamp));
    Then(store, run, now, Recheck(t));
    run, now := run + [Recheck(t)], Step(now, Recheck(t));
    assert now == s.(tasks := s.tasks[t := task.(stage := Writing(seen, next))], locks := locked);
    Then(store, run, now, Write(t));
    run, now := run + [Write(t)], Step(now, Write(t));
    Then(store, run, now, ReadLock(t));
    run, now := run + [ReadLock(t)], Step(now, ReadLock(t));
    Then(store, run, now, DeleteLock(t));
    run, now := run + [DeleteLock(t)], Step(now, DeleteLock(t));
    assert run == actions + Alone(t, stamp);
    assert now.locks == s.locks && now.tasks == s.tasks[t := task.(stage := Returned(next))];
  }

  // ---- Why the lock must outlive its holder's stay ----

  /** Two tasks with the same call, at the given stages; the lock belongs to `owner` when there is one. */
  function Two<V>(call: Call<V>, value: V, first: Stage<V>, second: Stage<V>, owner: Option<TaskId>, commits: seq<Commit<V>>): State<V> {
    State(map[call.key := value],
          if owner == None then map[] else map[call.key := Lock(if owner.value == 0 then "p:1" else "q:1", owner.value)],
          map[0 := Task("p", call, 0, first, true), 1 := Task("q", call, 0, second, true)],
          commits)
  }

  lemma BothRead<V>(call: Call<V>, v: V) returns (actions: seq<Action<V>>)
    ensures var stage := Locking(v, call.update(v));
      Reaches(map[call.key := v], actions, Two(call, v, stage, stage, None, []))
  {
    var store := map[call.key := v];
    hide Final, Possible;
    assert Reaches(store, [], Initial(store)) by { StartsInitial(store); }
    var s := Initial(store);
    actions := [];
    Then(store, actions, s, Start(0, "p", call));
    actions, s := actions + [Start(0, "p", call)], Step(s, Start(0, "p", call));
    Then(store, actions, s, Start(1, "q", call));
    actions, s := actions + [Start(1, "q", call)], Step(s, Start(1, "q", call));
    assert s == Two(call, v, Reading, Reading, None, []);
    Then(store, actions, s, Read(0));
    actions, s := actions + [Read(0)], Step(s, Read(0));
    Then(store, actions, s, Read(1));
    actions, s := actions + [Read(1)], Step(s, Read(1));
  }

  lemma StartsInitial<V>(store: map<Key, V>)
    ensures Reaches(store, [], Initial(store))
  {
  }

  lemma BothChecked<V>(call: Call<V>, v: V, before: seq<Action<V>>) returns (actions: seq<Action<V>>)
    requires var stage := Locking(v, call.update(v));
      Reaches(map[call.key := v], before, Two(call, v, stage, stage, None, []))
    ensures var stage := Writing(v, call.update(v));
      Reaches(map[call.key := v], actions, Two(call, v, stage, stage, Some(1), []))
  {
    var store := map[call.key := v];
    hide Final, Possible;
    assert "p" + ":" + "1" == "p:1" && "q" + ":" + "1" == "q:1";
    var locking, writing := Locking(v, call.update(v)), Writing(v, call.update(v));
    actions := before;
    var s := Two(call, v, locking, locking, None, []);
    Then(store, actions, s, Acquire(0, "1"));
    actions, s := actions + [Acquire(0, "1")], Step(s, Acquire(0, "1"));
    Then(store, actions, s, Recheck(0));
    actions, s := actions + [Recheck(0)], Step(s, Recheck(0));
    assert s == Two(call, v, writing, locking, Some(0), []);
    Then(store, actions, s, Expire(call.key));
    actions, s := actions + [Expire(call.key)], Step(s, Expire(call.key));
    assert s == Two(call, v, writing, locking, None, []);
    Then(store, actions, s, Acquire(1, "1"));
    actions, s := actions + [Acquire(1, "1")], Step(s, Acquire(1, "1"));
    Then(store, actions, s, Recheck(1));
    actions, s := actions + [Recheck(1)], Step(s, Recheck(1));
    assert s == Two(call, v, writing, writing, Some(1), []);
  }

  /** For every update that changes a value twice in a row, one lock expiring under a running holder is enough
      to lose it: two calls write one after the other, both hold a success result, and the store shows one
      application of the update where two were reported. */
  lemma EarlyExpiryLosesUpdate<V>(call: Call<V>, v: V) returns (actions: seq<Action<V>>)
    requires call.update(call.update(v)) != call.update(v)
    ensures var store := map[call.key := v];
      && Possible(store, actions)
      && var s := Final(store, actions);
         && s.commits == [Commit(0, call), Commit(1, call)] && 0 in s.tasks && 1 in s.tasks
         && s.tasks[0].stage == s.tasks[1].stage == Releasing(Some(call.update(v)))
         && s.store != Sequentially(store, s.commits)
  {
    actions := BothRead(call, v);
    actions := BothChecked(call, v, actions);
    actions := BothWritten(call, v, actions);
    TwoCommits(call, v);
  }

  lemma BothWritten<V>(call: Call<V>, v: V, before: seq<Action<V>>) returns (actions: seq<Action<V>>)
    requires var stage := Writing(v, call.update(v));
      Reaches(map[call.key := v], before, Two(call, v, stage, stage, Some(1), []))
    ensures var stage := Releasing(Some(call.update(v)));
      Reaches(map[call.key := v], actions,
              Two(call, call.update(v), stage, stage, Some(1), [Commit(0, call), Commit(1, call)]))
  {
    hide Final, Possible, Lookup;
    var store, next := map[call.key := v], call.update(v);
    var writing, written := Writing(v, next), Releasing(Some(next));
    var s := Two(call, v, writing, writing, Some(1), []);
    actions := before;
    Then(store, actions, s, Write(0));
    actions, s := actions + [Write(0)], Step(s, Write(0));
    assert s == Two(call, next, written, writing, Some(1), [Commit(0, call)]);
    Then(store, actions, s, Write(1));
    actions, s := actions + [Write(1)], Step(s, Write(1));
    assert s == Two(call, next, written, written, Some(1), [Commit(0, call), Commit(1, call)]);
  }

  lemma TwoCommits<V>(call: Call<V>, v: V)
    ensures call.key in Sequentially(map[call.key := v], [Commit(0, call), Commit(1, call)])
    ensures Sequentially(map[call.key := v], [Commit(0, call), Commit(1, call)])[call.key] == call.update(call.update(v))
  {
    var store, a, b := map[call.key := v], Commit(0, call), Commit(1, call);
    assert [a, b][..1] == [a] && [a][..0] == [];
    assert Sequentially(store, [a]) == Apply(Sequentially(store, []), call);
    assert Sequentially(store, [a, b]) == Apply(Apply(store, call), call);
  }
}
